/**
 * The stored health-check row and the two queries the views run on the store.
 * The store is the sequence of rows in insertion order; persistence is not modelled.
 */
module Records {
  import opened Wrappers
  import opened Sorting

  /** One stored probe, with the fields of the HealthCheck row. */
  datatype CheckRecord = CheckRecord(
    url: string,
    statusCode: int,
    isUp: bool,
    responseTimeMs: real,
    errorMessage: Option<string>,
    checkedAt: int)

  /** The ordering key of `order_by('-checked_at')`. */
  function CheckedAt(c: CheckRecord): int
  {
    c.checkedAt
  }

  /** How many rows the "recent checks" table shows. */
  const RecentLimit: nat := 10

  /** The store's rows ordered newest first: a permutation whose timestamps never increase. */
  function NewestFirst(store: seq<CheckRecord>): (r: seq<CheckRecord>)
    ensures SortedDesc(r, CheckedAt)
    ensures multiset(r) == multiset(store)
  {
    SortDesc(store, CheckedAt)
  }

  /** The rows of `s` whose URL is exactly `url`, in their original order. */
  function Filter(s: seq<CheckRecord>, url: string): (r: seq<CheckRecord>)
    ensures forall c :: multiset(r)[c] == if c.url == url then multiset(s)[c] else 0
  {
    if s == [] then []
    else
      assert s == [s[0]] + s[1..];
      (if s[0].url == url then [s[0]] else []) + Filter(s[1..], url)
  }

  /** Facts about a prefix of a newest-first ordering, used by `RecentChecks`. */
  lemma PrefixOfSorted(t: seq<CheckRecord>, k: nat)
    requires SortedDesc(t, CheckedAt) && k <= |t|
    ensures SortedDesc(t[..k], CheckedAt)
    ensures multiset(t[..k]) <= multiset(t)
    ensures forall i, c :: 0 <= i < k && c in multiset(t) - multiset(t[..k]) ==>
      c.checkedAt <= t[i].checkedAt
  {
    assert t == t[..k] + t[k..];
    forall i, c | 0 <= i < k && c in multiset(t) - multiset(t[..k])
      ensures c.checkedAt <= t[i].checkedAt
    {
      assert c in multiset(t[k..]);
      var j :| 0 <= j < |t[k..]| && t[k..][j] == c;
      assert CheckedAt(t[i]) >= CheckedAt(t[k + j]);
    }
  }

  /**
   * The "last 10 checks" query: at most RecentLimit rows of the store, newest
   * first, and no row left out is newer than a row shown.
   */
  function RecentChecks(store: seq<CheckRecord>): (r: seq<CheckRecord>)
    ensures |r| == if |store| < RecentLimit then |store| else RecentLimit
    ensures SortedDesc(r, CheckedAt)
    ensures multiset(r) <= multiset(store)
    ensures forall i, c :: 0 <= i < |r| && c in multiset(store) - multiset(r) ==>
      c.checkedAt <= r[i].checkedAt
  {
    var t := NewestFirst(store);
    var k := if |t| < RecentLimit then |t| else RecentLimit;
    PrefixOfSorted(t, k);
    t[..k]
  }

  /**
   * The history query for one URL: exactly the store's rows with that URL
   * (exact string equality), newest first.
   */
  function ChecksFor(store: seq<CheckRecord>, url: string): (r: seq<CheckRecord>)
    ensures forall i :: 0 <= i < |r| ==> r[i].url == url
    ensures forall c :: multiset(r)[c] == if c.url == url then multiset(store)[c] else 0
    ensures SortedDesc(r, CheckedAt)
  {
    var r := NewestFirst(Filter(store, url));
    assert forall i :: 0 <= i < |r| ==> multiset(r)[r[i]] > 0;
    r
  }
}
