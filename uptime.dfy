/**
 * Uptime statistics over the stored history: group the rows by exact URL,
 * count the rows and the up rows per URL, keep the timestamp of the first row
 * met for each URL, turn each group into a percentage and order the summaries
 * by that timestamp, most recent first.
 */
module Uptime {
  import opened Sorting
  import opened Records

  /** The per-URL accumulator of the grouping loop. */
  datatype UrlStats = UrlStats(url: string, total: nat, up: nat, lastChecked: int)

  /** One row of the uptime table. */
  datatype UptimeSummary = UptimeSummary(
    url: string,
    total: nat,
    up: nat,
    uptimePercent: real,
    lastChecked: int)

  /** The ordering key of the final sort. */
  function LastChecked(s: UptimeSummary): int
  {
    s.lastChecked
  }

  // ----- Reference definitions over the whole history -----

  /** The distinct URLs that occur in the history. */
  function Urls(checks: seq<CheckRecord>): set<string>
  {
    set c | c in checks :: c.url
  }

  /** The number of rows for exactly `url`. */
  function Total(checks: seq<CheckRecord>, url: string): nat
  {
    if checks == [] then 0
    else Total(checks[..|checks| - 1], url) + (if checks[|checks| - 1].url == url then 1 else 0)
  }

  /** The number of up rows for exactly `url`. */
  function UpCount(checks: seq<CheckRecord>, url: string): nat
  {
    if checks == [] then 0
    else
      var last := checks[|checks| - 1];
      UpCount(checks[..|checks| - 1], url) + (if last.url == url && last.isUp then 1 else 0)
  }

  /** The position of the first row for `url`. */
  function FirstIndex(checks: seq<CheckRecord>, url: string): (i: nat)
    requires url in Urls(checks)
    ensures i < |checks| && checks[i].url == url
    ensures forall j :: 0 <= j < i ==> checks[j].url != url
  {
    if checks[0].url == url then 0
    else
      var c :| c in checks && c.url == url;
      assert c in checks[1..] by {
        assert checks == [checks[0]] + checks[1..];
      }
      1 + FirstIndex(checks[1..], url)
  }

  /** The timestamp of the first row met for `url`. */
  function FirstCheckedAt(checks: seq<CheckRecord>, url: string): int
    requires url in Urls(checks)
  {
    checks[FirstIndex(checks, url)].checkedAt
  }

  /**
   * The percentage of up rows, guarded against an empty group as the source
   * does. It is exact: `p * total == up * 100`, so it lies in [0, 100], and a
   * single row gives 0 or 100.
   */
  function UptimePercent(up: nat, total: nat): (p: real)
    ensures total == 0 ==> p == 0.0
    ensures total > 0 ==> p * (total as real) == (up as real) * 100.0
    ensures up <= total ==> 0.0 <= p <= 100.0
    ensures up <= total == 1 ==> p == 0.0 || p == 100.0
  {
    if total > 0 then (up as real / total as real) * 100.0 else 0.0
  }

  /** The summary the table must show for `url`. */
  function Expected(checks: seq<CheckRecord>, url: string): UptimeSummary
    requires url in Urls(checks)
  {
    var total := Total(checks, url);
    var up := UpCount(checks, url);
    UptimeSummary(url, total, up, UptimePercent(up, total), FirstCheckedAt(checks, url))
  }

  /**
   * `entries` holds exactly one entry per URL of the history, and each entry
   * is the expected summary of its URL.
   */
  ghost predicate OneEntryPerUrl(checks: seq<CheckRecord>, entries: seq<UptimeSummary>)
  {
    && (forall k :: 0 <= k < |entries| ==>
          entries[k].url in Urls(checks) && entries[k] == Expected(checks, entries[k].url))
    && (forall u :: u in Urls(checks) ==> exists k :: 0 <= k < |entries| && entries[k].url == u)
    && (forall i, j :: 0 <= i < j < |entries| ==> entries[i].url != entries[j].url)
  }

  /**
   * `report` is a correct uptime table for `checks`: one expected entry per
   * URL, ordered by last check, most recent first.
   */
  ghost predicate IsUptimeReport(checks: seq<CheckRecord>, report: seq<UptimeSummary>)
  {
    && OneEntryPerUrl(checks, report)
    && SortedDesc(report, LastChecked)
  }

  // ----- Facts about the reference definitions -----

  /** Up rows never outnumber rows, and a URL has a row exactly when it occurs. */
  lemma {:induction false} CountsBounded(checks: seq<CheckRecord>, url: string)
    ensures UpCount(checks, url) <= Total(checks, url)
    ensures Total(checks, url) > 0 <==> url in Urls(checks)
  {
    if checks != [] {
      var init := checks[..|checks| - 1];
      assert checks == init + [checks[|checks| - 1]];
      assert Urls(checks) == Urls(init) + {checks[|checks| - 1].url};
      CountsBounded(init, url);
    }
  }

  /** Appending one row moves each count by that row alone. */
  lemma CountsAppend(s: seq<CheckRecord>, x: CheckRecord, url: string)
    ensures Total(s + [x], url) == Total(s, url) + (if x.url == url then 1 else 0)
    ensures UpCount(s + [x], url) == UpCount(s, url) + (if x.url == url && x.isUp then 1 else 0)
    ensures Urls(s + [x]) == Urls(s) + {x.url}
  {
    assert (s + [x])[..|s|] == s;
  }

  /** Appending one row keeps the first position of a URL already seen and makes the new row first for a new one. */
  lemma FirstIndexAppend(s: seq<CheckRecord>, x: CheckRecord, url: string)
    requires url in Urls(s + [x])
    ensures FirstIndex(s + [x], url) == if url in Urls(s) then FirstIndex(s, url) else |s|
  {
    assert forall j :: 0 <= j < |s| ==> (s + [x])[j] == s[j];
    if url !in Urls(s) {
      assert forall j :: 0 <= j < |s| ==> s[j] in s && s[j].url != url;
    }
  }

  /** Appending one row keeps the first timestamp of a URL already seen and sets it for a new one. */
  lemma FirstCheckedAtAppend(s: seq<CheckRecord>, x: CheckRecord, url: string)
    requires url in Urls(s + [x])
    ensures FirstCheckedAt(s + [x], url) == if url in Urls(s) then FirstCheckedAt(s, url) else x.checkedAt
  {
    FirstIndexAppend(s, x, url);
    if url in Urls(s) {
      assert (s + [x])[FirstIndex(s, url)] == s[FirstIndex(s, url)];
    }
  }

  /**
   * On a newest-first history the first timestamp met for a URL is the
   * largest one recorded for it, and some row carries it.
   */
  lemma LastCheckedIsNewest(checks: seq<CheckRecord>, url: string)
    requires SortedDesc(checks, CheckedAt) && url in Urls(checks)
    ensures forall c :: c in checks && c.url == url ==> c.checkedAt <= FirstCheckedAt(checks, url)
    ensures exists c :: c in checks && c.url == url && c.checkedAt == FirstCheckedAt(checks, url)
  {
    var k := FirstIndex(checks, url);
    forall c | c in checks && c.url == url
      ensures c.checkedAt <= FirstCheckedAt(checks, url)
    {
      var i :| 0 <= i < |checks| && checks[i] == c;
      assert k <= i;
      if k < i {
        assert CheckedAt(checks[k]) >= CheckedAt(checks[i]);
      }
    }
  }

  // ----- The computation, as the view performs it -----

  /** The accumulator for `url` after reading the whole of `checks`. */
  function StatsOf(checks: seq<CheckRecord>, url: string): UrlStats
    requires url in Urls(checks)
  {
    UrlStats(url, Total(checks, url), UpCount(checks, url), FirstCheckedAt(checks, url))
  }

  /** `stats` holds the accumulator of every URL of `checks` and nothing else. */
  ghost predicate Accumulates(checks: seq<CheckRecord>, stats: map<string, UrlStats>)
  {
    && stats.Keys == Urls(checks)
    && forall u :: u in stats ==> stats[u] == StatsOf(checks, u)
  }

  /** The accumulator of `x.url` once `x` has been counted. */
  function Counted(stats: map<string, UrlStats>, x: CheckRecord): UrlStats
  {
    var d := if x.url in stats then stats[x.url] else UrlStats(x.url, 0, 0, x.checkedAt);
    d.(total := d.total + 1, up := if x.isUp then d.up + 1 else d.up)
  }

  /** One more row leaves the accumulator of every other URL unchanged. */
  lemma StepOther(s: seq<CheckRecord>, x: CheckRecord, u: string)
    requires u in Urls(s) && u != x.url
    ensures u in Urls(s + [x]) && StatsOf(s + [x], u) == StatsOf(s, u)
  {
    CountsAppend(s, x, u);
    FirstCheckedAtAppend(s, x, u);
  }

  /** One more row of a URL already seen bumps its counts and keeps its first timestamp. */
  lemma StepSeen(s: seq<CheckRecord>, x: CheckRecord)
    requires x.url in Urls(s)
    ensures x.url in Urls(s + [x])
    ensures StatsOf(s + [x], x.url) == Counted(map[x.url := StatsOf(s, x.url)], x)
  {
    CountsAppend(s, x, x.url);
    FirstCheckedAtAppend(s, x, x.url);
  }

  /** The first row of a new URL starts its accumulator at one row and that row's timestamp. */
  lemma StepNew(s: seq<CheckRecord>, x: CheckRecord)
    requires x.url !in Urls(s)
    ensures x.url in Urls(s + [x])
    ensures StatsOf(s + [x], x.url) == UrlStats(x.url, 1, if x.isUp then 1 else 0, x.checkedAt)
  {
    CountsAppend(s, x, x.url);
    FirstCheckedAtAppend(s, x, x.url);
    CountsBounded(s, x.url);
  }

  /** Counting one more row keeps the accumulators exact. */
  lemma GroupStep(s: seq<CheckRecord>, x: CheckRecord, stats: map<string, UrlStats>)
    requires Accumulates(s, stats)
    ensures Accumulates(s + [x], stats[x.url := Counted(stats, x)])
  {
    var next := stats[x.url := Counted(stats, x)];
    CountsAppend(s, x, x.url);
    assert next.Keys == Urls(s + [x]);
    forall u | u in next
      ensures next[u] == StatsOf(s + [x], u)
    {
      if u != x.url {
        StepOther(s, x, u);
      } else if x.url in stats {
        StepSeen(s, x);
      } else {
        StepNew(s, x);
      }
    }
  }

  /** `order` lists URLs of the history in the order of their first rows. */
  ghost predicate InFirstAppearanceOrder(checks: seq<CheckRecord>, order: seq<string>)
  {
    && (forall k :: 0 <= k < |order| ==> order[k] in Urls(checks))
    && (forall a, b :: 0 <= a < b < |order| ==> FirstIndex(checks, order[a]) < FirstIndex(checks, order[b]))
  }

  /** Reading one more row keeps the key order, extended by the row's URL when it is new. */
  lemma OrderStep(s: seq<CheckRecord>, x: CheckRecord, order: seq<string>)
    requires InFirstAppearanceOrder(s, order)
    ensures InFirstAppearanceOrder(s + [x], if x.url in Urls(s) then order else order + [x.url])
  {
    CountsAppend(s, x, x.url);
    var next := if x.url in Urls(s) then order else order + [x.url];
    forall k | 0 <= k < |order|
      ensures order[k] in Urls(s + [x]) && FirstIndex(s + [x], order[k]) == FirstIndex(s, order[k])
    {
      FirstIndexAppend(s, x, order[k]);
    }
    if x.url !in Urls(s) {
      FirstIndexAppend(s, x, x.url);
      assert next[|order|] == x.url;
    }
  }

  /** The grouping loop's invariant after reading `checks`. */
  ghost predicate Grouped(checks: seq<CheckRecord>, stats: map<string, UrlStats>, order: seq<string>)
  {
    && Accumulates(checks, stats)
    && Distinct(order) && (forall u :: u in order <==> u in stats)
    && InFirstAppearanceOrder(checks, order)
  }

  /** One iteration of the grouping loop keeps its invariant. */
  lemma GroupedStep(s: seq<CheckRecord>, x: CheckRecord, stats: map<string, UrlStats>, order: seq<string>)
    requires Grouped(s, stats, order)
    ensures Grouped(s + [x], stats[x.url := Counted(stats, x)],
                    if x.url in stats then order else order + [x.url])
  {
    GroupStep(s, x, stats);
    OrderStep(s, x, order);
    if x.url !in stats {
      DistinctAppend(order, x.url);
    }
  }

  /**
   * The body of the grouping loop: a URL met for the first time gets a fresh
   * accumulator stamped with this row's time and joins the key order; then
   * the row is counted, and counted as up when it is.
   */
  method CountRow(stats: map<string, UrlStats>, order: seq<string>, check: CheckRecord)
    returns (stats': map<string, UrlStats>, order': seq<string>)
    ensures stats' == stats[check.url := Counted(stats, check)]
    ensures order' == if check.url in stats then order else order + [check.url]
  {
    stats', order' := stats, order;
    var key := check.url;
    if key !in stats' {
      stats' := stats'[key := UrlStats(key, 0, 0, check.checkedAt)];
      order' := order' + [key];
    }
    var entry := stats'[key];
    entry := entry.(total := entry.total + 1);
    if check.isUp {
      entry := entry.(up := entry.up + 1);
    }
    stats' := stats'[key := entry];
  }

  /**
   * The grouping loop: one accumulator per distinct URL holding its row
   * count, its up count and the timestamp of its first row. `order` lists the
   * URLs in the order the dictionary received them, that of their first rows.
   */
  method GroupByUrl(checks: seq<CheckRecord>) returns (stats: map<string, UrlStats>, order: seq<string>)
    ensures Accumulates(checks, stats)
    ensures Distinct(order) && forall u :: u in order <==> u in stats
    ensures InFirstAppearanceOrder(checks, order)
  {
    stats, order := map[], [];
    var i := 0;
    while i < |checks|
      invariant 0 <= i <= |checks|
      invariant Grouped(checks[..i], stats, order)
    {
      var check := checks[i];
      assert checks[..i + 1] == checks[..i] + [check];
      GroupedStep(checks[..i], check, stats, order);
      stats, order := CountRow(stats, order, check);
      i := i + 1;
    }
    assert checks[..i] == checks;
  }

  /** The summary row made from one accumulator. */
  function SummaryOf(d: UrlStats): UptimeSummary
  {
    UptimeSummary(d.url, d.total, d.up, UptimePercent(d.up, d.total), d.lastChecked)
  }

  /** The second loop: one summary per accumulator, in dictionary order. */
  method Summarize(stats: map<string, UrlStats>, order: seq<string>) returns (summaries: seq<UptimeSummary>)
    requires forall u :: u in order ==> u in stats
    ensures |summaries| == |order|
    ensures forall i :: 0 <= i < |order| ==> summaries[i] == SummaryOf(stats[order[i]])
  {
    summaries := [];
    for i := 0 to |order|
      invariant |summaries| == i
      invariant forall k :: 0 <= k < i ==> summaries[k] == SummaryOf(stats[order[k]])
    {
      var data := stats[order[i]];
      summaries := summaries + [SummaryOf(data)];
    }
  }

  /** The whole uptime computation of the home view. */
  method Aggregate(checks: seq<CheckRecord>) returns (report: seq<UptimeSummary>)
    ensures IsUptimeReport(checks, report)
  {
    var stats, order := GroupByUrl(checks);
    var unsorted := Summarize(stats, order);
    report := SortDesc(unsorted, LastChecked);
    SummariesOneEntryPerUrl(checks, stats, order, unsorted);
    PermutationKeepsEntries(checks, unsorted, report);
  }

  /** The summaries of the grouping loop's accumulators form one expected entry per URL. */
  lemma SummariesOneEntryPerUrl(checks: seq<CheckRecord>, stats: map<string, UrlStats>,
                                order: seq<string>, summaries: seq<UptimeSummary>)
    requires Accumulates(checks, stats)
    requires Distinct(order) && forall u :: u in order <==> u in stats
    requires |summaries| == |order|
    requires forall i :: 0 <= i < |order| ==> summaries[i] == SummaryOf(stats[order[i]])
    ensures OneEntryPerUrl(checks, summaries)
  {
    assert forall i :: 0 <= i < |summaries| ==>
      summaries[i].url == order[i] && summaries[i] == Expected(checks, order[i]);
    forall u | u in Urls(checks)
      ensures exists k :: 0 <= k < |summaries| && summaries[k].url == u
    {
      var k :| 0 <= k < |order| && order[k] == u;
      assert summaries[k].url == u;
    }
  }

  /** Reordering a table keeps one expected entry per URL. */
  lemma PermutationKeepsEntries(checks: seq<CheckRecord>, s: seq<UptimeSummary>, t: seq<UptimeSummary>)
    requires OneEntryPerUrl(checks, s) && multiset(s) == multiset(t)
    ensures OneEntryPerUrl(checks, t)
  {
    ReportDistinct(checks, s);
    DistinctPermutation(s, t);
    forall k | 0 <= k < |t|
      ensures t[k].url in Urls(checks) && t[k] == Expected(checks, t[k].url)
    {
      assert t[k] in multiset(s);
    }
    forall u | u in Urls(checks)
      ensures exists k :: 0 <= k < |t| && t[k].url == u
    {
      var i :| 0 <= i < |s| && s[i].url == u;
      assert s[i] in multiset(t);
      var k :| 0 <= k < |t| && t[k] == s[i];
    }
  }

  // ----- Properties of every correct uptime table -----

  /**
   * For a table of the newest-first ordering of a store, each entry's
   * last-checked time is the newest timestamp stored for its URL.
   */
  lemma ReportShowsNewest(store: seq<CheckRecord>, report: seq<UptimeSummary>)
    requires IsUptimeReport(NewestFirst(store), report)
    ensures forall k, c :: 0 <= k < |report| && c in store && c.url == report[k].url ==>
      c.checkedAt <= report[k].lastChecked
  {
    var checks := NewestFirst(store);
    forall k, c | 0 <= k < |report| && c in store && c.url == report[k].url
      ensures c.checkedAt <= report[k].lastChecked
    {
      assert c in multiset(checks);
      LastCheckedIsNewest(checks, c.url);
    }
  }

  /** A sequence without repetitions has as many distinct elements as positions. */
  lemma {:induction false} DistinctCardinality(us: seq<string>)
    requires Distinct(us)
    ensures |set u | u in us| == |us|
  {
    if us != [] {
      var rest := us[1..];
      assert Distinct(rest);
      DistinctCardinality(rest);
      assert (set u | u in us) == (set u | u in rest) + {us[0]};
      assert us[0] !in rest;
    }
  }

  /**
   * A correct table has exactly as many entries as the history has distinct
   * URLs; in particular the empty history has the empty table.
   */
  lemma ReportSize(checks: seq<CheckRecord>, report: seq<UptimeSummary>)
    requires IsUptimeReport(checks, report)
    ensures |report| == |Urls(checks)|
    ensures checks == [] ==> report == []
  {
    var us := UrlsOf(report);
    DistinctCardinality(us);
    assert (set u | u in us) == Urls(checks) by {
      forall u | u in Urls(checks)
        ensures u in us
      {
        var k :| 0 <= k < |report| && report[k].url == u;
        assert us[k] == u;
      }
    }
  }

  /** Every entry has at least one row, no more up rows than rows, and a percentage in [0, 100]. */
  lemma ReportEntriesBounded(checks: seq<CheckRecord>, report: seq<UptimeSummary>, k: nat)
    requires IsUptimeReport(checks, report) && k < |report|
    ensures 0 <= report[k].up <= report[k].total && report[k].total >= 1
    ensures 0.0 <= report[k].uptimePercent <= 100.0
    ensures report[k].total == 1 ==> report[k].uptimePercent == 0.0 || report[k].uptimePercent == 100.0
  {
    CountsBounded(checks, report[k].url);
  }

  /** The sum of the entries' totals. */
  function SumTotals(report: seq<UptimeSummary>): nat
  {
    if report == [] then 0 else report[0].total + SumTotals(report[1..])
  }

  /** The sum of the row counts of the URLs in `us`. */
  function SumCounts(checks: seq<CheckRecord>, us: seq<string>): nat
  {
    if us == [] then 0 else Total(checks, us[0]) + SumCounts(checks, us[1..])
  }

  /** How often `v` occurs in `us`. */
  function Occurrences(us: seq<string>, v: string): nat
  {
    if us == [] then 0 else (if us[0] == v then 1 else 0) + Occurrences(us[1..], v)
  }

  lemma {:induction false} OccurrencesDistinct(us: seq<string>, v: string)
    requires Distinct(us)
    ensures Occurrences(us, v) == if v in us then 1 else 0
  {
    if us != [] {
      assert us == [us[0]] + us[1..];
      assert Distinct(us[1..]);
      OccurrencesDistinct(us[1..], v);
    }
  }

  lemma {:induction false} SumCountsAppend(s: seq<CheckRecord>, x: CheckRecord, us: seq<string>)
    ensures SumCounts(s + [x], us) == SumCounts(s, us) + Occurrences(us, x.url)
  {
    if us != [] {
      CountsAppend(s, x, us[0]);
      SumCountsAppend(s, x, us[1..]);
    }
  }

  /** Counting the rows URL by URL over a repetition-free list that covers every URL counts every row once. */
  lemma {:induction false} SumCountsIsLength(s: seq<CheckRecord>, us: seq<string>)
    requires Distinct(us) && forall c :: c in s ==> c.url in us
    ensures SumCounts(s, us) == |s|
  {
    if s == [] {
      SumCountsOfEmpty(us);
    } else {
      var init, x := s[..|s| - 1], s[|s| - 1];
      assert s == init + [x];
      SumCountsIsLength(init, us);
      SumCountsAppend(init, x, us);
      OccurrencesDistinct(us, x.url);
    }
  }

  lemma {:induction false} SumCountsOfEmpty(us: seq<string>)
    ensures SumCounts([], us) == 0
  {
    if us != [] {
      SumCountsOfEmpty(us[1..]);
    }
  }

  /** The URLs of a table, in table order. */
  function UrlsOf(report: seq<UptimeSummary>): (us: seq<string>)
    ensures |us| == |report| && forall i :: 0 <= i < |report| ==> us[i] == report[i].url
  {
    if report == [] then [] else [report[0].url] + UrlsOf(report[1..])
  }

  lemma {:induction false} SumTotalsByUrl(checks: seq<CheckRecord>, report: seq<UptimeSummary>)
    requires forall k :: 0 <= k < |report| ==> report[k].total == Total(checks, report[k].url)
    ensures SumTotals(report) == SumCounts(checks, UrlsOf(report))
  {
    if report != [] {
      SumTotalsByUrl(checks, report[1..]);
      assert UrlsOf(report)[1..] == UrlsOf(report[1..]);
    }
  }

  /** The totals of a correct table add up to the number of rows in the history. */
  lemma TotalsSumToLength(checks: seq<CheckRecord>, report: seq<UptimeSummary>)
    requires IsUptimeReport(checks, report)
    ensures SumTotals(report) == |checks|
  {
    var us := UrlsOf(report);
    SumTotalsByUrl(checks, report);
    forall c | c in checks
      ensures c.url in us
    {
      assert c.url in Urls(checks);
      var k :| 0 <= k < |report| && report[k].url == c.url;
      assert us[k] == c.url;
    }
    SumCountsIsLength(checks, us);
  }

  /**
   * Any two correct tables for the same history hold the same entries, so
   * recomputing the table from an unchanged history gives the same rows.
   */
  lemma ReportDeterminedUpToOrder(checks: seq<CheckRecord>, a: seq<UptimeSummary>, b: seq<UptimeSummary>)
    requires IsUptimeReport(checks, a) && IsUptimeReport(checks, b)
    ensures multiset(a) == multiset(b)
  {
    ReportDistinct(checks, a);
    ReportDistinct(checks, b);
    forall x
      ensures multiset(a)[x] == multiset(b)[x]
    {
      DistinctMultiplicity(a, x);
      DistinctMultiplicity(b, x);
      if x in a {
        SameEntry(checks, a, b, x);
      }
      if x in b {
        SameEntry(checks, b, a, x);
      }
    }
  }

  lemma ReportDistinct(checks: seq<CheckRecord>, report: seq<UptimeSummary>)
    requires OneEntryPerUrl(checks, report)
    ensures Distinct(report)
  {
  }

  lemma SameEntry(checks: seq<CheckRecord>, a: seq<UptimeSummary>, b: seq<UptimeSummary>, x: UptimeSummary)
    requires IsUptimeReport(checks, a) && IsUptimeReport(checks, b) && x in a
    ensures x in b
  {
    var i :| 0 <= i < |a| && a[i] == x;
    var k :| 0 <= k < |b| && b[k].url == x.url;
    assert b[k] == x;
  }

  /** The worked example's history: three rows for one URL, two of them up, and one down row for another. */
  function TwoUrlHistory(t1: int, t2: int, t3: int, t4: int): seq<CheckRecord>
  {
    [CheckRecord("https://a", 200, true, 1.0, Wrappers.None, t1),
     CheckRecord("https://b", 0, false, 1.0, Wrappers.Some("refused"), t2),
     CheckRecord("https://a", 500, false, 1.0, Wrappers.None, t3),
     CheckRecord("https://a", 301, true, 1.0, Wrappers.None, t4)]
  }

  /** The counts and percentages of the worked example. */
  lemma TwoUrlExample(t1: int, t2: int, t3: int, t4: int)
    ensures var a, b := "https://a", "https://b";
      var checks := TwoUrlHistory(t1, t2, t3, t4);
      && Total(checks, a) == 3 && UpCount(checks, a) == 2
      && UptimePercent(UpCount(checks, a), Total(checks, a)) * 3.0 == 200.0
      && Total(checks, b) == 1 && UpCount(checks, b) == 0
      && UptimePercent(UpCount(checks, b), Total(checks, b)) == 0.0
  {
    var a, b := "https://a", "https://b";
    var c0 := CheckRecord(a, 200, true, 1.0, Wrappers.None, t1);
    var c1 := CheckRecord(b, 0, false, 1.0, Wrappers.Some("refused"), t2);
    var c2 := CheckRecord(a, 500, false, 1.0, Wrappers.None, t3);
    var c3 := CheckRecord(a, 301, true, 1.0, Wrappers.None, t4);
    var checks := [c0, c1, c2, c3];
    assert a != b by {
      assert a[8] != b[8];
    }
    assert checks[..3] == [c0, c1, c2];
    assert [c0, c1, c2][..2] == [c0, c1];
    assert [c0, c1][..1] == [c0];
    assert [c0][..0] == [];
    assert Total([], a) == 0 && UpCount([], a) == 0;
    assert Total([c0], a) == 1 && UpCount([c0], a) == 1;
    assert Total([c0, c1], a) == 1 && UpCount([c0, c1], a) == 1;
    assert Total([c0, c1, c2], a) == 2 && UpCount([c0, c1, c2], a) == 1;
    assert Total([c0], b) == 0 && UpCount([c0], b) == 0;
    assert Total([c0, c1], b) == 1 && UpCount([c0, c1], b) == 0;
    assert Total([c0, c1, c2], b) == 1 && UpCount([c0, c1, c2], b) == 0;
  }

  /**
   * Any correct uptime table for the worked example has exactly two rows:
   * "https://a" with 3 checks, 2 up, 200/3 percent, last checked at the time
   * of its first row, and "https://b" with 1 check, none up, 0 percent.
   */
  lemma TwoUrlTable(t1: int, t2: int, t3: int, t4: int, report: seq<UptimeSummary>)
    requires IsUptimeReport(TwoUrlHistory(t1, t2, t3, t4), report)
    ensures |report| == 2
    ensures exists k :: 0 <= k < |report| && report[k] == UptimeSummary("https://a", 3, 2, 200.0 / 3.0, t1)
    ensures exists k :: 0 <= k < |report| && report[k] == UptimeSummary("https://b", 1, 0, 0.0, t2)
  {
    var a, b := "https://a", "https://b";
    var checks := TwoUrlHistory(t1, t2, t3, t4);
    TwoUrlExample(t1, t2, t3, t4);
    assert a != b by {
      assert a[8] != b[8];
    }
    assert checks[0].url == a && checks[1].url == b;
    assert a in Urls(checks) && b in Urls(checks);
    assert Urls(checks) == {a, b};
    ReportSize(checks, report);
    assert FirstIndex(checks, a) == 0;
    assert FirstIndex(checks, b) == 1;
    var ka :| 0 <= ka < |report| && report[ka].url == a;
    var kb :| 0 <= kb < |report| && report[kb].url == b;
    assert report[ka] == Expected(checks, a);
    assert report[kb] == Expected(checks, b);
    var pa := UptimePercent(2, 3);
    assert pa * 3.0 == 200.0;
    assert pa == 200.0 / 3.0;
  }
}
