/**
 * The two views: the home page, which optionally probes a URL, stores the
 * outcome and shows the recent checks with the uptime table, and the history
 * page for one URL. The request's query string arrives as an optional URL;
 * the network's answer and the clock readings arrive as parameters.
 */
module Views {
  import opened Wrappers
  import opened Sorting
  import opened Records
  import opened Probe
  import opened Uptime

  /** Python truthiness of the `url` query parameter: present and non-empty. */
  predicate Given(url: Option<string>)
  {
    url.Some? && url.value != ""
  }

  /**
   * The home view. When a URL is given, the probe's outcome becomes the shown
   * result and one new row stamped `now`; then the view reads the recent rows
   * and the uptime table of the whole store, whose last-checked times are the
   * newest ones recorded for each URL.
   */
  method Home(store: seq<CheckRecord>, url: Option<string>, outcome: Outcome, elapsedMs: real, now: int)
    returns (result: Option<ProbeResult>, stored: seq<CheckRecord>,
             recent: seq<CheckRecord>, uptime: seq<UptimeSummary>)
    ensures Given(url) ==> result == Some(Classify(url.value, outcome, elapsedMs))
    ensures Given(url) ==> stored == store + [RecordOf(result.value, now)]
    ensures !Given(url) ==> result == None && stored == store
    ensures recent == RecentChecks(stored)
    ensures IsUptimeReport(NewestFirst(stored), uptime)
    ensures forall k, c :: 0 <= k < |uptime| && c in stored && c.url == uptime[k].url ==>
      c.checkedAt <= uptime[k].lastChecked
  {
    result, stored := None, store;
    if Given(url) {
      var r := Classify(url.value, outcome, elapsedMs);
      result := Some(r);
      stored := store + [RecordOf(r, now)];
    }
    recent := RecentChecks(stored);
    uptime := Aggregate(NewestFirst(stored));
    ReportShowsNewest(stored, uptime);
  }

  /** The history view: every stored row for the given URL, newest first; nothing when no URL is given. */
  function History(store: seq<CheckRecord>, url: Option<string>): (r: seq<CheckRecord>)
    ensures !Given(url) ==> r == []
    ensures Given(url) ==> forall i :: 0 <= i < |r| ==> r[i].url == url.value
    ensures Given(url) ==> forall c :: multiset(r)[c] == if c.url == url.value then multiset(store)[c] else 0
    ensures SortedDesc(r, CheckedAt)
  {
    if Given(url) then ChecksFor(store, url.value) else []
  }
}
