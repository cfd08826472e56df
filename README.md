# API health checker — a Dafny model of the probe and uptime core

This project models the logic of the health checker's views (`monitor/views.py`):

- **Status classification.** `get_status_text` looks a code up in a fixed table, then falls back to range labels. `get_health_category` maps a code to UP, UP (Redirect) or DOWN. Both are total over all integers. The code `0` is the monitor's own sentinel for "no HTTP response".
- **Probe outcome.** The network's answer is either a response with a status code or a transport failure with a message. From it the model builds the result shown to the user and the `HealthCheck` row that is stored.
- **Store queries.** The store is a sequence of rows in insertion order. The model covers "last 10, newest first" and "every row for one URL, newest first". `order_by('-checked_at')` is a sort by descending timestamp.
- **Uptime aggregation.** The loop in the home view groups rows by exact URL. It counts rows and up rows, keeps the timestamp of the first row met, computes a percentage, and sorts by that timestamp, most recent first.

Files:
- `status.dfy` (module `Status`): the classifier.
- `probe.dfy` (module `Probe`): the probe outcome.
- `records.dfy` (module `Records`): the row and the store queries.
- `uptime.dfy` (module `Uptime`): the aggregation, as methods with loop invariants over a `map` and a growing `seq`, plus reference definitions and lemmas.
- `views.dfy` (module `Views`): the two views.
- `sorting.dfy` (module `Sorting`): the descending sort by key.
- `wrappers.dfy` (module `Wrappers`): `Option`.

Modelling choices:
- `uptime_percent` is a `real`, so `up/total*100` is exact.
- Timestamps are integers.
- Response times are `real` values passed through unchanged.
- A Python dictionary becomes a `map` plus the sequence of its keys in insertion order. That sequence is the order `stats_by_url.values()` iterates in.
- The `url` query parameter is an `Option<string>`. It counts as given only when present and non-empty, which is Python's truthiness test `if url:`.

Three points about what the code does:
- On a transport failure, `monitor/views.py:98` sets the category to the literal "DOWN"; it does not call `get_health_category(0)`. The model does the same, and `Probe.Classify` proves that the literal equals the category of code 0.
- The stored error message is `str(e)` (`monitor/views.py:100`), which may be empty. The model stores the message as given and does not claim it is non-empty.
- An uptime entry's `last_checked` is the timestamp of the first row met for its URL (`monitor/views.py:133-139`), not a maximum. `Uptime.LastCheckedIsNewest` and `Views.Home` prove it is the newest timestamp for that URL, because the rows are read newest first (`monitor/views.py:128`).

## Model

| member | source | states |
|---|---|---|
| `Status.StatusText` | monitor/views.py:7-36 | A table hit returns the table's label (200 "OK", 404 "Not Found", 0 "No HTTP response", ...). Otherwise the label is "Success", "Redirection", "Client Error" or "Server Error" exactly when the code is in [200,300), [300,400), [400,500) or [500,600). "Unknown Status" is returned exactly for codes other than 0 outside [200,600), negatives included. Every label is one of a fixed set. |
| `Status.HealthCategory` | monitor/views.py:39-50 | Total, three-way: UP iff 200 <= c < 300; UP (Redirect) iff 300 <= c < 400; DOWN for every other integer, 0 and all 4xx/5xx included. |
| `Status.IsUpIffSuccessOrRedirect` | monitor/views.py:72-74 | The test "category text starts with UP" holds exactly for codes in [200,400), which is exactly when the category is not DOWN. |
| `Status.CategoryFollowsLabel` | monitor/views.py:11-50 | The category is coarser than the label: it is a function of the label alone, for every code. |
| `Status.StatusTextExamples` | monitor/views.py:11-36 | The table takes precedence over the ranges: 200 is "OK", 302 is "Found (Redirect)", 404 is "Not Found", 0 is "No HTTP response". 250 is "Success"; 999 and -1 are "Unknown Status". 0 and 404 are DOWN. |
| `Probe.Classify` | monitor/views.py:64-110 | A response keeps its real code, 4xx/5xx included, with no error. It is up iff its code is in [200,400). A transport failure gets code 0, DOWN, label "No HTTP response", not up, and its message. In both branches the category is that of the recorded code, `is_up == (category != DOWN)`, and the elapsed time is passed through. |
| `Probe.ProbeRecordConsistent` | monitor/views.py:86-119 | `RecordOf` maps the probe result to the `HealthCheck.objects.create` fields of either branch. Every row a probe stores has `is_up == (category of its code != DOWN)`. It carries an error message exactly when the probe failed, and then its code is 0. |
| `Probe.ProbeScenarios` | monitor/views.py:68-119 | A 200 gives a result with code 200, up, label "OK", and a stored row with code 200, up, no error. A 404 gives a result and a row with code 404, down, no error. A failure gives a result and a row with code 0, down, its message, and the elapsed time. |
| `Records.NewestFirst` | monitor/views.py:128 | `order_by('-checked_at')`: a permutation of the store whose timestamps never increase. |
| `Records.RecentChecks` | monitor/views.py:122 | Exactly min(10, store size) rows of the store, newest first. No row left out is newer than any row shown. |
| `Records.Filter` | monitor/views.py:179 | `filter(url=...)`: each row occurs as often as in the store if its URL matches exactly, and not at all otherwise. |
| `Records.ChecksFor` | monitor/views.py:179 | The history query: exactly the store's rows with that URL, with their multiplicities, newest first. |
| `Sorting.SortDesc` | monitor/views.py:157 | The sort by descending key: the result is a permutation of the input whose keys never increase. |
| `Sorting.InsertDesc` | monitor/views.py:157 | Inserting into a descending sequence keeps it descending and adds exactly the new element. |
| `Uptime.FirstIndex` | monitor/views.py:133-139 | The first row met for a URL: it has that URL and no earlier row does. |
| `Uptime.UptimePercent` | monitor/views.py:146-148 | The division is guarded: 0 when total is 0. Otherwise the result is exact, `p * total == up * 100`. It lies in [0,100] when up <= total, and a single row gives 0 or 100. |
| `Uptime.CountsBounded` | monitor/views.py:140-142 | Up rows never outnumber rows. A URL has at least one row iff it occurs in the history. |
| `Uptime.FirstIndexAppend` | monitor/views.py:133-139 | Reading one more row keeps the first position of a URL already seen, and makes the new row the first for a new URL. |
| `Uptime.FirstCheckedAtAppend` | monitor/views.py:133-139 | Reading one more row keeps the stored first timestamp of a URL already seen, and sets it to the row's timestamp for a new URL. |
| `Uptime.GroupStep` | monitor/views.py:131-142 | One iteration of the grouping loop keeps every accumulator exact: total, up count and first timestamp per URL, and no other keys. |
| `Uptime.CountRow` | monitor/views.py:132-142 | The loop body's in-place updates: a new URL gets an accumulator at zero stamped with this row's time and joins the key order. Then total is incremented, and up too when the row is up. |
| `Uptime.OrderStep` | monitor/views.py:133-139 | Reading one more row keeps the dictionary's key order equal to the order of first rows, extended by the row's URL when it is new. |
| `Uptime.GroupedStep` | monitor/views.py:131-142 | One iteration keeps the whole loop invariant: exact accumulators, a key order without repeats covering the same keys, in first-row order. |
| `Uptime.GroupByUrl` | monitor/views.py:130-142 | The loop ends with one accumulator per distinct URL holding its row count, up count and first timestamp. The key order lists each URL once, in the order of each URL's first row (the dictionary's insertion order). |
| `Uptime.Summarize` | monitor/views.py:144-155 | One summary per accumulator, in dictionary order, carrying its counts, its percentage and its first timestamp. |
| `Uptime.Aggregate` | monitor/views.py:127-157 | The uptime table: one entry per distinct URL and no URL twice. Each entry's total, up count, percentage and last_checked equal the reference counts over the whole history. Entries are ordered by last_checked, non-increasing. |
| `Uptime.SummariesOneEntryPerUrl` | monitor/views.py:144-155 | The summaries of exact accumulators hold one expected entry per URL. |
| `Uptime.PermutationKeepsEntries` | monitor/views.py:157 | Sorting the summaries loses, duplicates and changes no entry. |
| `Uptime.LastCheckedIsNewest` | monitor/views.py:128-139 | On newest-first input, the first timestamp met for a URL is the largest recorded for it, and some row carries it. |
| `Uptime.ReportEntriesBounded` | monitor/views.py:140-148 | Every entry has total >= 1 and 0 <= up <= total. Its percentage lies in [0,100], and is 0 or 100 when total is 1. |
| `Uptime.ReportSize` | monitor/views.py:130-155 | A table has exactly as many entries as the history has distinct URLs, so empty input gives an empty table. |
| `Uptime.TotalsSumToLength` | monitor/views.py:130-142 | The entries' totals add up to the number of rows in the history. |
| `Uptime.ReportDeterminedUpToOrder` | monitor/views.py:127-157 | Any two correct tables for the same history are permutations of each other, so recomputing from an unchanged history gives the same entries. |
| `Uptime.TwoUrlExample` | monitor/views.py:130-148 | For three rows of one URL (up, down, up) and one down row of another: totals 3 and 1, up counts 2 and 0, percentages 200/3 and 0. |
| `Uptime.TwoUrlTable` | monitor/views.py:127-157 | Any correct uptime table for that history has exactly two entries: ("https://a", 3 checks, 2 up, 200/3 percent, last checked at its first row's time) and ("https://b", 1 check, 0 up, 0 percent, its one row's time). |
| `Views.Home` | monitor/views.py:61-157 | A given, non-empty URL yields the classified result and appends exactly one row stamped with the insertion time. Otherwise nothing is stored. Recent rows and the uptime table are computed from the updated store, and each entry's last_checked is the newest timestamp stored for its URL. |
| `Views.History` | monitor/views.py:171-185 | With no URL, or an empty one, the result is empty. Otherwise each stored row with exactly that URL occurs as often as in the store, no other row occurs, and the rows are newest first. |

## Left out

- The HTTP GET (`requests.get`, 5-second timeout): foreign I/O. Its answer is the `Outcome` parameter, a response code or a failure message. Which exceptions count as transport failures is not modelled.
- `time.perf_counter` and the millisecond arithmetic: they depend on the clock and use floating point. The elapsed time is a `real` parameter passed through to the result and the row.
- Django ORM persistence (`objects.create`, the database): the store is a `seq` of rows, and inserting a row is appending it. `checked_at` is the `now` parameter; the model does not assume timestamps increase, because the queries sort anyway.
- Tie order among rows with equal `checked_at` in `order_by`: the database does not fix it. The model resolves ties with one particular sort, and no property depends on that choice.
- `Views.Home`: treats one request as atomic on a single snapshot of the store. In the running view the insert (monitor/views.py:86, 113) and the two queries (monitor/views.py:122, evaluated lazily when the page renders at 159-168, and monitor/views.py:128) can interleave with other requests' inserts, so the shown tables may include rows that the model's `stored` does not. Concurrent requests are not modelled.
- `Uptime.Aggregate`: does not state the order among entries with equal `last_checked`. Python's stable sort keeps dictionary order for ties; the model's insertion sort is stable too, but stability is not proved.
- `list.sort` sorts in place. The model sorts the summary sequence into a new sequence; the list is local, so there is no aliasing to lose.
- `render`, the templates and the `favorite_apis` query: presentation only.
- `monitor/models.py`: used only as the shape of `CheckRecord`. Its nullable `status_code` and `response_time_ms` are always set by the views, so the model does not make them optional. `ApiEndpoint` and the `__str__` methods are not modelled.
- `monitor/admin.py` and `api_health_checker/urls.py`: admin registration and routing, with no logic.
