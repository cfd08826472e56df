/**
 * Classification of an HTTP status code: a human-readable label and a
 * three-way health category. Both are total over all integers; the code 0 is
 * the monitor's own sentinel for "no HTTP response was received".
 */
module Status {

  /** The sentinel status code recorded when a probe got no HTTP response. */
  const NoResponse: int := 0

  /** The health category; `Text` is the string the monitor shows and tests. */
  datatype Category = Up | UpRedirect | Down
  {
    function Text(): string
    {
      match this
      case Up => "UP"
      case UpRedirect => "UP (Redirect)"
      case Down => "DOWN"
    }
  }

  /** The fixed table of well-known codes, consulted before the range fallback. */
  const Names: map<int, string> := map[
    200 := "OK",
    201 := "Created",
    204 := "No Content",
    301 := "Moved Permanently",
    302 := "Found (Redirect)",
    400 := "Bad Request",
    401 := "Unauthorized",
    403 := "Forbidden",
    404 := "Not Found",
    500 := "Internal Server Error",
    502 := "Bad Gateway",
    503 := "Service Unavailable",
    NoResponse := "No HTTP response"
  ]

  /** Every label the classifier can produce. */
  const Labels: set<string> := Names.Values +
    {"Success", "Redirection", "Client Error", "Server Error", "Unknown Status"}

  /**
   * The label for a status code: the table entry when there is one, otherwise
   * the label of the half-open range the code lies in.
   */
  function StatusText(code: int): (r: string)
    ensures r in Labels
    ensures code in Names ==> r == Names[code]
    ensures code !in Names ==> (r == "Success" <==> 200 <= code < 300)
    ensures code !in Names ==> (r == "Redirection" <==> 300 <= code < 400)
    ensures code !in Names ==> (r == "Client Error" <==> 400 <= code < 500)
    ensures code !in Names ==> (r == "Server Error" <==> 500 <= code < 600)
    ensures r == "Unknown Status" <==> code != NoResponse && !(200 <= code < 600)
  {
    if code in Names then Names[code]
    else if 200 <= code < 300 then "Success"
    else if 300 <= code < 400 then "Redirection"
    else if 400 <= code < 500 then "Client Error"
    else if 500 <= code < 600 then "Server Error"
    else "Unknown Status"
  }

  /** The health category: 2xx is up, 3xx is up through a redirect, everything else is down. */
  function HealthCategory(code: int): (r: Category)
    ensures r == Up <==> 200 <= code < 300
    ensures r == UpRedirect <==> 300 <= code < 400
    ensures r == Down <==> !(200 <= code < 400)
  {
    if 200 <= code < 300 then Up
    else if 300 <= code < 400 then UpRedirect
    else Down
  }

  /** The monitor's test for "up": the category's text starts with "UP". */
  predicate IsUpText(category: Category)
  {
    "UP" <= category.Text()
  }

  /** The prefix test on the category's text accepts exactly the codes in [200, 400). */
  lemma IsUpIffSuccessOrRedirect(code: int)
    ensures IsUpText(HealthCategory(code)) <==> 200 <= code < 400
    ensures IsUpText(HealthCategory(code)) <==> HealthCategory(code) != Down
  {
    assert "UP" <= "UP (Redirect)";
    assert "DOWN"[0] != "UP"[0];
  }

  /** The category a label stands for; defined on labels alone. */
  function CategoryOfLabel(name: string): Category
  {
    if name in {"OK", "Created", "No Content", "Success"} then Up
    else if name in {"Moved Permanently", "Found (Redirect)", "Redirection"} then UpRedirect
    else Down
  }

  /**
   * The category is coarser than the label: the label of a code alone
   * determines its category.
   */
  lemma CategoryFollowsLabel(code: int)
    ensures HealthCategory(code) == CategoryOfLabel(StatusText(code))
  {
  }

  /** Spot values of the two-tier lookup: the table takes precedence over the ranges. */
  lemma StatusTextExamples()
    ensures StatusText(200) == "OK" && StatusText(404) == "Not Found"
    ensures StatusText(NoResponse) == "No HTTP response"
    ensures StatusText(250) == "Success" && StatusText(999) == "Unknown Status"
    ensures StatusText(-1) == "Unknown Status" && StatusText(302) == "Found (Redirect)"
    ensures HealthCategory(NoResponse) == Down && HealthCategory(404) == Down
  {
  }
}
