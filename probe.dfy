/**
 * The non-I/O part of a probe: turning what the HTTP client reported into the
 * result shown to the user and the row that is stored. The network call and
 * the clock are outside the model; their results arrive as parameters.
 */
module Probe {
  import opened Wrappers
  import opened Status
  import opened Records

  /** What the HTTP GET produced: a response with its status code, or a transport failure with its message. */
  datatype Outcome = Response(code: int) | Failure(message: string)

  /** The result shown to the user after a probe. */
  datatype ProbeResult = ProbeResult(
    url: string,
    statusCode: int,
    isUp: bool,
    category: Category,
    statusText: string,
    error: Option<string>,
    responseTimeMs: real)

  /**
   * Classifies one probe. A received response keeps its real status code,
   * 4xx and 5xx included, and is up exactly for 2xx and 3xx; a transport
   * failure is recorded under the sentinel code 0, down, with its message.
   * In both branches the up flag agrees with the category of the recorded code.
   */
  function Classify(url: string, outcome: Outcome, elapsedMs: real): (r: ProbeResult)
    ensures r.url == url && r.responseTimeMs == elapsedMs
    ensures r.category == HealthCategory(r.statusCode)
    ensures r.isUp == (r.category != Down)
    ensures r.statusText == StatusText(r.statusCode)
    ensures r.isUp <==> outcome.Response? && 200 <= outcome.code < 400
    ensures outcome.Response? ==> r.statusCode == outcome.code && r.error == None
    ensures outcome.Failure? ==> r.statusCode == NoResponse && r.error == Some(outcome.message)
    ensures outcome.Failure? ==> r.statusText == "No HTTP response" && r.category == Down
  {
    match outcome
    case Response(code) =>
      var category := HealthCategory(code);
      IsUpIffSuccessOrRedirect(code);
      ProbeResult(url, code, IsUpText(category), category, StatusText(code), None, elapsedMs)
    case Failure(message) =>
      ProbeResult(url, NoResponse, false, Down, StatusText(NoResponse), Some(message), elapsedMs)
  }

  /** A stored row whose up flag and error field agree with its status code. */
  predicate Consistent(c: CheckRecord)
  {
    && c.isUp == (HealthCategory(c.statusCode) != Down)
    && (c.errorMessage.Some? ==> c.statusCode == NoResponse)
  }

  /**
   * The row stored for a probe result, stamped with the time of insertion;
   * the error message is stored only for a failure.
   */
  function RecordOf(r: ProbeResult, checkedAt: int): CheckRecord
  {
    CheckRecord(r.url, r.statusCode, r.isUp, r.responseTimeMs, r.error, checkedAt)
  }

  /** Every row a probe stores is consistent, and its error message is present exactly for a failure. */
  lemma ProbeRecordConsistent(url: string, outcome: Outcome, elapsedMs: real, checkedAt: int)
    ensures Consistent(RecordOf(Classify(url, outcome, elapsedMs), checkedAt))
    ensures RecordOf(Classify(url, outcome, elapsedMs), checkedAt).errorMessage.Some? <==> outcome.Failure?
  {
  }

  /**
   * The scenarios: a 200 is shown and stored as code 200, up, with label "OK";
   * a 404 is shown and stored with its code, down, without error; an
   * unreachable host is shown and stored as code 0, down, with its message.
   */
  lemma ProbeScenarios(url: string, message: string, elapsedMs: real, t: int)
    ensures Classify(url, Response(200), elapsedMs).statusCode == 200
    ensures Classify(url, Response(200), elapsedMs).isUp
    ensures Classify(url, Response(200), elapsedMs).statusText == "OK"
    ensures Classify(url, Response(404), elapsedMs).statusCode == 404
    ensures !Classify(url, Response(404), elapsedMs).isUp
    ensures Classify(url, Response(404), elapsedMs).error == None
    ensures Classify(url, Failure(message), elapsedMs).statusCode == 0
    ensures !Classify(url, Failure(message), elapsedMs).isUp
    ensures Classify(url, Failure(message), elapsedMs).error == Some(message)
    ensures var c := RecordOf(Classify(url, Response(200), elapsedMs), t);
      c.statusCode == 200 && c.isUp && c.errorMessage == None && c.url == url && c.checkedAt == t
    ensures var c := RecordOf(Classify(url, Response(404), elapsedMs), t);
      c.statusCode == 404 && !c.isUp && c.errorMessage == None
    ensures var c := RecordOf(Classify(url, Failure(message), elapsedMs), t);
      c.statusCode == 0 && !c.isUp && c.errorMessage == Some(message) && c.responseTimeMs == elapsedMs
  {
  }
}
