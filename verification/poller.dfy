/** The report-status polling loop of `ReportExtractor.get_report_document`.

    The upstream status endpoint is modelled as a total function `answers`:
    `answers(i)` is what the (i+1)-th status query returns. Sleeping is not
    performed; it is recorded as a `Sleep` event in the trace, next to one
    `Query` event per status request. */
module Poller {
  import opened Optional

  const DefaultMaxRetries: int := 10
  const DefaultWaitSeconds: int := 30

  /** The largest whole number of seconds `time.sleep` accepts: CPython converts
      the duration to a signed 64-bit count of nanoseconds and raises
      OverflowError beyond it, and raises ValueError for a negative duration. */
  const MaxSleepSeconds: int := 9_223_372_036

  const Done: string := "DONE"
  const Cancelled: string := "CANCELLED"
  const Fatal: string := "FATAL"

  /** One answer of the report-status endpoint: either a decoded body with the
      (possibly absent) `processingStatus` and `reportDocumentId` fields, or an
      HTTP error raised by `raise_for_status`. */
  datatype Response =
    | StatusReport(processingStatus: Option<string>, reportDocumentId: Option<string>)
    | HttpError(code: int)

  /** How one poll ends: the sole success exit and the five ways to fail. */
  datatype Outcome =
    | Ready(documentId: string)
    | MissingDocument
    | ReportFailed(status: string)
    | TimedOut(attempts: int, totalSeconds: int)
    | QueryFailed(code: int)
    | SleepRejected(seconds: int)

  /** The externally visible steps of a poll, in order. */
  datatype Event = Query(attempt: int) | Sleep(seconds: int)

  datatype Run = Run(outcome: Outcome, trace: seq<Event>)

  /** What one answer means for the loop: stop with an outcome, or wait. */
  datatype Verdict = Stop(outcome: Outcome) | KeepWaiting

  /** `time.sleep(wait)` returns rather than raising. */
  predicate SleepAccepted(wait: int) {
    0 <= wait <= MaxSleepSeconds
  }

  predicate IsTerminalFailure(status: Option<string>) {
    status == Some(Cancelled) || status == Some(Fatal)
  }

  /** The per-answer decision of the loop body. */
  function Assess(r: Response): (v: Verdict)
    ensures v.Stop? && v.outcome.Ready?
        <==> r.StatusReport? && r.processingStatus == Some(Done) && Truthy(r.reportDocumentId)
    ensures v.Stop? && v.outcome.Ready? ==> r.reportDocumentId == Some(v.outcome.documentId)
    ensures v == Stop(MissingDocument)
        <==> r.StatusReport? && r.processingStatus == Some(Done) && !Truthy(r.reportDocumentId)
    ensures v.Stop? && v.outcome.ReportFailed?
        <==> r.StatusReport? && IsTerminalFailure(r.processingStatus)
    ensures v.Stop? && v.outcome.ReportFailed? ==> r.processingStatus == Some(v.outcome.status)
    ensures v.KeepWaiting?
        <==> r.StatusReport? && r.processingStatus != Some(Done) && !IsTerminalFailure(r.processingStatus)
    ensures r.HttpError? ==> v == Stop(QueryFailed(r.code))
    ensures v.Stop? ==> !v.outcome.TimedOut? && !v.outcome.SleepRejected?
  {
    match r
    case HttpError(code) => Stop(QueryFailed(code))
    case StatusReport(status, docId) =>
      if status == Some(Done) then
        if Truthy(docId) then Stop(Ready(docId.value)) else Stop(MissingDocument)
      else if IsTerminalFailure(status) then
        Stop(ReportFailed(status.value))
      else
        KeepWaiting
  }

  /** Attempts `attempt .. maxRetries` of `range(1, max_retries + 1)`. */
  function Remaining(maxRetries: int, attempt: int): nat {
    if maxRetries >= attempt then maxRetries - attempt + 1 else 0
  }

  function Max0(n: int): nat {
    if n > 0 then n else 0
  }

  function CountQueries(t: seq<Event>): nat {
    if t == [] then 0 else (if t[0].Query? then 1 else 0) + CountQueries(t[1..])
  }

  function CountSleeps(t: seq<Event>): nat {
    if t == [] then 0 else (if t[0].Sleep? then 1 else 0) + CountSleeps(t[1..])
  }

  /** Total number of seconds slept along a trace. */
  function SleptSeconds(t: seq<Event>): int {
    if t == [] then 0 else (if t[0].Sleep? then t[0].seconds else 0) + SleptSeconds(t[1..])
  }

  function Last(t: seq<Event>): Event
    requires t != []
  {
    t[|t| - 1]
  }

  /** The trace ends with a query whose answer was DONE with `doc` as its non-empty document id. */
  ghost predicate EndsWithReadyAnswer(answers: nat -> Response, t: seq<Event>, doc: string) {
    && t != []
    && Last(t).Query?
    && Last(t).attempt >= 1
    && answers(Last(t).attempt - 1) == StatusReport(Some(Done), Some(doc))
    && doc != ""
  }

  /** The loop from attempt number `attempt` on. */
  function PollFrom(answers: nat -> Response, maxRetries: int, wait: int, attempt: nat): (r: Run)
    requires attempt >= 1
    ensures CountQueries(r.trace) <= Remaining(maxRetries, attempt)
    ensures r.outcome.TimedOut? ==> r.outcome == TimedOut(maxRetries, maxRetries * wait)
    ensures r.outcome.Ready? ==> EndsWithReadyAnswer(answers, r.trace, r.outcome.documentId)
    ensures r.trace != [] ==> r.trace[0] == Query(attempt)
    decreases Remaining(maxRetries, attempt)
  {
    if attempt > maxRetries then
      Run(TimedOut(maxRetries, maxRetries * wait), [])
    else
      match Assess(answers(attempt - 1))
      case Stop(outcome) => Run(outcome, [Query(attempt)])
      case KeepWaiting =>
        if !SleepAccepted(wait) then
          Run(SleepRejected(wait), [Query(attempt)])
        else
          var rest := PollFrom(answers, maxRetries, wait, attempt + 1);
          var t := [Query(attempt), Sleep(wait)] + rest.trace;
          assert t[1..][1..] == rest.trace;
          Run(rest.outcome, t)
  }

  /** `get_report_document(access_token, report_id, maxRetries, wait)`. */
  function Poll(answers: nat -> Response, maxRetries: int, wait: int): (r: Run)
    ensures CountQueries(r.trace) <= Max0(maxRetries)
    ensures maxRetries <= 0 ==> r == Run(TimedOut(maxRetries, maxRetries * wait), [])
    ensures r.outcome.Ready? ==> EndsWithReadyAnswer(answers, r.trace, r.outcome.documentId)
  {
    PollFrom(answers, maxRetries, wait, 1)
  }
}
