/** Example runs of the poller on concrete answer streams, each derived from
    the general lemmas rather than by unrolling the loop. */
module Scenarios {
  import opened Optional
  import opened Poller
  import opened PollerSpec

  const InProgress: Response := StatusReport(Some("IN_PROGRESS"), None)

  /** Two IN_PROGRESS answers, then DONE with a document id: with three attempts
      and no delay, the id is returned after exactly three queries. */
  lemma ReadyOnThirdAttempt()
    ensures var answers := (i: nat) => if i < 2 then InProgress else StatusReport(Some(Done), Some("doc-1"));
      && Poll(answers, 3, 0)
         == Run(Ready("doc-1"), [Query(1), Sleep(0), Query(2), Sleep(0), Query(3)])
      && CountQueries(Poll(answers, 3, 0).trace) == 3
  {
    var answers := (i: nat) => if i < 2 then InProgress else StatusReport(Some(Done), Some("doc-1"));
    assert !HaltsAt(answers, 0, 0) && !HaltsAt(answers, 0, 1);
    DoneWithDocumentSucceeds(answers, 3, 0, 2, "doc-1");
    RoundsUnfold(1, 1, 0);
    RoundsUnfold(2, 0, 0);
  }

  /** DONE without a document id on the first answer fails without retrying. */
  lemma DoneWithoutIdFailsAtOnce(n: int, wait: int)
    requires n >= 1
    ensures var answers := (i: nat) => StatusReport(Some(Done), None);
      Poll(answers, n, wait) == Run(MissingDocument, [Query(1)])
  {
    var answers := (i: nat) => StatusReport(Some(Done), None);
    DoneWithoutDocumentStops(answers, n, wait, 0);
  }

  /** CANCELLED on the first answer fails after exactly one status query. */
  lemma CancelledFailsAtOnce(n: int, wait: int)
    requires n >= 1
    ensures var answers := (i: nat) => StatusReport(Some(Cancelled), Some("doc-1"));
      Poll(answers, n, wait) == Run(ReportFailed(Cancelled), [Query(1)])
  {
    var answers := (i: nat) => StatusReport(Some(Cancelled), Some("doc-1"));
    TerminalFailureStops(answers, n, wait, 0);
  }

  /** Every answer IN_PROGRESS, two attempts, no delay: a timeout after exactly two
      queries, each followed by a sleep. */
  lemma AlwaysInProgressTimesOut()
    ensures var answers := (i: nat) => InProgress;
      Poll(answers, 2, 0) == Run(TimedOut(2, 0), [Query(1), Sleep(0), Query(2), Sleep(0)])
  {
    var answers := (i: nat) => InProgress;
    PollTimesOut(answers, 2, 0);
    RoundsUnfold(1, 1, 0);
    RoundsUnfold(2, 0, 0);
  }

  /** With the default budget and an upstream that never finishes, the timeout
      reports 10 attempts and 300 seconds, which is exactly the time slept. */
  lemma DefaultBudgetTimesOut(status: Option<string>)
    requires status != Some(Done) && !IsTerminalFailure(status)
    ensures var answers := (i: nat) => StatusReport(status, None);
      var r := Poll(answers, DefaultMaxRetries, DefaultWaitSeconds);
      && r.outcome == TimedOut(10, 300)
      && CountQueries(r.trace) == 10
      && SleptSeconds(r.trace) == 300
  {
    var answers := (i: nat) => StatusReport(status, None);
    PollTimesOut(answers, DefaultMaxRetries, DefaultWaitSeconds);
  }
}
