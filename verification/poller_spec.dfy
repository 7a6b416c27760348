/** An independent description of every poll, stated through the first attempt
    whose answer halts the loop, and the properties of the loop derived from it. */
module PollerSpec {
  import opened Optional
  import opened Poller

  /** The trace of `count` unsuccessful attempts starting at attempt `first`:
      each query is followed by exactly one sleep of `wait` seconds. */
  function Rounds(first: int, count: nat, wait: int): seq<Event> {
    seq(2 * count, p => if p % 2 == 0 then Query(first + p / 2) else Sleep(wait))
  }

  /** The answer to the (i+1)-th query ends the loop: it is terminal, or it is
      not and the sleep that would follow raises. */
  ghost predicate HaltsAt(answers: nat -> Response, wait: int, i: nat) {
    Assess(answers(i)).Stop? || !SleepAccepted(wait)
  }

  /** The outcome produced by a halting answer. */
  function HaltOutcome(r: Response, wait: int): Outcome {
    match Assess(r)
    case Stop(outcome) => outcome
    case KeepWaiting => SleepRejected(wait)
  }

  /** `k` is the first of the `n` permitted attempts (counted from 0) that halts. */
  ghost predicate IsFirstHalt(answers: nat -> Response, wait: int, n: int, k: nat) {
    && k < n
    && HaltsAt(answers, wait, k)
    && forall i: nat :: i < k ==> !HaltsAt(answers, wait, i)
  }

  /** The reference run: halt at the first halting attempt, or time out after
      `n` rounds of query-then-sleep. */
  ghost function Reference(answers: nat -> Response, n: int, wait: int): Run {
    if exists k: nat :: IsFirstHalt(answers, wait, n, k) then
      var k: nat :| IsFirstHalt(answers, wait, n, k);
      Run(HaltOutcome(answers(k), wait), Rounds(1, k, wait) + [Query(k + 1)])
    else
      Run(TimedOut(n, n * wait), Rounds(1, Max0(n), wait))
  }

  lemma RoundsUnfold(first: int, count: nat, wait: int)
    ensures Rounds(first, count + 1, wait) == [Query(first), Sleep(wait)] + Rounds(first + 1, count, wait)
  {
    var a := Rounds(first, count + 1, wait);
    var b := [Query(first), Sleep(wait)] + Rounds(first + 1, count, wait);
    assert |a| == |b|;
    forall p | 0 <= p < |a|
      ensures a[p] == b[p]
    {
      if p >= 2 {
        assert (p - 2) % 2 == p % 2;
        assert (p - 2) / 2 == p / 2 - 1;
      }
    }
  }

  lemma {:induction false} TallyAppend(a: seq<Event>, b: seq<Event>)
    ensures CountQueries(a + b) == CountQueries(a) + CountQueries(b)
    ensures CountSleeps(a + b) == CountSleeps(a) + CountSleeps(b)
    ensures SleptSeconds(a + b) == SleptSeconds(a) + SleptSeconds(b)
  {
    if a != [] {
      assert (a + b)[1..] == a[1..] + b;
      TallyAppend(a[1..], b);
    } else {
      assert a + b == b;
    }
  }

  /** `count` rounds hold `count` queries and `count` sleeps, `count * wait` seconds in all. */
  lemma {:induction false} RoundsTally(first: int, count: nat, wait: int)
    ensures CountQueries(Rounds(first, count, wait)) == count
    ensures CountSleeps(Rounds(first, count, wait)) == count
    ensures SleptSeconds(Rounds(first, count, wait)) == count * wait
    decreases count
  {
    if count > 0 {
      RoundsUnfold(first, count - 1, wait);
      RoundsTally(first + 1, count - 1, wait);
      var head := [Query(first), Sleep(wait)];
      TallyAppend(head, Rounds(first + 1, count - 1, wait));
      assert head[1..][1..] == [];
    }
  }

  /** No attempt from `attempt` to `n` halts: the loop times out after every one of them. */
  lemma {:induction false} PollFromTimesOut(answers: nat -> Response, n: int, wait: int, attempt: nat)
    requires attempt >= 1
    requires forall i: nat :: attempt - 1 <= i < n ==> !HaltsAt(answers, wait, i)
    ensures PollFrom(answers, n, wait, attempt)
         == Run(TimedOut(n, n * wait), Rounds(attempt, Remaining(n, attempt), wait))
    decreases Remaining(n, attempt)
  {
    if attempt <= n {
      assert !HaltsAt(answers, wait, attempt - 1);
      PollFromTimesOut(answers, n, wait, attempt + 1);
      RoundsUnfold(attempt, Remaining(n, attempt + 1), wait);
    }
  }

  /** The attempt with index `k` is the first halting one from `attempt` on:
      the loop stops right after querying it. */
  lemma {:induction false} PollFromHaltsAt(answers: nat -> Response, n: int, wait: int, attempt: nat, k: nat)
    requires attempt >= 1 && attempt - 1 <= k < n
    requires HaltsAt(answers, wait, k)
    requires forall i: nat :: attempt - 1 <= i < k ==> !HaltsAt(answers, wait, i)
    ensures PollFrom(answers, n, wait, attempt)
         == Run(HaltOutcome(answers(k), wait), Rounds(attempt, k - (attempt - 1), wait) + [Query(k + 1)])
    decreases k - (attempt - 1)
  {
    if attempt - 1 < k {
      assert !HaltsAt(answers, wait, attempt - 1);
      PollFromHaltsAt(answers, n, wait, attempt + 1, k);
      RoundsUnfold(attempt, k - attempt, wait);
    }
  }

  /** Whenever some attempt halts, a first halting attempt exists. */
  lemma {:induction false} FirstHaltExists(answers: nat -> Response, wait: int, n: int, k: nat)
    requires k < n && HaltsAt(answers, wait, k)
    ensures exists j: nat :: IsFirstHalt(answers, wait, n, j)
    decreases k
  {
    if exists i: nat :: i < k && HaltsAt(answers, wait, i) {
      var i: nat :| i < k && HaltsAt(answers, wait, i);
      FirstHaltExists(answers, wait, n, i);
    } else {
      assert IsFirstHalt(answers, wait, n, k);
    }
  }

  lemma FirstHaltUnique(answers: nat -> Response, wait: int, n: int, j: nat, k: nat)
    requires IsFirstHalt(answers, wait, n, j) && IsFirstHalt(answers, wait, n, k)
    ensures j == k
  {
  }

  /** The loop agrees with the reference description on every input. */
  lemma PollMatchesReference(answers: nat -> Response, n: int, wait: int)
    ensures Poll(answers, n, wait) == Reference(answers, n, wait)
  {
    if exists k: nat :: IsFirstHalt(answers, wait, n, k) {
      var k: nat :| IsFirstHalt(answers, wait, n, k);
      PollFromHaltsAt(answers, n, wait, 1, k);
      forall j: nat | IsFirstHalt(answers, wait, n, j)
        ensures j == k
      {
        FirstHaltUnique(answers, wait, n, j, k);
      }
    } else {
      forall i: nat | i < n
        ensures !HaltsAt(answers, wait, i)
      {
        if HaltsAt(answers, wait, i) {
          FirstHaltExists(answers, wait, n, i);
        }
      }
      PollFromTimesOut(answers, n, wait, 1);
    }
  }

  /** The loop halts at attempt index `k` exactly when `k` is the first halting attempt. */
  lemma PollHaltsAt(answers: nat -> Response, n: int, wait: int, k: nat)
    requires IsFirstHalt(answers, wait, n, k)
    ensures Poll(answers, n, wait)
         == Run(HaltOutcome(answers(k), wait), Rounds(1, k, wait) + [Query(k + 1)])
  {
    PollFromHaltsAt(answers, n, wait, 1, k);
  }

  /** If none of the `n` answers is terminal, the loop times out after exactly
      `n` queries and `n` sleeps (the last attempt is followed by a sleep too),
      and the reported total is the time actually slept. */
  lemma PollTimesOut(answers: nat -> Response, n: int, wait: int)
    requires forall i: nat :: i < n ==> !HaltsAt(answers, wait, i)
    ensures Poll(answers, n, wait).outcome == TimedOut(n, n * wait)
    ensures Poll(answers, n, wait).trace == Rounds(1, Max0(n), wait)
    ensures CountQueries(Poll(answers, n, wait).trace) == Max0(n)
    ensures CountSleeps(Poll(answers, n, wait).trace) == Max0(n)
    ensures n >= 0 ==> SleptSeconds(Poll(answers, n, wait).trace) == n * wait
  {
    PollFromTimesOut(answers, n, wait, 1);
    RoundsTally(1, Max0(n), wait);
  }

  /** Every trace alternates query and sleep, numbering the attempts 1, 2, 3, ...:
      after a non-terminal answer comes exactly one sleep of `wait` seconds and then
      the next attempt; a terminal answer is the last event. */
  lemma PollTraceShape(answers: nat -> Response, n: int, wait: int)
    ensures var t := Poll(answers, n, wait).trace;
      forall p :: 0 <= p < |t| ==> t[p] == (if p % 2 == 0 then Query(p / 2 + 1) else Sleep(wait))
    ensures var r := Poll(answers, n, wait);
      !r.outcome.TimedOut? <==> r.trace != [] && Last(r.trace).Query?
    ensures var r := Poll(answers, n, wait);
      r.trace != [] && Last(r.trace).Query? ==> HaltsAt(answers, wait, Last(r.trace).attempt - 1)
  {
    PollMatchesReference(answers, n, wait);
    if exists k: nat :: IsFirstHalt(answers, wait, n, k) {
      var k: nat :| IsFirstHalt(answers, wait, n, k);
      PollHaltsAt(answers, n, wait, k);
      assert Poll(answers, n, wait).outcome == HaltOutcome(answers(k), wait);
    } else {
      forall i: nat | i < n
        ensures !HaltsAt(answers, wait, i)
      {
        if HaltsAt(answers, wait, i) {
          FirstHaltExists(answers, wait, n, i);
        }
      }
      PollTimesOut(answers, n, wait);
    }
  }

  /** A DONE answer without a (truthy) document id stops the loop at once with
      `MissingDocument`: no sleep after it and no further query. */
  lemma DoneWithoutDocumentStops(answers: nat -> Response, n: int, wait: int, k: nat)
    requires k < n
    requires answers(k).StatusReport? && answers(k).processingStatus == Some(Done)
    requires !Truthy(answers(k).reportDocumentId)
    requires forall i: nat :: i < k ==> !HaltsAt(answers, wait, i)
    ensures Poll(answers, n, wait) == Run(MissingDocument, Rounds(1, k, wait) + [Query(k + 1)])
  {
    PollHaltsAt(answers, n, wait, k);
  }

  /** CANCELLED or FATAL stops the loop at once with a failure carrying that status. */
  lemma TerminalFailureStops(answers: nat -> Response, n: int, wait: int, k: nat)
    requires k < n
    requires answers(k).StatusReport? && IsTerminalFailure(answers(k).processingStatus)
    requires forall i: nat :: i < k ==> !HaltsAt(answers, wait, i)
    ensures Poll(answers, n, wait)
         == Run(ReportFailed(answers(k).processingStatus.value), Rounds(1, k, wait) + [Query(k + 1)])
  {
    PollHaltsAt(answers, n, wait, k);
  }

  /** An HTTP error on a status query aborts the loop at once and is never retried. */
  lemma HttpErrorNotRetried(answers: nat -> Response, n: int, wait: int, k: nat)
    requires k < n
    requires answers(k).HttpError?
    requires forall i: nat :: i < k ==> !HaltsAt(answers, wait, i)
    ensures Poll(answers, n, wait) == Run(QueryFailed(answers(k).code), Rounds(1, k, wait) + [Query(k + 1)])
  {
    PollHaltsAt(answers, n, wait, k);
  }

  /** DONE with a non-empty document id is returned as the result. */
  lemma DoneWithDocumentSucceeds(answers: nat -> Response, n: int, wait: int, k: nat, doc: string)
    requires k < n
    requires answers(k) == StatusReport(Some(Done), Some(doc)) && doc != ""
    requires forall i: nat :: i < k ==> !HaltsAt(answers, wait, i)
    ensures Poll(answers, n, wait) == Run(Ready(doc), Rounds(1, k, wait) + [Query(k + 1)])
  {
    PollHaltsAt(answers, n, wait, k);
  }

  /** When `time.sleep` would refuse `wait` (negative, or beyond its range), the
      run ends after its first query: a non-terminal first answer fails with the
      rejected sleep and no sleep is recorded. */
  lemma RejectedSleepStops(answers: nat -> Response, n: int, wait: int)
    requires n >= 1 && !SleepAccepted(wait)
    ensures Poll(answers, n, wait).trace == [Query(1)]
    ensures Assess(answers(0)).KeepWaiting? ==> Poll(answers, n, wait).outcome == SleepRejected(wait)
    ensures Assess(answers(0)).Stop? ==> Poll(answers, n, wait).outcome == Assess(answers(0)).outcome
  {
    assert IsFirstHalt(answers, wait, n, 0);
    PollHaltsAt(answers, n, wait, 0);
  }

  /** A run that does not time out stopped at the first halting attempt. */
  lemma StoppedRunHasFirstHalt(answers: nat -> Response, n: int, wait: int) returns (k: nat)
    requires !Poll(answers, n, wait).outcome.TimedOut?
    ensures IsFirstHalt(answers, wait, n, k)
  {
    if !exists j: nat :: IsFirstHalt(answers, wait, n, j) {
      forall i: nat | i < n
        ensures !HaltsAt(answers, wait, i)
      {
        if HaltsAt(answers, wait, i) {
          FirstHaltExists(answers, wait, n, i);
        }
      }
      PollTimesOut(answers, n, wait);
      assert false;
    }
    k :| IsFirstHalt(answers, wait, n, k);
  }

  /** Success happens only through a DONE answer with a non-empty document id,
      preceded only by non-terminal answers, each followed by one sleep. */
  lemma ReadyOnlyAfterDone(answers: nat -> Response, n: int, wait: int)
    requires Poll(answers, n, wait).outcome.Ready?
    ensures var r := Poll(answers, n, wait);
      var k := CountQueries(r.trace) - 1;
      && 0 <= k < n
      && answers(k) == StatusReport(Some(Done), Some(r.outcome.documentId))
      && r.outcome.documentId != ""
      && forall i: nat :: i < k ==> Assess(answers(i)).KeepWaiting?
  {
    var r := Poll(answers, n, wait);
    var k := StoppedRunHasFirstHalt(answers, n, wait);
    PollHaltsAt(answers, n, wait, k);
    RoundsTally(1, k, wait);
    TallyAppend(Rounds(1, k, wait), [Query(k + 1)]);
    assert CountQueries(r.trace) == k + 1;
    assert Assess(answers(k)) == Stop(r.outcome);
    forall i: nat | i < k
      ensures Assess(answers(i)).KeepWaiting?
    {
      assert !HaltsAt(answers, wait, i);
    }
  }
}
