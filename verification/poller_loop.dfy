/** The polling loop written as the source writes it: a counted loop over
    attempts 1 .. maxRetries that returns or fails from inside its body. */
module PollerLoop {
  import opened Poller

  method PollLoop(answers: nat -> Response, maxRetries: int, wait: int)
    returns (outcome: Outcome, trace: seq<Event>)
    ensures Run(outcome, trace) == Poll(answers, maxRetries, wait)
    ensures CountQueries(trace) <= Max0(maxRetries)
  {
    trace := [];
    var attempt: nat := 1;
    while attempt <= maxRetries
      invariant attempt >= 1
      invariant var rest := PollFrom(answers, maxRetries, wait, attempt);
        Poll(answers, maxRetries, wait) == Run(rest.outcome, trace + rest.trace)
      decreases maxRetries - attempt
    {
      var verdict := Assess(answers(attempt - 1));
      match verdict {
        case Stop(o) =>
          outcome, trace := o, trace + [Query(attempt)];
          return;
        case KeepWaiting =>
          if !SleepAccepted(wait) {
            outcome, trace := SleepRejected(wait), trace + [Query(attempt)];
            return;
          }
          trace := trace + [Query(attempt), Sleep(wait)];
      }
      attempt := attempt + 1;
    }
    outcome := TimedOut(maxRetries, maxRetries * wait);
  }
}
