/**
 The client's retry loop: one grant from the limiter, then up to four requests.

 The network is a parameter: a Reply says how one attempt ended, when it was recorded, which critical
 sections of the limiter other callers ran meanwhile, and whether the back-off sleep after it was cut short.
 */
module InfoClient {
  import opened Sequences
  import opened LimiterHistory
  import opened Limiter
  import opened WeightedLimiter

  datatype Failure = None | Deadline | Other

  datatype Outcome = Outcome(status: int, failure: Failure)

  datatype Reply = Reply(others: seq<Event>, at: real, outcome: Outcome, interrupted: bool)

  datatype InfoResult =
    | Ok
    | Refused(wait: WaitResult)   // the limiter did not grant the call
    | Failed(last: Outcome)
    | Interrupted                 // the context ended during a back-off sleep

  const MAX_ATTEMPTS := 4

  predicate Retryable(o: Outcome) {
    o.failure != None && (o.status == 429 || o.status >= 500 || o.failure == Deadline)
  }

  /** What every call keeps: at most four attempts, and only a retryable failure is followed by another attempt. */
  predicate AttemptLaw(outcomes: seq<Outcome>) {
    |outcomes| <= MAX_ATTEMPTS && forall k | 0 <= k < |outcomes| - 1 :: Retryable(outcomes[k])
  }

  /** How the retry loop ends when it has come to the given attempt, and how many attempts it has made by then. */
  function Settled(respond: nat -> Reply, attempt: nat): (InfoResult, nat)
    requires attempt < MAX_ATTEMPTS
    decreases MAX_ATTEMPTS - attempt
  {
    var outcome, made := respond(attempt).outcome, attempt + 1;
    if outcome.failure == None then (Ok, made)
    else if !Retryable(outcome) then (Failed(outcome), made)
    else if respond(attempt).interrupted then (Interrupted, made)
    else if made == MAX_ATTEMPTS then (Failed(outcome), made)
    else Settled(respond, made)
  }

  function Outcomes(respond: nat -> Reply, n: nat): seq<Outcome> {
    seq(n, k requires 0 <= k => respond(k).outcome)
  }

  /**
   The retry law: between one and four attempts; success exactly if the last attempt succeeded; every attempt
   but the last was a retryable failure; and a call that fails on a retryable failure has used all four.
   */
  lemma {:induction false} RetryLaw(respond: nat -> Reply, attempt: nat)
    requires attempt < MAX_ATTEMPTS
    requires forall k | 0 <= k < attempt :: Retryable(respond(k).outcome)
    ensures var (result, made) := Settled(respond, attempt);
            var outcomes := Outcomes(respond, made);
            && attempt < made && AttemptLaw(outcomes)
            && (result == Ok <==> Last(outcomes).failure == None)
            && (result.Failed? ==> result.last == Last(outcomes)
                                   && (Retryable(Last(outcomes)) ==> made == MAX_ATTEMPTS))
            && (result == Interrupted <==> Retryable(Last(outcomes)) && respond(made - 1).interrupted)
            && !result.Refused?
    decreases MAX_ATTEMPTS - attempt
  {
    var outcome := respond(attempt).outcome;
    if Retryable(outcome) && !respond(attempt).interrupted && attempt + 1 < MAX_ATTEMPTS {
      RetryLaw(respond, attempt + 1);
    }
  }

  /**
   Attempt m, counted from one, is the last: the fourth, a success, a failure that is neither a 429 nor a server error
   nor a missed deadline, or one whose back-off is interrupted.
   */
  predicate IsLast(respond: nat -> Reply, m: nat)
    requires m > 0
  {
    var reply := respond(m - 1);
    || m == 4
    || reply.outcome.failure == None
    || (reply.outcome.status != 429 && reply.outcome.status < 500 && reply.outcome.failure != Deadline)
    || reply.interrupted
  }

  /** What is answered after the last attempt. */
  predicate Answers(reply: Reply, result: InfoResult) {
    var o := reply.outcome;
    if o.failure == None then result == Ok
    else if o.status != 429 && o.status < 500 && o.failure != Deadline then result == Failed(o)
    else result == if reply.interrupted then Interrupted else Failed(o)
  }

  /** For every behaviour of the network, the attempts end at the first that is the last, with its answer. */
  lemma {:induction false} AttemptsExact(respond: nat -> Reply, attempt: nat)
    requires attempt < MAX_ATTEMPTS
    ensures var (result, made) := Settled(respond, attempt);
            && attempt < made <= 4 && IsLast(respond, made)
            && (forall m | attempt < m < made :: !IsLast(respond, m))
            && Answers(respond(made - 1), result)
    decreases MAX_ATTEMPTS - attempt
  {
    if !IsLast(respond, attempt + 1) {
      AttemptsExact(respond, attempt + 1);
    }
  }

  /** The limiter's view of n attempts: what others did before each, and its record. */
  function Attempts(endpoint: Endpoint, respond: nat -> Reply, n: nat): seq<Event> {
    if n == 0 then []
    else
      var reply := respond(n - 1);
      Attempts(endpoint, respond, n - 1) + reply.others
      + [Event.Record(endpoint, reply.at, reply.outcome.failure != None, reply.outcome.status)]
  }

  lemma NoAttempts(s: State, endpoint: Endpoint, respond: nat -> Reply)
    ensures Run(s, Attempts(endpoint, respond, 0)) == s
  {
  }

  lemma AttemptsStep(s: State, endpoint: Endpoint, respond: nat -> Reply, n: nat)
    ensures var reply := respond(n);
            Run(s, Attempts(endpoint, respond, n + 1))
            == Apply(Run(Run(s, Attempts(endpoint, respond, n)), reply.others),
                     Event.Record(endpoint, reply.at, reply.outcome.failure != None, reply.outcome.status))
  {
    var reply := respond(n);
    var earlier := Attempts(endpoint, respond, n) + reply.others;
    assert Front(Attempts(endpoint, respond, n + 1)) == earlier;
    RunAppend(s, Attempts(endpoint, respond, n), reply.others);
  }

  /** How many of the first n attempts failed or were answered with a status of 400 or more. */
  function FailedAmong(respond: nat -> Reply, n: nat): nat {
    if n == 0 then 0
    else FailedAmong(respond, n - 1)
         + if respond(n - 1).outcome.failure != None || respond(n - 1).outcome.status >= 400 then 1 else 0
  }

  /** With nobody else about, n attempts count as n requests, and as failures those that failed. */
  lemma {:induction false} AttemptsCounted(s: State, endpoint: Endpoint, respond: nat -> Reply, n: nat)
    requires forall k | 0 <= k < n :: respond(k).others == []
    ensures var after := Run(s, Attempts(endpoint, respond, n));
            && Counter(after.requests, endpoint) == Counter(s.requests, endpoint) + n
            && Counter(after.failures, endpoint) == Counter(s.failures, endpoint) + FailedAmong(respond, n)
  {
    hide Run, Apply, Attempts;
    if n == 0 {
      NoAttempts(s, endpoint, respond);
    } else {
      var reply := respond(n - 1);
      AttemptsCounted(s, endpoint, respond, n - 1);
      AttemptsStep(s, endpoint, respond, n - 1);
      NothingRun(Run(s, Attempts(endpoint, respond, n - 1)));
      CountersStep(Run(s, Attempts(endpoint, respond, n - 1)),
                   Event.Record(endpoint, reply.at, reply.outcome.failure != None, reply.outcome.status), endpoint);
    }
  }

  lemma NothingRun(s: State)
    ensures Run(s, []) == s
  {
  }

  class Client {
    const limiter: Weighted

    constructor (limiter: Weighted)
      ensures this.limiter == limiter
    {
      this.limiter := limiter;
    }

    /** One attempt: the request, answered by the network, and its record. */
    method Attempt(endpoint: Endpoint, respond: nat -> Reply, n: nat, ghost start: State) returns (outcome: Outcome)
      requires limiter.View() == Run(start, Attempts(endpoint, respond, n))
      modifies limiter
      ensures limiter.View() == Run(start, Attempts(endpoint, respond, n + 1))
      ensures outcome == respond(n).outcome
    {
      var reply := respond(n);
      limiter.PerformAll(reply.others);
      limiter.Record(endpoint, reply.at, reply.outcome.failure != None, reply.outcome.status);
      AttemptsStep(start, endpoint, respond, n);
      outcome := reply.outcome;
    }

    /** The loop of info after a grant. */
    method Request(endpoint: Endpoint, respond: nat -> Reply) returns (result: InfoResult, made: nat)
      modifies limiter
      ensures (result, made) == Settled(respond, 0)
      ensures 0 < made <= 4 && IsLast(respond, made) && forall m | 0 < m < made :: !IsLast(respond, m)
      ensures Answers(respond(made - 1), result)
      ensures limiter.View() == Run(old(limiter.View()), Attempts(endpoint, respond, made))
    {
      hide Run, Attempts;
      NoAttempts(limiter.View(), endpoint, respond);
      AttemptsExact(respond, 0);
      var attempt := 0;
      ghost var start := limiter.View();
      while attempt < MAX_ATTEMPTS
        invariant 0 <= attempt <= MAX_ATTEMPTS
        invariant if attempt < MAX_ATTEMPTS then Settled(respond, attempt) == Settled(respond, 0)
                  else Settled(respond, 0) == (Failed(respond(MAX_ATTEMPTS - 1).outcome), MAX_ATTEMPTS)
        invariant limiter.View() == Run(start, Attempts(endpoint, respond, attempt))
      {
        var outcome := Attempt(endpoint, respond, attempt, start);
        if outcome.failure == None {
          return Ok, attempt + 1;
        }
        result := Failed(outcome);
        if outcome.status == 429 || outcome.status >= 500 || outcome.failure == Deadline {
          if respond(attempt).interrupted {
            return Interrupted, attempt + 1;
          }
          attempt := attempt + 1;
          continue;
        }
        return result, attempt + 1;
      }
      result, made := Failed(respond(MAX_ATTEMPTS - 1).outcome), MAX_ATTEMPTS;
    }

    method Info(endpoint: Endpoint, critical: bool, additional: int, budgetAt: real, turns: seq<Turn>,
                respond: nat -> Reply)
      returns (result: InfoResult, made: nat)
      modifies limiter
      ensures var weight := WeightOf(limiter.weights, endpoint, additional);
              var (waited, wait) := Called(old(limiter.View()), endpoint, weight, critical, budgetAt, turns);
              && (result, made) == (if wait.Granted? then Settled(respond, 0) else (Refused(wait), 0))
              && limiter.View() == Run(waited, Attempts(endpoint, respond, made))
    {
      var weight := limiter.Weight(endpoint, additional);
      var wait := limiter.Wait(endpoint, weight, critical, budgetAt, turns);
      if !wait.Granted? {
        return Refused(wait), 0;
      }
      result, made := Request(endpoint, respond);
    }
  }
}
