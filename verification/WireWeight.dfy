/**
 What the retries put on the wire beyond what the limiter granted: an exact account of when that happens, a bound
 that holds for every run, and the burst that shows which configurations exceed the limiter's own window bound.
 */
module WireWeight {
  import opened Sequences
  import opened LimiterHistory
  import opened Limiter
  import opened InfoClient
  import opened InfoSystem

  // ----- attempts and grants

  /** How many of the first n attempts of a call begin between a and b. */
  function Begun(c: Call, a: real, b: real, n: nat): nat
    requires n <= |c.begun|
  {
    if n == 0 then 0 else Begun(c, a, b, n - 1) + if a <= c.begun[n - 1] <= b then 1 else 0
  }

  /** The weight put on the wire between a and b. */
  function SentWithin(calls: seq<Call>, a: real, b: real): int {
    if calls == [] then 0
    else SentWithin(Front(calls), a, b) + Begun(Last(calls), a, b, |Last(calls).begun|) * Last(calls).weight
  }

  /** For every attempt the window in which a call must have been granted to make it. */
  type Windows = nat -> (real, real)

  /** What n attempts per grant can weigh. */
  function WireLimit(capacity: int, n: nat, windows: Windows): real {
    if n == 0 then 0.0
    else
      var length := windows(n - 1).1 - windows(n - 1).0;
      WireLimit(capacity, n - 1, windows)
      + if length < 0.0 then 0.0 else capacity as real + Accrued(capacity, length)
  }

  function GrantedFor(k: nat, windows: Windows): Measure {
    GrantedIn(windows(k).0, windows(k).1)
  }

  /** The weight of the calls granted in the windows of the first n attempts. */
  function Retried(n: nat, windows: Windows, calls: seq<Call>): int {
    if n == 0 then 0 else Retried(n - 1, windows, calls) + Tally(GrantedFor(n - 1, windows), calls)
  }

  /** Every attempt that begins between a and b is made by a call granted in the window of the attempt. */
  predicate Covered(c: Call, a: real, b: real, windows: Windows) {
    && c.weight > 0 && |c.begun| <= MAX_ATTEMPTS
    && forall k | 0 <= k < |c.begun| && a <= c.begun[k] <= b ::
         c.permit.GrantedAt? && windows(k).0 <= c.permit.at <= windows(k).1
  }

  lemma TallyOne(m: Measure, c: Call)
    ensures Tally(m, [c]) == Value(m, c)
  {
    assert Front([c]) == [];
  }

  lemma {:induction false} RetriedStep(n: nat, windows: Windows, calls: seq<Call>)
    requires calls != []
    ensures Retried(n, windows, calls) == Retried(n, windows, Front(calls)) + Retried(n, windows, [Last(calls)])
  {
    hide Value;
    if n > 0 {
      RetriedStep(n - 1, windows, calls);
      TallyOne(GrantedFor(n - 1, windows), Last(calls));
    }
  }

  lemma {:induction false} NothingRetried(n: nat, windows: Windows)
    ensures Retried(n, windows, []) == 0
  {
    if n > 0 { NothingRetried(n - 1, windows); }
  }

  /** The attempts of a call between a and b weigh no more than the grants of their windows. */
  lemma {:induction false} RetriedByCall(n: nat, windows: Windows, c: Call, a: real, b: real)
    requires Covered(c, a, b, windows)
    ensures Begun(c, a, b, if n <= |c.begun| then n else |c.begun|) * c.weight <= Retried(n, windows, [c])
  {
    if n > 0 {
      RetriedByCall(n - 1, windows, c, a, b);
      TallyOne(GrantedFor(n - 1, windows), c);
      if n <= |c.begun| && a <= c.begun[n - 1] <= b {
        var before := Begun(c, a, b, n - 1);
        assert (before + 1) * c.weight == before * c.weight + c.weight;
      }
    }
  }

  lemma {:induction false} SentIsRetried(calls: seq<Call>, a: real, b: real, windows: Windows)
    requires forall c | c in calls :: Covered(c, a, b, windows)
    ensures SentWithin(calls, a, b) <= Retried(MAX_ATTEMPTS, windows, calls)
  {
    hide Covered;
    if calls == [] {
      NothingRetried(MAX_ATTEMPTS, windows);
    } else {
      var c := Last(calls);
      assert c in calls && Covered(c, a, b, windows);
      assert forall d | d in Front(calls) :: d in calls;
      SentIsRetried(Front(calls), a, b, windows);
      RetriedStep(MAX_ATTEMPTS, windows, calls);
      AtMostAllAttempts(c, a, b, windows);
      RetriedByCall(MAX_ATTEMPTS, windows, c, a, b);
    }
  }

  lemma AtMostAllAttempts(c: Call, a: real, b: real, windows: Windows)
    requires Covered(c, a, b, windows)
    ensures |c.begun| <= MAX_ATTEMPTS
  {
  }

  lemma GrantedInBound(configured: int, start: real, sys: System, a: real, b: real)
    requires Inv(configured, start, sys)
    ensures var c := Initial(configured, start).capacity;
            Tally(GrantedIn(a, b), sys.calls) as real <= if b - a < 0.0 then 0.0 else c as real + Accrued(c, b - a)
  {
    var s0 := Initial(configured, start);
    assert WeightWithin(Log(s0, sys.trace), a, b) == Tally(GrantedIn(a, b), sys.calls) as real;
    if b < a {
      EmptyWindow(Log(s0, sys.trace), a, b);
    } else {
      WindowBound(configured, start, sys.trace, a, b);
    }
  }

  lemma {:induction false} EmptyWindow(gs: seq<Grant>, a: real, b: real)
    requires b < a
    ensures WeightWithin(gs, a, b) == 0.0
  {
    if gs != [] { EmptyWindow(Front(gs), a, b); }
  }

  lemma {:induction false} RetriedBound(configured: int, start: real, sys: System, n: nat, windows: Windows)
    requires Inv(configured, start, sys)
    ensures Retried(n, windows, sys.calls) as real <= WireLimit(Initial(configured, start).capacity, n, windows)
  {
    hide Inv, Tally, Accrued;
    if n > 0 {
      RetriedBound(configured, start, sys, n - 1, windows);
      GrantedInBound(configured, start, sys, windows(n - 1).0, windows(n - 1).1);
    }
  }

  lemma EarliestGrows(m: nat, n: nat)
    requires m <= n
    ensures Earliest(m) <= Earliest(n)
  {
    if m < n { EarliestGrows(m, n - 1); }
  }

  lemma EarliestValues()
    ensures Earliest(0) == 0.0 && Earliest(1) == 0.15 && Earliest(2) == 0.45 && Earliest(3) == 1.05
  {
    ShortDelays();
  }

  // ----- from the start

  /** To make attempt k by now a call must have been granted its back-offs ago. */
  function SinceStart(start: real, now: real): Windows {
    (k: nat) => (start, now - Earliest(k))
  }

  lemma {:induction false} AllBegun(c: Call, a: real, b: real, n: nat)
    requires n <= |c.begun| && forall k | 0 <= k < |c.begun| :: a <= c.begun[k] <= b
    ensures Begun(c, a, b, n) == n
  {
    if n > 0 { AllBegun(c, a, b, n - 1); }
  }

  lemma ScheduleCovers(c: Call, start: real, now: real)
    requires CallLaw(c) && OnSchedule(c, start, now)
    ensures Covered(c, start, now, SinceStart(start, now))
    ensures Begun(c, start, now, |c.begun|) == |c.begun|
  {
    forall k: nat | k < |c.begun| ensures start <= c.begun[k] <= now && c.permit.at <= now - Earliest(k) {
      assert c.permit.at + Earliest(k) <= c.begun[k];
      EarliestGrows(0, k);
    }
    AllBegun(c, start, now, |c.begun|);
  }

  lemma {:induction false} AllSent(calls: seq<Call>, start: real, now: real)
    requires forall c | c in calls :: CallLaw(c) && OnSchedule(c, start, now)
    ensures SentWithin(calls, start, now) == Tally(SentWeight, calls)
  {
    hide CallLaw, OnSchedule, Covered, Begun;
    if calls != [] {
      var c := Last(calls);
      assert c in calls && CallLaw(c) && OnSchedule(c, start, now);
      assert forall d | d in Front(calls) :: d in calls;
      AllSent(Front(calls), start, now);
      ScheduleCovers(c, start, now);
    }
  }

  /**
   At every moment of every run the weight put on the wire is at most the sum, over the four attempts, of the window
   bound of the time that is left once the back-offs before the attempt are over.
   */
  lemma WireWeightBound(configured: int, weights: map<Endpoint, int>, start: real, sys: System)
    requires Reachable(configured, weights, start, sys)
    ensures Tally(SentWeight, sys.calls) as real
         <= WireLimit(Initial(configured, start).capacity, MAX_ATTEMPTS, SinceStart(start, sys.now))
  {
    hide Reachable, CallLaw, OnSchedule, Covered, WireLimit, Retried, SentWithin, Tally;
    InvReachable(configured, weights, start, sys);
    AllSent(sys.calls, start, sys.now);
    forall c | c in sys.calls ensures Covered(c, start, sys.now, SinceStart(start, sys.now)) {
      ScheduleCovers(c, start, sys.now);
    }
    SentIsRetried(sys.calls, start, sys.now, SinceStart(start, sys.now));
    RetriedBound(configured, start, sys, MAX_ATTEMPTS, SinceStart(start, sys.now));
  }

  lemma LimitValues(capacity: int, start: real, now: real)
    requires capacity > 0 && start <= now
    ensures var limit := WireLimit(capacity, MAX_ATTEMPTS, SinceStart(start, now));
            && limit <= 4.0 * (capacity as real + Accrued(capacity, now - start))
            && (now - start < 1.05 ==> limit < 4.0 * capacity as real)
  {
    hide Accrued, Earliest;
    EarliestValues();
    NothingAccrues(capacity);
    AccruedMonotone(capacity, 0.0, now - start);
    LimitStep(capacity, 1, start, now);
    LimitStep(capacity, 2, start, now);
    LimitStep(capacity, 3, start, now);
    LimitStep(capacity, 4, start, now);
    if now - start < 1.05 {
      AccruedMonotone(capacity, now - start, 1.05);
      SecondAccrues(capacity);
    }
  }

  lemma LimitStep(capacity: int, n: nat, start: real, now: real)
    requires capacity > 0 && n > 0 && start <= now
    ensures WireLimit(capacity, 0, SinceStart(start, now)) == 0.0
    ensures var step := WireLimit(capacity, n, SinceStart(start, now))
                        - WireLimit(capacity, n - 1, SinceStart(start, now));
            && step <= capacity as real + Accrued(capacity, now - start)
            && (now - start < Earliest(n - 1) ==> step == 0.0)
  {
    hide Accrued;
    EarliestGrows(0, n - 1);
    NothingAccrues(capacity);
    AccruedMonotone(capacity, 0.0, now - start);
    AccruedMonotone(capacity, now - Earliest(n - 1) - start, now - start);
  }

  lemma SecondAccrues(capacity: int)
    requires capacity > 0
    ensures 3.0 * Accrued(capacity, 1.05) < capacity as real
  {
  }

  /** Four times the window bound is never exceeded, and four capacities are not on the wire before 1.05 seconds. */
  lemma FourfoldTakesTime(configured: int, weights: map<Endpoint, int>, start: real, sys: System)
    requires Reachable(configured, weights, start, sys)
    ensures var c, sent := Initial(configured, start).capacity, Tally(SentWeight, sys.calls);
            && sent as real <= 4.0 * (c as real + Accrued(c, sys.now - start))
            && (sent >= 4 * c ==> sys.now - start >= 1.05)
  {
    hide Reachable, Tally, WireLimit, Accrued;
    TimePasses(configured, weights, start, sys);
    WireWeightBound(configured, weights, start, sys);
    LimitValues(Initial(configured, start).capacity, start, sys.now);
  }

  // ----- in any window

  /**
   A call whose steps take no longer than the client lets them: the first attempt begins soon after the grant, a
   request is over within its timeout and a sleep that is followed by an attempt ends when it is due.
   */
  predicate Prompt(c: Call, handover: real, timeout: real) {
    c.permit.GrantedAt? ==>
      forall k | 0 <= k < |c.begun| ::
        c.begun[k] <= if k == 0 then c.permit.at + handover
                      else c.begun[k - 1] + timeout + Seconds(Delay(k - 1) + JITTER)
  }

  /** How long after its grant, at the latest, a prompt call begins attempt k. */
  function Latest(k: nat, handover: real, timeout: real): real {
    if k == 0 then handover else Latest(k - 1, handover, timeout) + timeout + Seconds(Delay(k - 1) + JITTER)
  }

  /** To begin attempt k between a and b a prompt call must have been granted in this window. */
  function Around(a: real, b: real, handover: real, timeout: real): Windows {
    (k: nat) => (a - Latest(k, handover, timeout), b - Earliest(k))
  }

  lemma {:induction false} BegunByLatest(c: Call, k: nat, handover: real, timeout: real)
    requires Prompt(c, handover, timeout) && c.permit.GrantedAt? && k < |c.begun|
    ensures c.begun[k] <= c.permit.at + Latest(k, handover, timeout)
  {
    hide Delay;
    assert c.begun[k] <= c.begun[k];
    if k > 0 { BegunByLatest(c, k - 1, handover, timeout); }
  }

  lemma PromptCovers(c: Call, start: real, now: real, a: real, b: real, handover: real, timeout: real)
    requires CallLaw(c) && OnSchedule(c, start, now) && Prompt(c, handover, timeout)
    ensures Covered(c, a, b, Around(a, b, handover, timeout))
  {
    forall k: nat | k < |c.begun| && a <= c.begun[k] <= b
      ensures a - Latest(k, handover, timeout) <= c.permit.at <= b - Earliest(k)
    {
      assert c.permit.at + Earliest(k) <= c.begun[k];
      BegunByLatest(c, k, handover, timeout);
    }
  }

  lemma {:induction false} WindowSpread(k: nat, handover: real, timeout: real)
    ensures Latest(k, handover, timeout) - Earliest(k) == handover + k as real * (timeout + Seconds(JITTER))
  {
    hide Delay;
    if k > 0 {
      WindowSpread(k - 1, handover, timeout);
      assert Seconds(Delay(k - 1) + JITTER) == Seconds(Delay(k - 1)) + Seconds(JITTER);
    }
  }

  lemma AroundValues(capacity: int, a: real, b: real, handover: real, timeout: real)
    requires capacity > 0 && a <= b && handover >= 0.0 && timeout >= 0.0
    ensures WireLimit(capacity, MAX_ATTEMPTS, Around(a, b, handover, timeout))
         == 4.0 * (capacity as real + Accrued(capacity, b - a))
            + Accrued(capacity, 4.0 * handover + 6.0 * (timeout + Seconds(JITTER)))
  {
    AroundStep(capacity, 1, a, b, handover, timeout);
    AroundStep(capacity, 2, a, b, handover, timeout);
    AroundStep(capacity, 3, a, b, handover, timeout);
    AroundStep(capacity, 4, a, b, handover, timeout);
    SumAccrues(capacity, b - a, handover, timeout + Seconds(JITTER));
  }

  lemma AroundStep(capacity: int, n: nat, a: real, b: real, handover: real, timeout: real)
    requires capacity > 0 && n > 0 && a <= b && handover >= 0.0 && timeout >= 0.0
    ensures WireLimit(capacity, 0, Around(a, b, handover, timeout)) == 0.0
    ensures WireLimit(capacity, n, Around(a, b, handover, timeout))
         == WireLimit(capacity, n - 1, Around(a, b, handover, timeout)) + capacity as real
            + Accrued(capacity, b - a + (handover + (n - 1) as real * (timeout + Seconds(JITTER))))
  {
    hide Accrued;
    WindowSpread(n - 1, handover, timeout);
    assert (n - 1) as real * (timeout + Seconds(JITTER)) >= 0.0;
    var window := Around(a, b, handover, timeout)(n - 1);
    assert window.1 - window.0 == b - a + (handover + (n - 1) as real * (timeout + Seconds(JITTER)));
  }

  lemma SumAccrues(capacity: int, length: real, handover: real, gap: real)
    ensures Accrued(capacity, length + (handover + 0.0 * gap)) + Accrued(capacity, length + (handover + 1.0 * gap))
            + Accrued(capacity, length + (handover + 2.0 * gap)) + Accrued(capacity, length + (handover + 3.0 * gap))
         == 4.0 * Accrued(capacity, length) + Accrued(capacity, 4.0 * handover + 6.0 * gap)
  {
  }

  /**
   Between any two moments of a run whose calls are prompt, the weight put on the wire is at most four times the
   window bound and what accrues in four hand-overs and six timeouts with their longest jitter.
   */
  lemma WireWindowBound(configured: int, weights: map<Endpoint, int>, start: real, sys: System, a: real, b: real,
                        handover: real, timeout: real)
    requires Reachable(configured, weights, start, sys) && a <= b && handover >= 0.0 && timeout >= 0.0
    requires forall c | c in sys.calls :: Prompt(c, handover, timeout)
    ensures var c := Initial(configured, start).capacity;
            SentWithin(sys.calls, a, b) as real
            <= 4.0 * (c as real + Accrued(c, b - a)) + Accrued(c, 4.0 * handover + 6.0 * (timeout + Seconds(JITTER)))
  {
    hide Reachable, Prompt, Covered, CallLaw, OnSchedule, WireLimit, Retried;
    var windows := Around(a, b, handover, timeout);
    InvReachable(configured, weights, start, sys);
    forall c | c in sys.calls ensures Covered(c, a, b, windows) {
      PromptCovers(c, start, sys.now, a, b, handover, timeout);
    }
    SentIsRetried(sys.calls, a, b, windows);
    RetriedBound(configured, start, sys, MAX_ATTEMPTS, windows);
    AroundValues(Initial(configured, start).capacity, a, b, handover, timeout);
  }

  // ----- when the wire carries what was granted

  /** The first attempt failed in a way that is retried, and the sleep after it was not interrupted. */
  predicate Retries(c: Call) {
    c.outcomes != [] && Retryable(c.outcomes[0]) && c.sleeps != [] && !c.sleeps[0]
  }

  lemma SentByCall(c: Call)
    requires CallLaw(c)
    ensures !Retries(c) ==> Value(SentWeight, c) <= Value(GrantedWeight, c)
    ensures c.phase.Returned? ==> Value(GrantedWeight, c) <= Value(SentWeight, c)
    ensures c.phase.Returned? ==> (Value(SentWeight, c) == Value(GrantedWeight, c) <==> !Retries(c))
  {
    var n := |c.begun|;
    if n > 0 {
      assert n * c.weight == c.weight + (n - 1) * c.weight;
      if n > 1 {
        assert (n - 1) * c.weight > 0;
        assert Retryable(c.outcomes[0]);
      }
    }
  }

  lemma {:induction false} SentIffRetries(calls: seq<Call>)
    requires forall c | c in calls :: CallLaw(c) && c.phase.Returned?
    ensures Tally(GrantedWeight, calls) <= Tally(SentWeight, calls)
    ensures Tally(SentWeight, calls) == Tally(GrantedWeight, calls) <==> forall c | c in calls :: !Retries(c)
  {
    hide Value, CallLaw, Retries;
    if calls != [] {
      var c := Last(calls);
      assert c in calls;
      assert forall d | d in Front(calls) :: d in calls;
      assert calls == Front(calls) + [c];
      SentIffRetries(Front(calls));
      SentByCall(c);
    }
  }

  /**
   When every call has returned, the wire carried exactly the granted weight if and only if every granted call's first
   attempt succeeded or failed for good, or the back-off after it was interrupted.
   */
  lemma WireWeightIsGrantedIffNoRetry(configured: int, weights: map<Endpoint, int>, start: real, sys: System)
    requires Reachable(configured, weights, start, sys)
    requires forall c | c in sys.calls :: c.phase.Returned?
    ensures Tally(SentWeight, sys.calls) as real == Total(Log(Initial(configured, start), sys.trace))
       <==> forall c | c in sys.calls :: !Retries(c)
  {
    InvReachable(configured, weights, start, sys);
    SentIffRetries(sys.calls);
  }

  lemma {:induction false} SentWithoutRetries(calls: seq<Call>)
    requires forall c | c in calls :: CallLaw(c) && !Retries(c)
    ensures Tally(SentWeight, calls) <= Tally(GrantedWeight, calls)
  {
    hide Value, CallLaw, Retries;
    if calls != [] {
      var c := Last(calls);
      assert c in calls;
      assert forall d | d in Front(calls) :: d in calls;
      SentWithoutRetries(Front(calls));
      SentByCall(c);
    }
  }

  /** At every moment of a run in which no call has come to retry, the wire keeps the limiter's own window bound. */
  lemma NoRetryKeepsWindow(configured: int, weights: map<Endpoint, int>, start: real, sys: System)
    requires Reachable(configured, weights, start, sys)
    requires forall c | c in sys.calls :: !Retries(c)
    ensures var c := Initial(configured, start).capacity;
            Tally(SentWeight, sys.calls) as real <= c as real + Accrued(c, sys.now - start)
  {
    InvReachable(configured, weights, start, sys);
    SentWithoutRetries(sys.calls);
    TotalGranted(configured, start, sys);
  }

  lemma TotalGranted(configured: int, start: real, sys: System)
    requires TraceLaw(configured, start, sys)
    ensures var c := Initial(configured, start).capacity;
            Total(Log(Initial(configured, start), sys.trace)) <= c as real + Accrued(c, sys.now - start)
  {
    hide Log, Accrued;
    var gs := Log(Initial(configured, start), sys.trace);
    LogShape(Initial(configured, start), start, sys.trace);
    TotalIsWithin(gs, start, sys.now);
    WindowBound(configured, start, sys.trace, start, sys.now);
  }

  lemma {:induction false} TotalIsWithin(gs: seq<Grant>, a: real, b: real)
    requires forall g | g in gs :: a <= g.at <= b
    ensures WeightWithin(gs, a, b) == Total(gs)
  {
    if gs != [] {
      assert forall g | g in Front(gs) :: g in gs;
      TotalIsWithin(Front(gs), a, b);
    }
  }
}
