/**
 A burst of calls that the limiter grants at once and whose attempts all fail, and what it says about the
 configurations in which the retries stay within the limiter's own window bound.
 */
module RetryBurst {
  import opened Sequences
  import opened LimiterHistory
  import opened Limiter
  import opened WeightedLimiter
  import opened InfoClient
  import opened InfoSystem
  import opened WireWeight

  const FAILURE := Outcome(500, Other)

  /** Every call has the weight, is at the phase and has made the given number of attempts, from call lo up to hi. */
  predicate Standing(calls: seq<Call>, lo: nat, hi: nat, weight: int, phase: Phase, made: nat) {
    hi <= |calls|
    && forall k | lo <= k < hi :: calls[k].weight == weight && calls[k].phase == phase && |calls[k].outcomes| == made
  }

  /** Nothing has happened to the bucket but grants at the start. */
  predicate Fresh(s: State, start: real) {
    s.lastRefill == start && s.pausedUntil == map[]
  }

  // ----- the grants

  lemma Queue(configured: int, weights: map<Endpoint, int>, endpoint: Endpoint, start: real, sys: System)
    returns (after: System)
    requires Reachable(configured, weights, start, sys)
    ensures Reachable(configured, weights, start, after) && after.now == sys.now
    ensures after.limiter == sys.limiter.(queueDepth := sys.limiter.queueDepth + 1)
    ensures after.calls == sys.calls + [Call(endpoint, WeightOf(weights, endpoint, 0), Polling, NotGranted, [], [], [])]
  {
    hide Reachable;
    var begin, join := Begin(endpoint, 0, true), Join(|sys.calls|);
    Extend(configured, weights, start, sys, begin);
    var begun := Next(weights, sys, begin);
    Extend(configured, weights, start, begun, join);
    after := Next(weights, begun, join);
  }

  lemma TakeAndLeave(configured: int, weights: map<Endpoint, int>, start: real, sys: System, i: nat)
    returns (after: System)
    requires Reachable(configured, weights, start, sys) && sys.now == start && Fresh(sys.limiter, start)
    requires AtPhase(sys, i, Polling) && 0 < sys.calls[i].weight && sys.calls[i].weight as real <= sys.limiter.tokens
    ensures Reachable(configured, weights, start, after) && after.now == start && Fresh(after.limiter, start)
    ensures after.limiter.tokens == sys.limiter.tokens - sys.calls[i].weight as real
    ensures after.calls == sys.calls[i := Sends(sys.calls[i].(permit := GrantedAt(start)), start)]
  {
    hide Reachable;
    var try, quit := Try(i, start, start, false), Quit(i);
    Extend(configured, weights, start, sys, try);
    var granted := Next(weights, sys, try);
    Extend(configured, weights, start, granted, quit);
    after := Next(weights, granted, quit);
  }

  /** As many calls as the full bucket holds, all granted at the start. */
  lemma GrantAll(configured: int, weights: map<Endpoint, int>, endpoint: Endpoint, start: real, n: nat)
    returns (sys: System)
    requires n * WeightOf(weights, endpoint, 0) <= Initial(configured, start).capacity
    ensures Reachable(configured, weights, start, sys) && sys.now == start
    ensures |sys.calls| == n && Standing(sys.calls, 0, n, WeightOf(weights, endpoint, 0), Sending, 0)
  {
    hide Reachable;
    var w, c := WeightOf(weights, endpoint, 0), Initial(configured, start).capacity;
    IdleReachable(configured, weights, start);
    sys := Idle(configured, start);
    for i := 0 to n
      invariant Reachable(configured, weights, start, sys) && sys.now == start && Fresh(sys.limiter, start)
      invariant |sys.calls| == i && Standing(sys.calls, 0, i, w, Sending, 0)
      invariant sys.limiter.tokens == (c - i * w) as real
    {
      Fits(i, n, w, c);
      sys := Queue(configured, weights, endpoint, start, sys);
      sys := TakeAndLeave(configured, weights, start, sys, i);
    }
  }

  lemma Fits(i: nat, n: nat, w: int, c: int)
    requires i < n && w > 0 && n * w <= c
    ensures w <= c - i * w && c - (i + 1) * w == c - i * w - w
  {
    assert (n - i - 1) * w >= 0;
  }

  // ----- the retries

  lemma SendAll(configured: int, weights: map<Endpoint, int>, start: real, sys: System, w: int, made: nat)
    returns (after: System)
    requires Reachable(configured, weights, start, sys) && Standing(sys.calls, 0, |sys.calls|, w, Sending, made)
    ensures Reachable(configured, weights, start, after)
    ensures after.now == sys.now && |after.calls| == |sys.calls|
    ensures Standing(after.calls, 0, |sys.calls|, w, BackingOff(sys.now, sys.now + Seconds(Delay(made))), made + 1)
  {
    hide Reachable, Delay, Apply, Seconds;
    var due := sys.now + Seconds(Delay(made));
    after := sys;
    for i := 0 to |sys.calls|
      invariant Reachable(configured, weights, start, after) && after.now == sys.now && |after.calls| == |sys.calls|
      invariant Standing(after.calls, 0, i, w, BackingOff(sys.now, due), made + 1)
      invariant Standing(after.calls, i, |sys.calls|, w, Sending, made)
    {
      var send := Send(i, sys.now, FAILURE, 0);
      Extend(configured, weights, start, after, send);
      after := Next(weights, after, send);
    }
  }

  lemma WakeAll(configured: int, weights: map<Endpoint, int>, start: real, sys: System, w: int, made: nat, due: real)
    returns (after: System)
    requires Reachable(configured, weights, start, sys) && sys.calls != [] && made < MAX_ATTEMPTS && sys.now <= due
    requires Standing(sys.calls, 0, |sys.calls|, w, BackingOff(sys.now, due), made)
    ensures Reachable(configured, weights, start, after)
    ensures after.now == due && |after.calls| == |sys.calls|
    ensures Standing(after.calls, 0, |sys.calls|, w, Sending, made)
  {
    hide Reachable;
    after := sys;
    for i := 0 to |sys.calls|
      invariant Reachable(configured, weights, start, after) && |after.calls| == |sys.calls|
      invariant after.now == if i == 0 then sys.now else due
      invariant Standing(after.calls, 0, i, w, Sending, made)
      invariant Standing(after.calls, i, |sys.calls|, w, BackingOff(sys.now, due), made)
    {
      var wake := Wake(i, due, false);
      Extend(configured, weights, start, after, wake);
      after := Next(weights, after, wake);
    }
  }

  lemma {:induction false} SentByAll(calls: seq<Call>, w: int, phase: Phase, made: nat)
    requires !phase.Sending? && Standing(calls, 0, |calls|, w, phase, made) && forall c | c in calls :: CallLaw(c)
    ensures Tally(SentWeight, calls) == |calls| * (made * w)
  {
    if calls != [] {
      assert forall k | 0 <= k < |Front(calls)| :: Front(calls)[k] == calls[k];
      assert forall c | c in Front(calls) :: c in calls;
      assert CallLaw(Last(calls));
      SentByAll(Front(calls), w, phase, made);
      assert |calls| * (made * w) == (|calls| - 1) * (made * w) + made * w;
    }
  }

  /**
   For every configuration and every weight w within the capacity C, the C / w calls that fill the bucket, each of
   whose attempts fails, have four times that weight on the wire after 1.05 seconds, the shortest possible back-offs.
   */
  lemma BurstReaches(configured: int, weights: map<Endpoint, int>, endpoint: Endpoint, start: real)
    returns (sys: System)
    requires WeightOf(weights, endpoint, 0) <= Initial(configured, start).capacity
    ensures Reachable(configured, weights, start, sys) && sys.now == start + 1.05
    ensures var w := WeightOf(weights, endpoint, 0);
            Tally(SentWeight, sys.calls) == (Initial(configured, start).capacity / w) * (4 * w)
  {
    hide Reachable;
    var w, c := WeightOf(weights, endpoint, 0), Initial(configured, start).capacity;
    var n: nat := c / w;
    FullBucket(c, w);
    EarliestValues();
    sys := GrantAll(configured, weights, endpoint, start, n);
    for k := 0 to MAX_ATTEMPTS - 1
      invariant Reachable(configured, weights, start, sys) && |sys.calls| == n
      invariant sys.now == start + Earliest(k) && Standing(sys.calls, 0, n, w, Sending, k)
    {
      var t := sys.now;
      sys := SendAll(configured, weights, start, sys, w, k);
      sys := WakeAll(configured, weights, start, sys, w, k + 1, t + Seconds(Delay(k)));
    }
    var t := sys.now;
    sys := SendAll(configured, weights, start, sys, w, MAX_ATTEMPTS - 1);
    InvReachable(configured, weights, start, sys);
    SentByAll(sys.calls, w, BackingOff(t, t + Seconds(Delay(MAX_ATTEMPTS - 1))), MAX_ATTEMPTS);
  }

  lemma FullBucket(c: int, w: int)
    requires 0 < w <= c
    ensures 1 <= c / w && (c / w) * w <= c
    ensures (c / w) * (4 * w) > 2 * c
  {
    var n := c / w;
    assert c == n * w + c % w;
    assert n >= 1;
    assert n * w > c - w;
    assert n * w >= w by { assert (n - 1) * w >= 0; }
    assert n * (4 * w) == 4 * (n * w);
  }

  // ----- which configurations keep the window bound on the wire

  /** In every run, at every moment, the wire carries no more than the limiter grants in a window of that length. */
  ghost predicate WireWithinWindow(configured: int, weights: map<Endpoint, int>, start: real) {
    forall sys: System | Reachable(configured, weights, start, sys) ::
      Tally(SentWeight, sys.calls) as real
      <= Initial(configured, start).capacity as real + Accrued(Initial(configured, start).capacity, sys.now - start)
  }

  /** With no weight within the capacity nothing is ever granted, and nothing is sent. */
  lemma NothingSent(configured: int, weights: map<Endpoint, int>, start: real, sys: System)
    requires Reachable(configured, weights, start, sys)
    requires forall endpoint :: WeightOf(weights, endpoint, 0) > Initial(configured, start).capacity
    ensures Tally(SentWeight, sys.calls) == 0
  {
    var run: seq<Action> :| Reaches(configured, weights, start, run, sys);
    AllHeavy(configured, weights, start, run, sys);
    InvReached(configured, weights, start, run, sys);
    NothingTallied(sys.calls);
  }

  lemma {:induction false} NothingTallied(calls: seq<Call>)
    requires forall c | c in calls :: c.permit.NotGranted? && CallLaw(c)
    ensures Tally(SentWeight, calls) == 0
  {
    if calls != [] {
      assert forall c | c in Front(calls) :: c in calls;
      assert Last(calls) in calls && CallLaw(Last(calls));
      NothingTallied(Front(calls));
    }
  }

  lemma {:induction false} AllHeavy(configured: int, weights: map<Endpoint, int>, start: real, run: seq<Action>,
                                    sys: System)
    requires Reaches(configured, weights, start, run, sys)
    requires forall endpoint :: WeightOf(weights, endpoint, 0) > Initial(configured, start).capacity
    ensures forall c | c in sys.calls :: c.permit.NotGranted? && c.weight > Initial(configured, start).capacity
  {
    if run != [] {
      var before: System :| && Reaches(configured, weights, start, Front(run), before)
                            && Enabled(before, Last(run))
                            && sys == Next(weights, before, Last(run));
      AllHeavy(configured, weights, start, Front(run), before);
      InvReached(configured, weights, start, Front(run), before);
      HeavyStep(configured, weights, start, before, Last(run));
    }
  }

  lemma HeavyStep(configured: int, weights: map<Endpoint, int>, start: real, sys: System, a: Action)
    requires Inv(configured, start, sys) && Enabled(sys, a)
    requires forall endpoint :: WeightOf(weights, endpoint, 0) > Initial(configured, start).capacity
    requires forall c | c in sys.calls :: c.permit.NotGranted? && c.weight > Initial(configured, start).capacity
    ensures forall c | c in Advance(weights, sys, a) ::
              c.permit.NotGranted? && c.weight > Initial(configured, start).capacity
  {
    hide Accrued;
    var s0 := Initial(configured, start);
    BucketInvariant(s0, start, sys.trace);
    if a.Begin? {
      assert WeightOf(weights, a.endpoint, 0) <= WeightOf(weights, a.endpoint, a.additional);
    }
  }

  /**
   The retries keep the wire within the window bound C + C T / 60 in every run if and only if no call can ever be
   granted: every configured weight, and the default weight of the other endpoints, exceeds the capacity.
   */
  lemma WireWithinWindowIff(configured: int, weights: map<Endpoint, int>, start: real)
    ensures WireWithinWindow(configured, weights, start)
       <==> forall endpoint :: WeightOf(weights, endpoint, 0) > Initial(configured, start).capacity
  {
    if endpoint: Endpoint :| WeightOf(weights, endpoint, 0) <= Initial(configured, start).capacity {
      BurstLeavesWindow(configured, weights, endpoint, start);
    } else {
      forall sys: System | Reachable(configured, weights, start, sys)
        ensures Tally(SentWeight, sys.calls) as real
             <= Initial(configured, start).capacity as real
                + Accrued(Initial(configured, start).capacity, sys.now - start)
      {
        hide Reachable, Accrued;
        NothingSent(configured, weights, start, sys);
        TimePasses(configured, weights, start, sys);
        NothingAccrues(Initial(configured, start).capacity);
        AccruedMonotone(Initial(configured, start).capacity, 0.0, sys.now - start);
      }
    }
  }

  lemma BurstLeavesWindow(configured: int, weights: map<Endpoint, int>, endpoint: Endpoint, start: real)
    requires WeightOf(weights, endpoint, 0) <= Initial(configured, start).capacity
    ensures !WireWithinWindow(configured, weights, start)
  {
    hide Reachable, Tally, Accrued;
    var c := Initial(configured, start).capacity;
    var sys := BurstReaches(configured, weights, endpoint, start);
    FullBucket(c, WeightOf(weights, endpoint, 0));
    SecondAccrues(c);
    assert sys.now - start == 1.05;
  }
}
