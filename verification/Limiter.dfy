/**
 The weighted limiter as a state machine: one transition per critical section under its mutex.

 The theorems here range over every well-timed sequence of transitions, and so over every interleaving
 of any number of callers. Class Weighted in module WeightedLimiter performs these transitions in place.
 */
module Limiter {
  import opened Sequences
  import opened LimiterHistory

  datatype State = State(
    capacity: int,
    tokens: real,
    lastRefill: real,
    requests: map<Endpoint, int>,
    failures: map<Endpoint, int>,
    pausedUntil: map<Endpoint, real>,
    cooldowns: map<Endpoint, real>,
    queueDepth: int,
    count429: int)

  const DEFAULT_CAPACITY := 1200
  const FIRST_COOLDOWN := 10.0
  const MAX_COOLDOWN := 300.0

  function Initial(configured: int, now: real): State {
    var capacity := if configured <= 0 then DEFAULT_CAPACITY else configured;
    State(capacity, capacity as real, now, map[], map[], map[], map[], 0, 0)
  }

  /** Reading a counter of a Go map: zero when the key is missing. */
  function Counter(m: map<Endpoint, int>, endpoint: Endpoint): int {
    if endpoint in m then m[endpoint] else 0
  }

  // ----- transitions

  function Refill(s: State, now: real): State {
    var elapsed := now - s.lastRefill;
    if elapsed <= 0.0 then s
    else
      var tokens := s.tokens + Accrued(s.capacity, elapsed);
      s.(tokens := if tokens > s.capacity as real then s.capacity as real else tokens, lastRefill := now)
  }

  predicate Paused(s: State, endpoint: Endpoint, now: real) {
    endpoint in s.pausedUntil && now < s.pausedUntil[endpoint]
  }

  /** The poll finds its endpoint unpaused and enough tokens in the bucket. */
  predicate Decides(s: State, poll: Event)
    requires poll.Poll?
  {
    !Paused(s, poll.endpoint, poll.checkAt) && Refill(s, poll.refillAt).tokens >= poll.weight as real
  }

  function NextCooldown(s: State, endpoint: Endpoint): real {
    if endpoint !in s.cooldowns || s.cooldowns[endpoint] <= 0.0 then FIRST_COOLDOWN
    else
      var doubled := s.cooldowns[endpoint] * 2.0;
      if doubled > MAX_COOLDOWN then MAX_COOLDOWN else doubled
  }

  function Recorded(s: State, endpoint: Endpoint, at: real, failed: bool, status: int): State {
    var counted := s.(requests := s.requests[endpoint := Counter(s.requests, endpoint) + 1],
                      failures := if failed || status >= 400
                                  then s.failures[endpoint := Counter(s.failures, endpoint) + 1]
                                  else s.failures);
    if status != 429 then counted
    else
      var cooldown := NextCooldown(s, endpoint);
      counted.(count429 := s.count429 + 1,
               cooldowns := s.cooldowns[endpoint := cooldown],
               pausedUntil := s.pausedUntil[endpoint := at + cooldown])
  }

  function Apply(s: State, e: Event): State {
    match e
    case Observe(at) => Refill(s, at)
    case Enter => s.(queueDepth := s.queueDepth + 1)
    case Leave => s.(queueDepth := s.queueDepth - 1)
    case Poll(_, weight, refillAt, _) =>
      var refilled := Refill(s, refillAt);
      if Decides(s, e) then refilled.(tokens := refilled.tokens - weight as real) else refilled
    case Record(endpoint, at, failed, status) => Recorded(s, endpoint, at, failed, status)
  }

  function Run(s: State, es: seq<Event>): State {
    if es == [] then s else Apply(Run(s, Front(es)), Last(es))
  }

  /** The grants the bucket made in a run. */
  function Log(s: State, es: seq<Event>): seq<Grant> {
    if es == [] then []
    else
      var before := Log(s, Front(es));
      var e := Last(es);
      if e.Poll? && Decides(Run(s, Front(es)), e) then before + [Grant(e.refillAt, e.endpoint, e.weight)] else before
  }

  lemma {:induction false} RunAppend(s: State, es: seq<Event>, more: seq<Event>)
    ensures Run(s, es + more) == Run(Run(s, es), more)
  {
    if more == [] {
      assert es + more == es;
    } else {
      assert Front(es + more) == es + Front(more);
      RunAppend(s, es, Front(more));
    }
  }

  // ----- the bucket

  lemma {:induction false} BucketInvariant(s0: State, start: real, es: seq<Event>)
    requires s0.capacity > 0 && 0.0 <= s0.tokens <= s0.capacity as real && s0.lastRefill <= start
    requires WellTimed(start, es)
    ensures var s := Run(s0, es);
            && s.capacity == s0.capacity
            && 0.0 <= s.tokens <= s.capacity as real
            && s0.lastRefill <= s.lastRefill <= Clock(start, es)
            && start <= Clock(start, es)
            && (es != [] ==> Run(s0, Front(es)).lastRefill <= s.lastRefill)
  {
    hide Accrued;
    if es != [] {
      BucketInvariant(s0, start, Front(es));
      var s := Run(s0, Front(es));
      var e := Last(es);
      if e.Observe? || e.Poll? {
        var now := if e.Observe? then e.at else e.refillAt;
        if s.lastRefill < now {
          NothingAccrues(s.capacity);
          AccruedMonotone(s.capacity, 0.0, now - s.lastRefill);
        }
      }
    }
  }

  /** Refilling twice is refilling once, at the later time. */
  lemma RefillAbsorbs(s: State, mid: real, now: real)
    requires s.capacity > 0 && s.tokens <= s.capacity as real && s.lastRefill <= mid <= now
    ensures Refill(Refill(s, mid), now) == Refill(s, now)
  {
    AccruedAdds(s.capacity, mid - s.lastRefill, now - mid);
    assert mid - s.lastRefill + (now - mid) == now - s.lastRefill;
    AccruedMonotone(s.capacity, 0.0, now - mid);
    AccruedMonotone(s.capacity, 0.0, mid - s.lastRefill);
  }

  // ----- the pause

  lemma {:induction false} CooldownLaw(configured: int, start: real, es: seq<Event>, endpoint: Endpoint)
    ensures var s := Run(Initial(configured, start), es);
            var n := Count429(es, endpoint);
            if n == 0 then endpoint !in s.cooldowns && endpoint !in s.pausedUntil
            else && endpoint in s.cooldowns && s.cooldowns[endpoint] == Cooldown(n)
                 && endpoint in s.pausedUntil
  {
    if es != [] {
      CooldownLaw(configured, start, Front(es), endpoint);
      var n := Count429(Front(es), endpoint);
      if Is429(Last(es), endpoint) && n > 0 {
        CooldownBounds(n);
      }
    }
  }

  lemma {:induction false} PauseExact(configured: int, start: real, es: seq<Event>, endpoint: Endpoint, t: real)
    requires WellTimed(start, es)
    ensures Paused(Run(Initial(configured, start), es), endpoint, t) <==> !CooledDown(es, endpoint, t)
  {
    if es != [] {
      var e := Last(es);
      PauseExact(configured, start, Front(es), endpoint, t);
      CooledDownStep(es, endpoint, t);
      if Is429(e, endpoint) {
        var n := Count429(Front(es), endpoint);
        CooldownLaw(configured, start, Front(es), endpoint);
        CooldownLaw(configured, start, es, endpoint);
        if e.at + Cooldown(n + 1) <= t {
          PausesBounded(configured, start, Front(es), endpoint);
          if n > 0 { CooldownBounds(n); }
        }
      }
    }
  }

  /** A pause ends no later than the current cooldown after the latest clock reading. */
  lemma {:induction false} PausesBounded(configured: int, start: real, es: seq<Event>, endpoint: Endpoint)
    requires WellTimed(start, es)
    ensures var s := Run(Initial(configured, start), es);
            endpoint in s.pausedUntil ==>
              && Count429(es, endpoint) > 0
              && s.pausedUntil[endpoint] <= Clock(start, es) + Cooldown(Count429(es, endpoint))
  {
    if es != [] {
      PausesBounded(configured, start, Front(es), endpoint);
      CooldownLaw(configured, start, Front(es), endpoint);
      CooldownLaw(configured, start, es, endpoint);
    }
  }

  /** A pause already set is never brought forward. */
  lemma PauseNeverShrinks(configured: int, start: real, es: seq<Event>, endpoint: Endpoint)
    requires es != [] && WellTimed(start, es)
    requires endpoint in Run(Initial(configured, start), Front(es)).pausedUntil
    ensures endpoint in Run(Initial(configured, start), es).pausedUntil
    ensures Run(Initial(configured, start), Front(es)).pausedUntil[endpoint]
         <= Run(Initial(configured, start), es).pausedUntil[endpoint]
  {
    CooldownLaw(configured, start, Front(es), endpoint);
    CooldownLaw(configured, start, es, endpoint);
    PausesBounded(configured, start, Front(es), endpoint);
    CooldownBounds(Count429(Front(es), endpoint));
  }

  // ----- exact admission

  /** The tokens a refill at time t would find. */
  function Level(s: State, t: real): real {
    Refill(s, t).tokens
  }

  predicate Takes(s: State, e: Event) {
    e.Poll? && Decides(s, e)
  }

  /** Only a granted poll changes what the bucket will hold. */
  lemma LevelUnchanged(s: State, now: real, e: Event, t: real)
    requires s.capacity > 0 && s.tokens <= s.capacity as real && s.lastRefill <= now
    requires Follows(now, e) && !Takes(s, e) && Clock(now, [e]) <= t
    ensures Level(Apply(s, e), t) == Level(s, t)
  {
    hide Accrued;
    if e.Observe? || e.Poll? {
      RefillAbsorbs(s, if e.Observe? then e.at else e.refillAt, t);
    }
  }

  /**
   The bucket holds at least x at time t exactly if x fits the full history of grants. The two definitions
   are tied together with the decisions they lead to, since each grant depends on the level before it.
   */
  lemma {:induction false} LevelExact(configured: int, start: real, es: seq<Event>, t: real, x: real)
    requires WellTimed(start, es) && Clock(start, es) <= t
    ensures var s0 := Initial(configured, start);
            && Log(s0, es) == Granted(s0.capacity, es)
            && (x <= Level(Run(s0, es), t) <==> Fits(s0.capacity, Granted(s0.capacity, es), t, x))
    decreases |es|, 0
  {
    hide Accrued, Apply, Level, Fits, Decides, Admits;
    var s0 := Initial(configured, start);
    if es == [] {
      LevelInitially(configured, start, t, x);
    } else {
      var before, e := Front(es), Last(es);
      var s := Run(s0, before);
      BucketInvariant(s0, start, before);
      ClockStep(start, es);
      if e.Poll? {
        DecisionExact(configured, start, before, e);
      }
      if Takes(s, e) {
        var g := Grant(e.refillAt, e.endpoint, e.weight);
        LevelAfterGrant(s, e, t, x);
        FitsAppend(s0.capacity, Granted(s0.capacity, before), g, t, x);
        LevelExact(configured, start, before, e.refillAt, x + e.weight as real - Accrued(s0.capacity, t - e.refillAt));
      } else {
        LevelUnchanged(s, Clock(start, before), e, t);
        LevelExact(configured, start, before, t, x);
      }
    }
  }

  lemma LevelInitially(configured: int, start: real, t: real, x: real)
    requires start <= t
    ensures var s0 := Initial(configured, start);
            x <= Level(s0, t) <==> Fits(s0.capacity, [], t, x)
  {
    hide Accrued;
    NothingAccrues(Initial(configured, start).capacity);
    AccruedMonotone(Initial(configured, start).capacity, 0.0, t - start);
  }

  lemma ClockStep(start: real, es: seq<Event>)
    requires es != []
    ensures Clock(start, es) == Clock(Clock(start, Front(es)), [Last(es)])
  {
    assert Front([Last(es)]) == [];
  }

  /** A granted poll leaves x at time t exactly if the bucket held x and the weight, less what has accrued since. */
  lemma LevelAfterGrant(s: State, poll: Event, t: real, x: real)
    requires poll.Poll? && Decides(s, poll) && poll.weight > 0
    requires s.capacity > 0 && s.tokens <= s.capacity as real && s.lastRefill <= poll.refillAt <= t
    ensures x <= Level(Apply(s, poll), t)
       <==> && x <= s.capacity as real
            && x + poll.weight as real - Accrued(s.capacity, t - poll.refillAt) <= Level(s, poll.refillAt)
  {
    hide Accrued;
    AccruedMonotone(s.capacity, 0.0, t - poll.refillAt);
    NothingAccrues(s.capacity);
    assert Apply(s, poll).lastRefill == poll.refillAt;
  }

  /**
   Exact admission: after any run, a poll is granted exactly if every earlier 429 of its endpoint has cooled
   down and its weight fits the full history of grants.
   */
  lemma {:induction false} DecisionExact(configured: int, start: real, es: seq<Event>, poll: Event)
    requires WellTimed(start, es) && poll.Poll? && Follows(Clock(start, es), poll)
    ensures var s0 := Initial(configured, start);
            Decides(Run(s0, es), poll) <==> Admits(s0.capacity, es, poll)
    decreases |es|, 1
  {
    PauseExact(configured, start, es, poll.endpoint, poll.checkAt);
    LevelExact(configured, start, es, poll.refillAt, poll.weight as real);
  }

  // ----- the window bound

  ghost predicate Sorted(gs: seq<Grant>) {
    forall i, j | 0 <= i < j < |gs| :: gs[i].at <= gs[j].at
  }

  lemma {:induction false} LogShape(s0: State, start: real, es: seq<Event>)
    requires WellTimed(start, es)
    ensures start <= Clock(start, es)
    ensures Sorted(Log(s0, es))
    ensures forall g | g in Log(s0, es) :: start <= g.at <= Clock(start, es) && g.weight > 0
  {
    if es != [] {
      LogShape(s0, start, Front(es));
    }
  }

  /** In a sorted log that ends by time b, the weight from a on is that of a suffix which starts no earlier than a. */
  lemma WithinIsSuffix(gs: seq<Grant>, a: real, b: real) returns (i: nat)
    requires Sorted(gs) && forall g | g in gs :: g.at <= b
    ensures i <= |gs| && WeightWithin(gs, a, b) == Total(gs[i..]) && (i < |gs| ==> a <= gs[i].at)
  {
    if gs == [] {
      i := 0;
    } else {
      var j := WithinIsSuffix(Front(gs), a, b);
      if Last(gs).at < a {
        i := |gs|;
      } else {
        i := j;
        assert gs == Front(gs) + [Last(gs)];
        TotalAppend(Front(gs), Last(gs), j);
      }
    }
  }

  /** A poll that is granted completes no burst beyond its bound. */
  lemma GrantedBurstFits(capacity: int, gs: seq<Grant>, g: Grant, i: nat)
    requires Fits(capacity, gs, g.at, g.weight as real) && i <= |gs|
    ensures BurstFits(capacity, gs + [g], i, g.at, 0.0)
  {
    if i < |gs| {
      assert BurstFits(capacity, gs, i, g.at, g.weight as real);
      BurstFitsAppend(capacity, gs, g, i, g.at, 0.0);
    } else {
      LastBurstFits(capacity, gs, g, g.at, 0.0);
    }
  }

  lemma SortedAppend(gs: seq<Grant>, g: Grant)
    requires Sorted(gs) && forall h | h in gs :: h.at <= g.at
    ensures Sorted(gs + [g]) && forall h | h in gs + [g] :: h.at <= g.at
  {
  }

  lemma SuffixWithinWindow(capacity: int, hs: seq<Grant>, i: nat, t: real, a: real, b: real)
    requires capacity > 0 && i < |hs| && a <= hs[i].at && t <= b
    requires BurstFits(capacity, hs, i, t, 0.0)
    ensures Total(hs[i..]) <= capacity as real + Accrued(capacity, b - a)
  {
    hide Accrued;
    AccruedMonotone(capacity, t - hs[i].at, b - a);
  }

  /** A poll granted within a window leaves the window within its bound. */
  lemma GrantWithinWindow(capacity: int, gs: seq<Grant>, g: Grant, a: real, b: real)
    requires capacity > 0 && a <= g.at <= b
    requires Sorted(gs) && forall h | h in gs :: h.at <= g.at
    requires Fits(capacity, gs, g.at, g.weight as real)
    ensures WeightWithin(gs + [g], a, b) <= capacity as real + Accrued(capacity, b - a)
  {
    hide Accrued, Fits, BurstFits, Sorted, WeightWithin;
    var hs := gs + [g];
    SortedAppend(gs, g);
    var i := WithinIsSuffix(hs, a, b);
    if i < |hs| {
      GrantedBurstFits(capacity, gs, g, i);
      SuffixWithinWindow(capacity, hs, i, g.at, a, b);
    } else {
      assert hs[i..] == [];
      NothingAccrues(capacity);
      AccruedMonotone(capacity, 0.0, b - a);
    }
  }

  /** In every run and every interval, the weight granted is at most the capacity plus what accrues in the interval. */
  lemma {:induction false} WindowBound(configured: int, start: real, es: seq<Event>, a: real, b: real)
    requires WellTimed(start, es) && a <= b
    ensures var s0 := Initial(configured, start);
            WeightWithin(Log(s0, es), a, b) <= s0.capacity as real + Accrued(s0.capacity, b - a)
  {
    var s0 := Initial(configured, start);
    if es == [] {
      AccruedMonotone(s0.capacity, 0.0, b - a);
    } else {
      WindowBound(configured, start, Front(es), a, b);
      var e, gs := Last(es), Log(s0, Front(es));
      if e.Poll? && Decides(Run(s0, Front(es)), e) && a <= e.refillAt <= b {
        DecisionExact(configured, start, Front(es), e);
        LevelExact(configured, start, Front(es), e.refillAt, e.weight as real);
        LogShape(s0, start, Front(es));
        GrantWithinWindow(s0.capacity, gs, Grant(e.refillAt, e.endpoint, e.weight), a, b);
      }
    }
  }

  // ----- observers

  /** Budget, Metrics and polls that are turned away. */
  predicate Observation(s: State, e: Event) {
    e.Observe? || (e.Poll? && !Decides(s, e))
  }

  /** The run without its observations. */
  function Quiet(s: State, es: seq<Event>): seq<Event> {
    if es == [] then []
    else
      var before := Quiet(s, Front(es));
      if Observation(Run(s, Front(es)), Last(es)) then before else before + [Last(es)]
  }

  /** From time now on the two limiters cannot be told apart. */
  ghost predicate SameFuture(s: State, r: State, now: real) {
    && s.lastRefill <= now && r.lastRefill <= now
    && Refill(s, now).tokens == Refill(r, now).tokens
    && s == r.(tokens := s.tokens, lastRefill := s.lastRefill)
  }

  /** What s holds at now determines what it holds later. */
  lemma SameFutureLater(s: State, r: State, now: real, later: real)
    requires s.capacity > 0 && s.tokens <= s.capacity as real && r.tokens <= r.capacity as real
    requires SameFuture(s, r, now) && now <= later
    ensures SameFuture(s, r, later)
  {
    RefillAbsorbs(s, now, later);
    RefillAbsorbs(r, now, later);
  }

  /**
   Observer transparency: a run with any number of observations anywhere in it, and the same run without
   them, make the same grants and leave limiters that answer every later poll alike.
   */
  lemma {:induction false} ObserversChangeNothing(s0: State, start: real, es: seq<Event>)
    requires s0.capacity > 0 && 0.0 <= s0.tokens <= s0.capacity as real && s0.lastRefill <= start
    requires WellTimed(start, es)
    ensures WellTimed(start, Quiet(s0, es)) && Clock(start, Quiet(s0, es)) <= Clock(start, es)
    ensures Log(s0, Quiet(s0, es)) == Log(s0, es)
    ensures SameFuture(Run(s0, es), Run(s0, Quiet(s0, es)), Clock(start, es))
    ensures forall poll: Event | poll.Poll? && Follows(Clock(start, es), poll) ::
              Decides(Run(s0, es), poll) <==> Decides(Run(s0, Quiet(s0, es)), poll)
  {
    BucketInvariant(s0, start, es);
    if es != [] {
      ObserversChangeNothing(s0, start, Front(es));
      QuietStep(s0, start, es);
    }
    var s, r, now := Run(s0, es), Run(s0, Quiet(s0, es)), Clock(start, es);
    BucketInvariant(s0, start, Quiet(s0, es));
    forall poll: Event | poll.Poll? && Follows(now, poll) ensures Decides(s, poll) <==> Decides(r, poll) {
      SameFutureLater(s, r, now, poll.refillAt);
    }
  }

  lemma SameFutureRefills(s: State, r: State, now: real, at: real)
    requires s.capacity > 0 && s.tokens <= s.capacity as real && r.tokens <= r.capacity as real
    requires SameFuture(s, r, now) && now <= at
    ensures Refill(s, at) == Refill(r, at)
  {
    SameFutureLater(s, r, now, at);
  }

  /** Refilling one of two limiters with equal futures leaves their futures equal. */
  lemma SameFutureRefilled(s: State, r: State, now: real, at: real, later: real)
    requires s.capacity > 0 && s.tokens <= s.capacity as real && r.tokens <= r.capacity as real
    requires SameFuture(s, r, now) && now <= at <= later
    ensures SameFuture(Refill(s, at), r, later)
  {
    SameFutureLater(s, r, now, later);
    RefillAbsorbs(s, at, later);
  }

  lemma SameFutureSelf(s: State, now: real)
    requires s.lastRefill <= now
    ensures SameFuture(s, s, now)
  {
  }

  lemma SameFuturePoll(s: State, r: State, now: real, poll: Event)
    requires s.capacity > 0 && 0.0 <= s.tokens <= s.capacity as real && r.tokens <= r.capacity as real
    requires SameFuture(s, r, now) && poll.Poll? && Follows(now, poll)
    ensures Decides(s, poll) <==> Decides(r, poll)
    ensures SameFuture(Apply(s, poll), Apply(r, poll), poll.checkAt)
    ensures !Decides(s, poll) ==> SameFuture(Apply(s, poll), r, poll.checkAt)
  {
    SameFutureRefills(s, r, now, poll.refillAt);
    SameFutureSelf(Apply(s, poll), poll.checkAt);
    SameFutureRefilled(s, r, now, poll.refillAt, poll.checkAt);
  }

  /** A record neither reads nor changes the bucket. */
  lemma RecordKeepsBucket(s: State, r: State, e: Event)
    requires e.Record? && s == r.(tokens := s.tokens, lastRefill := s.lastRefill)
    ensures Apply(s, e) == Apply(r, e).(tokens := s.tokens, lastRefill := s.lastRefill)
    ensures Apply(s, e).tokens == s.tokens && Apply(s, e).lastRefill == s.lastRefill
    ensures Apply(s, e).capacity == s.capacity
    ensures Apply(r, e).tokens == r.tokens && Apply(r, e).lastRefill == r.lastRefill
    ensures Apply(r, e).capacity == r.capacity
  {
  }

  lemma SameFutureRecord(s: State, r: State, now: real, e: Event)
    requires s.capacity > 0 && s.tokens <= s.capacity as real && r.tokens <= r.capacity as real
    requires SameFuture(s, r, now) && e.Record? && Follows(now, e)
    ensures SameFuture(Apply(s, e), Apply(r, e), e.at)
  {
    hide Apply;
    SameFutureLater(s, r, now, e.at);
    RecordKeepsBucket(s, r, e);
  }

  /** Equal futures stay equal when both limiters see the event, and when only one sees an observation. */
  lemma SameFutureStep(s: State, r: State, now: real, e: Event)
    requires s.capacity > 0 && 0.0 <= s.tokens <= s.capacity as real && r.tokens <= r.capacity as real
    requires SameFuture(s, r, now) && Follows(now, e)
    ensures e.Poll? ==> (Decides(s, e) <==> Decides(r, e))
    ensures SameFuture(Apply(s, e), Apply(r, e), Clock(now, [e]))
    ensures Observation(s, e) ==> SameFuture(Apply(s, e), r, Clock(now, [e]))
  {
    match e {
      case Observe(at) =>
        SameFutureRefills(s, r, now, at);
        SameFutureSelf(Apply(s, e), at);
        SameFutureRefilled(s, r, now, at, at);
      case Poll(_, _, _, _) =>
        SameFuturePoll(s, r, now, e);
      case Record(_, _, _, _) =>
        SameFutureRecord(s, r, now, e);
      case _ =>
        assert Clock(now, [e]) == Clock(now, []);
    }
  }

  lemma QuietStep(s0: State, start: real, es: seq<Event>)
    requires s0.capacity > 0 && 0.0 <= s0.tokens <= s0.capacity as real && s0.lastRefill <= start
    requires es != [] && WellTimed(start, es)
    requires WellTimed(start, Quiet(s0, Front(es))) && Clock(start, Quiet(s0, Front(es))) <= Clock(start, Front(es))
    requires Log(s0, Quiet(s0, Front(es))) == Log(s0, Front(es))
    requires SameFuture(Run(s0, Front(es)), Run(s0, Quiet(s0, Front(es))), Clock(start, Front(es)))
    ensures WellTimed(start, Quiet(s0, es)) && Clock(start, Quiet(s0, es)) <= Clock(start, es)
    ensures Log(s0, Quiet(s0, es)) == Log(s0, es)
    ensures SameFuture(Run(s0, es), Run(s0, Quiet(s0, es)), Clock(start, es))
  {
    var quiet, e := Quiet(s0, Front(es)), Last(es);
    var s := Run(s0, Front(es));
    BucketInvariant(s0, start, Front(es));
    BucketInvariant(s0, start, quiet);
    BucketInvariant(s0, start, es);
    SameFutureStep(s, Run(s0, quiet), Clock(start, Front(es)), e);
    ClockStep(start, es);
    if !Observation(s, e) {
      var longer := quiet + [e];
      assert Quiet(s0, es) == longer && Front(longer) == quiet && Last(longer) == e;
      ClockStep(start, longer);
    }
  }

  // ----- waiting

  /** While nobody is granted anything, the level at a later time is that of the state waited from. */
  lemma {:induction false} LevelWithoutGrants(s: State, start: real, es: seq<Event>, t: real)
    requires s.capacity > 0 && 0.0 <= s.tokens <= s.capacity as real && s.lastRefill <= start
    requires WellTimed(start, es) && Log(s, es) == [] && Clock(start, es) <= t
    ensures Level(Run(s, es), t) == Level(s, t)
  {
    hide Accrued, Apply, Level, Decides;
    if es != [] {
      BucketInvariant(s, start, Front(es));
      ClockStep(start, es);
      LevelUnchanged(Run(s, Front(es)), Clock(start, Front(es)), Last(es), t);
      LevelWithoutGrants(s, start, Front(es), t);
    }
  }

  /** While an endpoint receives no 429, its pause is that of the state waited from. */
  lemma {:induction false} PauseWithout429(s: State, es: seq<Event>, endpoint: Endpoint, t: real)
    requires Count429(es, endpoint) == 0
    ensures Paused(Run(s, es), endpoint, t) <==> Paused(s, endpoint, t)
  {
    if es != [] {
      PauseWithout429(s, Front(es), endpoint, t);
    }
  }

  /** The earliest time at which the bucket, left alone, holds the weight. */
  function ReadyAt(s: State, weight: int): real
    requires s.capacity > 0
  {
    if weight as real <= s.tokens then s.lastRefill
    else s.lastRefill + (weight as real - s.tokens) * 60.0 / s.capacity as real
  }

  lemma ReadyExact(s: State, weight: int, t: real)
    requires s.capacity > 0 && s.tokens <= s.capacity as real && s.lastRefill <= t
    requires weight <= s.capacity
    ensures weight as real <= Level(s, t) <==> ReadyAt(s, weight) <= t
  {
    var c, deficit := s.capacity as real, weight as real - s.tokens;
    var elapsed := t - s.lastRefill;
    AccruedMonotone(s.capacity, 0.0, elapsed);
    assert deficit <= elapsed * c / 60.0 <==> deficit * 60.0 / c <= elapsed by {
      if deficit * 60.0 / c <= elapsed {
        assert deficit * 60.0 / c * c <= elapsed * c;
        assert deficit * 60.0 <= elapsed * c;
      } else {
        assert deficit * 60.0 / c * c > elapsed * c;
        assert deficit * 60.0 > elapsed * c;
      }
    }
  }

  /** However empty the bucket, a weight within the capacity is there after the time it takes to accrue. */
  lemma ReadyWithin(s: State, weight: int)
    requires s.capacity > 0 && 0.0 <= s.tokens && weight >= 0
    ensures ReadyAt(s, weight) <= s.lastRefill + weight as real * 60.0 / s.capacity as real
  {
    var c := s.capacity as real;
    if weight as real > s.tokens {
      assert (weight as real - s.tokens) * 60.0 / c == weight as real * 60.0 / c - s.tokens * 60.0 / c;
      assert s.tokens * 60.0 / c >= 0.0;
    } else {
      assert weight as real * 60.0 / c >= 0.0;
    }
  }

  // ----- counters

  function Records(es: seq<Event>, endpoint: Endpoint): nat {
    if es == [] then 0
    else Records(Front(es), endpoint) + if Last(es).Record? && Last(es).endpoint == endpoint then 1 else 0
  }

  function Failures(es: seq<Event>, endpoint: Endpoint): nat {
    if es == [] then 0
    else
      var e := Last(es);
      Failures(Front(es), endpoint)
      + if e.Record? && e.endpoint == endpoint && (e.failed || e.status >= 400) then 1 else 0
  }

  function Sum429(es: seq<Event>, endpoints: seq<Endpoint>): nat {
    if endpoints == [] then 0 else Sum429(es, Front(endpoints)) + Count429(es, Last(endpoints))
  }

  lemma {:induction false} Sum429Step(es: seq<Event>, endpoints: seq<Endpoint>)
    requires es != []
    requires forall i, j | 0 <= i < j < |endpoints| :: endpoints[i] != endpoints[j]
    ensures var e := Last(es);
            Sum429(es, endpoints) == Sum429(Front(es), endpoints)
                                     + if e.Record? && e.status == 429 && e.endpoint in endpoints then 1 else 0
  {
    if endpoints != [] {
      Sum429Step(es, Front(endpoints));
      assert endpoints == Front(endpoints) + [Last(endpoints)];
    }
  }

  lemma CountersStep(s: State, e: Event, endpoint: Endpoint)
    ensures var counted := e.Record? && e.endpoint == endpoint;
            && Counter(Apply(s, e).requests, endpoint) == Counter(s.requests, endpoint) + (if counted then 1 else 0)
            && Counter(Apply(s, e).failures, endpoint)
               == Counter(s.failures, endpoint) + (if counted && (e.failed || e.status >= 400) then 1 else 0)
  {
    hide NextCooldown, Accrued;
  }

  /** The counters of an endpoint are what their names say. */
  lemma {:induction false} CountersExact(configured: int, start: real, es: seq<Event>, endpoint: Endpoint)
    ensures var s := Run(Initial(configured, start), es);
            && Counter(s.requests, endpoint) == Records(es, endpoint)
            && Counter(s.failures, endpoint) == Failures(es, endpoint)
  {
    hide Apply;
    if es != [] {
      CountersExact(configured, start, Front(es), endpoint);
      CountersStep(Run(Initial(configured, start), Front(es)), Last(es), endpoint);
    }
  }

  /** count429 is the sum of the per-endpoint counts, over any endpoints that include all those recorded. */
  lemma {:induction false} Count429IsSum(configured: int, start: real, es: seq<Event>, endpoints: seq<Endpoint>)
    requires forall i, j | 0 <= i < j < |endpoints| :: endpoints[i] != endpoints[j]
    requires forall e | e in es && e.Record? :: e.endpoint in endpoints
    ensures Run(Initial(configured, start), es).count429 == Sum429(es, endpoints)
  {
    if es == [] {
      SumOfNone(endpoints);
    } else {
      assert forall e | e in Front(es) :: e in es;
      Count429IsSum(configured, start, Front(es), endpoints);
      Sum429Step(es, endpoints);
      assert Last(es) in es;
    }
  }

  lemma {:induction false} SumOfNone(endpoints: seq<Endpoint>)
    ensures Sum429([], endpoints) == 0
  {
    if endpoints != [] { SumOfNone(Front(endpoints)); }
  }
}
