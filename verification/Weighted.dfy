/**
 The limiter as the program holds it: an object whose fields are updated in place under a mutex, and the
 polling loop of Wait.

 The clock and the other callers are parameters. A Turn of the loop of Wait says which critical sections
 other callers run before it, what the two clock readings are, and whether the context is found cancelled.
 */
module WeightedLimiter {
  import opened Sequences
  import opened LimiterHistory
  import opened Limiter

  datatype Turn = Turn(others: seq<Event>, refillAt: real, checkAt: real, cancelled: bool)

  datatype WaitResult =
    | Granted(turn: nat)   // the index of the turn that took the tokens
    | Deferred             // a non-critical call met a low budget
    | Cancelled
    | Pending              // still polling when the turns run out

  const DEFAULT_WEIGHT := 20

  function WeightOf(weights: map<Endpoint, int>, endpoint: Endpoint, additional: int): int {
    var base := Counter(weights, endpoint);
    (if base <= 0 then DEFAULT_WEIGHT else base) + if additional < 0 then 0 else additional
  }

  /** The budget at or below which non-critical calls are deferred: 8% of the capacity, rounded up. */
  function Reserve(capacity: int): int {
    -((-(capacity as real * 0.08)).Floor)
  }

  function WaitLoop(s: State, endpoint: Endpoint, weight: int, turns: seq<Turn>, done: nat): (State, WaitResult)
    decreases |turns|
  {
    if turns == [] then (s, Pending)
    else
      var turn := turns[0];
      var met := Run(s, turn.others);
      var poll := Poll(endpoint, weight, turn.refillAt, turn.checkAt);
      if Decides(met, poll) then (Apply(met, poll), Granted(done))
      else if turn.cancelled then (Apply(met, poll), Cancelled)
      else WaitLoop(Apply(met, poll), endpoint, weight, turns[1..], done + 1)
  }

  function Waited(s: State, endpoint: Endpoint, weight: int, turns: seq<Turn>): (State, WaitResult) {
    var (after, result) := WaitLoop(Apply(s, Enter), endpoint, weight, turns, 0);
    (if result.Pending? then after else Apply(after, Leave), result)
  }

  /** A call of Wait: a critical call queues at once, any other only if the budget is above the reserve. */
  function Called(s: State, endpoint: Endpoint, weight: int, critical: bool, budgetAt: real, turns: seq<Turn>)
    : (State, WaitResult)
  {
    var asked := if critical then s else Refill(s, budgetAt);
    if !critical && asked.tokens.Floor <= Reserve(s.capacity) then (asked, Deferred)
    else Waited(asked, endpoint, weight, turns)
  }

  class Weighted {
    const capacity: int
    const weights: map<Endpoint, int>
    var tokens: real
    var lastRefill: real
    var requests: map<Endpoint, int>
    var failures: map<Endpoint, int>
    var pausedUntil: map<Endpoint, real>
    var cooldowns: map<Endpoint, real>
    var queueDepth: int
    var count429: int

    function View(): State
      reads this
    {
      State(capacity, tokens, lastRefill, requests, failures, pausedUntil, cooldowns, queueDepth, count429)
    }

    constructor (capacityPerMinute: int, endpointWeights: map<Endpoint, int>, now: real)
      ensures View() == Initial(capacityPerMinute, now) && weights == endpointWeights
      ensures capacity == (if capacityPerMinute <= 0 then 1200 else capacityPerMinute) && tokens == capacity as real
      ensures lastRefill == now && requests == failures == map[] && pausedUntil == cooldowns == map[]
      ensures queueDepth == 0 == count429
    {
      capacity := if capacityPerMinute <= 0 then DEFAULT_CAPACITY else capacityPerMinute;
      weights := endpointWeights;
      tokens := (if capacityPerMinute <= 0 then DEFAULT_CAPACITY else capacityPerMinute) as real;
      lastRefill := now;
      requests, failures, pausedUntil, cooldowns := map[], map[], map[], map[];
      queueDepth, count429 := 0, 0;
    }

    method Weight(endpoint: Endpoint, additional: int) returns (weight: int)
      ensures weight == WeightOf(weights, endpoint, additional) && weight > 0
    {
      var base := Counter(weights, endpoint);
      if base <= 0 {
        base := DEFAULT_WEIGHT;
      }
      var extra := additional;
      if extra < 0 {
        extra := 0;
      }
      weight := base + extra;
    }

    method RefillLocked(now: real)
      modifies `tokens, `lastRefill
      ensures View() == Refill(old(View()), now)
    {
      var elapsed := now - lastRefill;
      if elapsed <= 0.0 {
        return;
      }
      tokens := tokens + Accrued(capacity, elapsed);
      if tokens > capacity as real {
        tokens := capacity as real;
      }
      lastRefill := now;
    }

    /** One turn of the loop of Wait: the critical section that refills, checks the pause and takes the tokens. */
    method Poll(endpoint: Endpoint, weight: int, refillAt: real, checkAt: real) returns (granted: bool)
      modifies `tokens, `lastRefill
      ensures var poll := Event.Poll(endpoint, weight, refillAt, checkAt);
              View() == Apply(old(View()), poll) && granted == Decides(old(View()), poll)
    {
      RefillLocked(refillAt);
      if endpoint in pausedUntil && checkAt < pausedUntil[endpoint] {
        return false;
      }
      if tokens >= weight as real {
        tokens := tokens - weight as real;
        return true;
      }
      return false;
    }

    method Record(endpoint: Endpoint, at: real, failed: bool, status: int)
      modifies `requests, `failures, `count429, `cooldowns, `pausedUntil
      ensures View() == Apply(old(View()), Event.Record(endpoint, at, failed, status))
    {
      hide Refill, Decides;
      requests := requests[endpoint := Counter(requests, endpoint) + 1];
      if failed || status >= 400 {
        failures := failures[endpoint := Counter(failures, endpoint) + 1];
      }
      if status == 429 {
        count429 := count429 + 1;
        var cooldown := if endpoint in cooldowns then cooldowns[endpoint] else 0.0;
        if cooldown <= 0.0 {
          cooldown := FIRST_COOLDOWN;
        } else {
          cooldown := cooldown * 2.0;
          if cooldown > MAX_COOLDOWN {
            cooldown := MAX_COOLDOWN;
          }
        }
        cooldowns := cooldowns[endpoint := cooldown];
        pausedUntil := pausedUntil[endpoint := at + cooldown];
      }
    }

    method Budget(now: real) returns (budget: int)
      modifies `tokens, `lastRefill
      ensures View() == Apply(old(View()), Observe(now)) && budget == tokens.Floor
    {
      RefillLocked(now);
      budget := tokens.Floor;
    }

    /** The counters and the endpoints that are paused, as the metrics report them; like Budget, this only refills. */
    method Metrics(now: real, listAt: real)
      returns (paused: set<Endpoint>, budget: int, depth: int, sent: map<Endpoint, int>, failed: map<Endpoint, int>,
               limited: int)
      modifies `tokens, `lastRefill
      ensures View() == Apply(old(View()), Observe(now)) && budget == tokens.Floor && depth == queueDepth
      ensures sent == requests && failed == failures && limited == count429
      ensures forall endpoint :: endpoint in paused <==> Paused(View(), endpoint, listAt)
    {
      RefillLocked(now);
      paused := set endpoint | endpoint in pausedUntil && listAt < pausedUntil[endpoint];
      budget := tokens.Floor;
      depth := queueDepth;
      sent, failed, limited := requests, failures, count429;
    }

    /** A critical section of another caller. */
    method Perform(e: Event)
      modifies this
      ensures View() == Apply(old(View()), e)
    {
      match e {
        case Observe(at) =>
          var _ := Budget(at);
        case Enter =>
          queueDepth := queueDepth + 1;
        case Leave =>
          queueDepth := queueDepth - 1;
        case Poll(endpoint, weight, refillAt, checkAt) =>
          var _ := Poll(endpoint, weight, refillAt, checkAt);
        case Record(endpoint, at, failed, status) =>
          Record(endpoint, at, failed, status);
      }
    }

    method PerformAll(es: seq<Event>)
      modifies this
      ensures View() == Run(old(View()), es)
    {
      ghost var s := View();
      for i := 0 to |es|
        invariant View() == Run(s, es[..i])
      {
        assert Front(es[..i + 1]) == es[..i];
        Perform(es[i]);
      }
      assert es[..|es|] == es;
    }

    /** The polling loop of Wait, between its two updates of the queue depth. */
    method PollUntil(endpoint: Endpoint, weight: int, turns: seq<Turn>) returns (result: WaitResult)
      modifies this
      ensures (View(), result) == WaitLoop(old(View()), endpoint, weight, turns, 0)
    {
      var k := 0;
      while k < |turns|
        invariant 0 <= k <= |turns|
        invariant WaitLoop(View(), endpoint, weight, turns[k..], k) == WaitLoop(old(View()), endpoint, weight, turns, 0)
      {
        ghost var before := View();
        var turn := turns[k];
        assert turns[k..][0] == turn && turns[k..][1..] == turns[k + 1..];
        PerformAll(turn.others);
        var granted := Poll(endpoint, weight, turn.refillAt, turn.checkAt);
        WaitLoopStep(before, endpoint, weight, turns[k..], k);
        if granted {
          return Granted(k);
        }
        if turn.cancelled {
          return Cancelled;
        }
        k := k + 1;
      }
      return Pending;
    }

    method Wait(endpoint: Endpoint, weight: int, critical: bool, budgetAt: real, turns: seq<Turn>)
      returns (result: WaitResult)
      modifies this
      ensures var w := if weight <= 0 then WeightOf(weights, endpoint, 0) else weight;
              (View(), result) == Called(old(View()), endpoint, w, critical, budgetAt, turns)
    {
      var w := weight;
      if w <= 0 {
        w := Weight(endpoint, 0);
      }
      if !critical {
        var budget := Budget(budgetAt);
        if budget <= Reserve(capacity) {
          return Deferred;
        }
      }
      queueDepth := queueDepth + 1;
      result := PollUntil(endpoint, w, turns);
      if result != Pending {
        queueDepth := queueDepth - 1;
      }
    }
  }

  lemma WaitLoopStep(s: State, endpoint: Endpoint, weight: int, turns: seq<Turn>, done: nat)
    requires turns != []
    ensures var met := Run(s, turns[0].others);
            var poll := Event.Poll(endpoint, weight, turns[0].refillAt, turns[0].checkAt);
            WaitLoop(s, endpoint, weight, turns, done)
            == if Decides(met, poll) then (Apply(met, poll), Granted(done))
               else if turns[0].cancelled then (Apply(met, poll), Cancelled)
               else WaitLoop(Apply(met, poll), endpoint, weight, turns[1..], done + 1)
  {
  }

  // ----- bounded waiting

  predicate Sound(s: State, now: real) {
    s.capacity > 0 && 0.0 <= s.tokens <= s.capacity as real && s.lastRefill <= now
  }

  /** The readings of the turns are in order and the other callers only do what well-timed callers do. */
  predicate TurnsTimed(now: real, endpoint: Endpoint, weight: int, turns: seq<Turn>)
    decreases |turns|
  {
    turns == []
    || (&& WellTimed(now, turns[0].others)
        && Follows(Clock(now, turns[0].others), Poll(endpoint, weight, turns[0].refillAt, turns[0].checkAt))
        && TurnsTimed(turns[0].checkAt, endpoint, weight, turns[1..]))
  }

  /** Up to turn j no other caller is granted anything and the endpoint receives no 429. */
  predicate Undisturbed(s: State, endpoint: Endpoint, weight: int, turns: seq<Turn>, j: nat)
    decreases |turns|
  {
    turns == []
    || (&& Log(s, turns[0].others) == []
        && Count429(turns[0].others, endpoint) == 0
        && (j > 0 ==> Undisturbed(Apply(Run(s, turns[0].others),
                                        Poll(endpoint, weight, turns[0].refillAt, turns[0].checkAt)),
                                  endpoint, weight, turns[1..], j - 1)))
  }

  /** The turn polls after the weight has accrued in s and after the pause of s is over. */
  predicate Due(s: State, endpoint: Endpoint, weight: int, turn: Turn)
    requires s.capacity > 0
  {
    ReadyAt(s, weight) <= turn.refillAt && !Paused(s, endpoint, turn.checkAt)
  }

  lemma UndisturbedTurn(s: State, now: real, endpoint: Endpoint, weight: int, turn: Turn, t: real, at: real)
    requires Sound(s, now) && weight <= s.capacity
    requires TurnsTimed(now, endpoint, weight, [turn])
    requires Log(s, turn.others) == [] && Count429(turn.others, endpoint) == 0
    requires turn.refillAt <= t
    ensures var met := Run(s, turn.others);
            var poll := Poll(endpoint, weight, turn.refillAt, turn.checkAt);
            var after := Apply(met, poll);
            && (Decides(met, poll) <==> Due(s, endpoint, weight, turn))
            && Sound(after, turn.checkAt) && after.capacity == s.capacity
            && (!Decides(met, poll) ==>
                  && (ReadyAt(s, weight) <= t <==> ReadyAt(after, weight) <= t)
                  && (Paused(s, endpoint, at) <==> Paused(after, endpoint, at)))
  {
    var others := turn.others;
    var met := Run(s, others);
    var poll := Poll(endpoint, weight, turn.refillAt, turn.checkAt);
    BucketInvariant(s, now, others);
    PauseWithout429(s, others, endpoint, turn.checkAt);
    PauseWithout429(s, others, endpoint, at);
    LevelWithoutGrants(s, now, others, turn.refillAt);
    LevelWithoutGrants(s, now, others, t);
    ReadyExact(s, weight, turn.refillAt);
    ReadyExact(s, weight, t);
    assert Front(others + [poll]) == others && WellTimed(now, others + [poll]);
    BucketInvariant(s, now, others + [poll]);
    if !Decides(met, poll) {
      RefillAbsorbs(met, turn.refillAt, t);
      ReadyExact(Apply(met, poll), weight, t);
    }
  }

  /**
   A call of Wait whose weight is within the capacity, left undisturbed and not cancelled, is granted at the
   first turn that polls when the weight has accrued and the pause is over, and at no turn before it.
   */
  lemma {:induction false} GrantedWhenFirstDue(s: State, now: real, endpoint: Endpoint, weight: int, turns: seq<Turn>,
                                               done: nat, j: nat)
    requires Sound(s, now) && weight <= s.capacity
    requires j < |turns| && TurnsTimed(now, endpoint, weight, turns) && Undisturbed(s, endpoint, weight, turns, j)
    requires forall k | 0 <= k < j :: !turns[k].cancelled && !Due(s, endpoint, weight, turns[k])
    requires Due(s, endpoint, weight, turns[j])
    ensures WaitLoop(s, endpoint, weight, turns, done).1 == Granted(done + j)
    decreases j
  {
    var turn, rest := turns[0], turns[1..];
    UndisturbedTurn(s, now, endpoint, weight, turn, turn.refillAt, turn.checkAt);
    if j > 0 {
      var after := Apply(Run(s, turn.others), Poll(endpoint, weight, turn.refillAt, turn.checkAt));
      assert !Due(s, endpoint, weight, turn);
      forall k | 0 <= k < j
        ensures rest[k] == turns[k + 1]
        ensures Due(s, endpoint, weight, rest[k]) <==> Due(after, endpoint, weight, rest[k])
      {
        TurnsInOrder(now, endpoint, weight, turns, k + 1);
        UndisturbedTurn(s, now, endpoint, weight, turn, turns[k + 1].refillAt, turns[k + 1].checkAt);
      }
      GrantedWhenFirstDue(after, turn.checkAt, endpoint, weight, rest, done + 1, j - 1);
    }
  }

  lemma {:induction false} TurnsInOrder(now: real, endpoint: Endpoint, weight: int, turns: seq<Turn>, k: nat)
    requires TurnsTimed(now, endpoint, weight, turns) && k < |turns|
    ensures turns[0].refillAt <= turns[k].refillAt
    decreases k
  {
    if k > 0 {
      LogShape(Initial(1, 0.0), turns[0].checkAt, turns[1].others);
      TurnsInOrder(turns[0].checkAt, endpoint, weight, turns[1..], k - 1);
    }
  }

  lemma {:induction false} UndisturbedEarlier(s: State, endpoint: Endpoint, weight: int, turns: seq<Turn>,
                                              j: nat, k: nat)
    requires Undisturbed(s, endpoint, weight, turns, j) && k <= j
    ensures Undisturbed(s, endpoint, weight, turns, k)
    decreases k
  {
    if turns != [] && k > 0 {
      var after := Apply(Run(s, turns[0].others), Event.Poll(endpoint, weight, turns[0].refillAt, turns[0].checkAt));
      UndisturbedEarlier(after, endpoint, weight, turns[1..], j - 1, k - 1);
    }
  }

  /**
   Bounded waiting: however empty the bucket was at time now, a call of Wait within the capacity that is left
   undisturbed and not cancelled has been granted by the first turn that polls no earlier than 60 w / C seconds
   after now and no earlier than the end of its pause.
   */
  lemma {:induction false} BoundedWaiting(s: State, now: real, endpoint: Endpoint, weight: int, turns: seq<Turn>,
                                          j: nat)
    requires Sound(s, now) && 0 < weight <= s.capacity
    requires j < |turns| && TurnsTimed(now, endpoint, weight, turns) && Undisturbed(s, endpoint, weight, turns, j)
    requires forall k | 0 <= k < j :: !turns[k].cancelled
    requires now + weight as real * 60.0 / s.capacity as real <= turns[j].refillAt
    requires endpoint in s.pausedUntil ==> s.pausedUntil[endpoint] <= turns[j].checkAt
    ensures var result := WaitLoop(s, endpoint, weight, turns, 0).1;
            result.Granted? && result.turn <= j
  {
    ReadyWithin(s, weight);
    GrantedByDue(s, now, endpoint, weight, turns, j);
  }

  lemma {:induction false} GrantedByDue(s: State, now: real, endpoint: Endpoint, weight: int, turns: seq<Turn>, j: nat)
    requires Sound(s, now) && weight <= s.capacity
    requires j < |turns| && TurnsTimed(now, endpoint, weight, turns) && Undisturbed(s, endpoint, weight, turns, j)
    requires forall k | 0 <= k < j :: !turns[k].cancelled
    requires Due(s, endpoint, weight, turns[j])
    ensures var result := WaitLoop(s, endpoint, weight, turns, 0).1;
            result.Granted? && result.turn <= j
    decreases j
  {
    if k: nat :| k < j && Due(s, endpoint, weight, turns[k]) {
      UndisturbedEarlier(s, endpoint, weight, turns, j, k);
      GrantedByDue(s, now, endpoint, weight, turns, k);
    } else {
      GrantedWhenFirstDue(s, now, endpoint, weight, turns, 0, j);
    }
  }

  /** The longest period of the ticker is 179 milliseconds; the rest is for the poll before the wait. */
  const TICK := 0.18
  const LONGEST_SLEEP := 1.0

  /**
   The turns come as the loop spaces them when its timers fire on time: after a poll that met a pause, when the pause is
   over or a second has passed; after one that met too few tokens, at the next tick.
   */
  predicate Punctual(s: State, endpoint: Endpoint, weight: int, turns: seq<Turn>)
    decreases |turns|
  {
    |turns| < 2
    || (var turn := turns[0];
        var met := Run(s, turn.others);
        && turns[1].refillAt <= (if Paused(met, endpoint, turn.checkAt)
                                 then NextAfterPause(met.pausedUntil[endpoint], turn.checkAt)
                                 else turn.refillAt + TICK)
        && Punctual(Apply(met, Poll(endpoint, weight, turn.refillAt, turn.checkAt)), endpoint, weight, turns[1..]))
  }

  function NextAfterPause(until: real, checkAt: real): real {
    if until - checkAt < LONGEST_SLEEP then until else checkAt + LONGEST_SLEEP
  }

  /**
   The wait by the clock: a call within the capacity that is left undisturbed and not cancelled, and whose turns come
   on time and go on long enough, is granted no later than one tick after 60 w / C seconds have passed and its pause
   is over.
   */
  lemma WaitEndsInTime(s: State, now: real, endpoint: Endpoint, weight: int, turns: seq<Turn>, due: real)
    requires Sound(s, now) && 0 < weight <= s.capacity
    requires turns != [] && TurnsTimed(now, endpoint, weight, turns)
    requires Undisturbed(s, endpoint, weight, turns, |turns| - 1) && Punctual(s, endpoint, weight, turns)
    requires forall k | 0 <= k < |turns| :: !turns[k].cancelled
    requires turns[0].refillAt <= now + TICK
    requires now + weight as real * 60.0 / s.capacity as real <= due && !Paused(s, endpoint, due)
    requires due <= Last(turns).refillAt
    ensures var result := WaitLoop(s, endpoint, weight, turns, 0).1;
            result.Granted? && result.turn < |turns| && turns[result.turn].refillAt <= due + TICK
  {
    ReadyWithin(s, weight);
    assert weight as real * 60.0 / s.capacity as real >= 0.0;
    GrantedByTick(s, now, endpoint, weight, turns, 0, due);
  }

  lemma {:induction false} GrantedByTick(s: State, now: real, endpoint: Endpoint, weight: int, turns: seq<Turn>,
                                         done: nat, due: real)
    requires Sound(s, now) && weight <= s.capacity && ReadyAt(s, weight) <= due && !Paused(s, endpoint, due)
    requires turns != [] && TurnsTimed(now, endpoint, weight, turns)
    requires Undisturbed(s, endpoint, weight, turns, |turns| - 1) && Punctual(s, endpoint, weight, turns)
    requires forall k | 0 <= k < |turns| :: !turns[k].cancelled
    requires turns[0].refillAt <= due + TICK && due <= Last(turns).refillAt
    ensures var result := WaitLoop(s, endpoint, weight, turns, done).1;
            result.Granted? && done <= result.turn < done + |turns| && turns[result.turn - done].refillAt <= due + TICK
    decreases |turns|
  {
    hide Apply, Decides, Accrued, ReadyAt;
    var turn, rest := turns[0], turns[1..];
    var poll := Event.Poll(endpoint, weight, turn.refillAt, turn.checkAt);
    WaitLoopStep(s, endpoint, weight, turns, done);
    UndisturbedTurn(s, now, endpoint, weight, turn, if turn.refillAt <= due then due else turn.refillAt, due);
    if !Decides(Run(s, turn.others), poll) {
      assert turn.refillAt < due;
      PauseWithout429(s, turn.others, endpoint, due);
      GrantedByTick(Apply(Run(s, turn.others), poll), turn.checkAt, endpoint, weight, rest, done + 1, due);
    }
  }

  // ----- what a call leaves behind

  /** By how much a sequence of critical sections moves the queue depth. */
  function Queued(es: seq<Event>): int {
    if es == [] then 0
    else Queued(Front(es)) + if Last(es).Enter? then 1 else if Last(es).Leave? then -1 else 0
  }

  lemma {:induction false} QueueDepthMoves(s: State, es: seq<Event>)
    ensures Run(s, es).queueDepth == s.queueDepth + Queued(es)
  {
    if es != [] {
      QueueDepthMoves(s, Front(es));
    }
  }

  /** On every way out a call has left the queue; while it polls it is counted. Other callers come and go in balance. */
  lemma {:induction false} QueueRestored(s: State, endpoint: Endpoint, weight: int, turns: seq<Turn>)
    requires forall k | 0 <= k < |turns| :: Queued(turns[k].others) == 0
    ensures var (after, result) := Waited(s, endpoint, weight, turns);
            after.queueDepth == s.queueDepth + if result.Pending? then 1 else 0
  {
    LoopKeepsQueue(Apply(s, Enter), endpoint, weight, turns, 0);
  }

  lemma {:induction false} LoopKeepsQueue(s: State, endpoint: Endpoint, weight: int, turns: seq<Turn>, done: nat)
    requires forall k | 0 <= k < |turns| :: Queued(turns[k].others) == 0
    ensures WaitLoop(s, endpoint, weight, turns, done).0.queueDepth == s.queueDepth
    decreases |turns|
  {
    if turns != [] {
      var poll := Event.Poll(endpoint, weight, turns[0].refillAt, turns[0].checkAt);
      QueueDepthMoves(s, turns[0].others);
      LoopKeepsQueue(Apply(Run(s, turns[0].others), poll), endpoint, weight, turns[1..], done + 1);
    }
  }

  /**
   A call that polls alone takes exactly its weight, at the turn that granted it, and nothing if it was not granted:
   the limiter it leaves holds at any later time what it would hold after that one poll, or after none.
   */
  lemma LoopTakesOnlyItsWeight(s: State, now: real, endpoint: Endpoint, weight: int, turns: seq<Turn>, t: real)
    requires Sound(s, now) && TurnsTimed(now, endpoint, weight, turns) && now <= t
    requires forall k | 0 <= k < |turns| :: turns[k].others == [] && turns[k].checkAt <= t
    ensures var (after, result) := WaitLoop(s, endpoint, weight, turns, 0);
            TookOnlyItsWeight(s, after, result, endpoint, weight, turns, 0, t)
  {
    SameFutureSelf(s, now);
    LoopTakesNoMore(s, s, now, endpoint, weight, turns, 0, t);
  }

  ghost predicate TookOnlyItsWeight(s: State, after: State, result: WaitResult, endpoint: Endpoint, weight: int,
                                    turns: seq<Turn>, done: nat, t: real) {
    if result.Granted? then
      && done <= result.turn < done + |turns|
      && var turn := turns[result.turn - done];
         var poll := Event.Poll(endpoint, weight, turn.refillAt, turn.checkAt);
         Decides(s, poll) && SameFuture(after, Apply(s, poll), t)
    else SameFuture(after, s, t)
  }

  /** The same of the loop resumed after failed polls, in a state r with the future of s. */
  lemma {:induction false} LoopTakesNoMore(r: State, s: State, now: real, endpoint: Endpoint, weight: int,
                                           turns: seq<Turn>, done: nat, t: real)
    requires Sound(r, now) && Sound(s, now) && SameFuture(r, s, now)
    requires TurnsTimed(now, endpoint, weight, turns) && now <= t
    requires forall k | 0 <= k < |turns| :: turns[k].others == [] && turns[k].checkAt <= t
    ensures var (after, result) := WaitLoop(r, endpoint, weight, turns, done);
            TookOnlyItsWeight(s, after, result, endpoint, weight, turns, done, t)
    decreases |turns|
  {
    hide Apply, Decides, SameFuture;
    if turns == [] {
      SameFutureLater(r, s, now, t);
    } else {
      var turn := turns[0];
      var poll := Event.Poll(endpoint, weight, turn.refillAt, turn.checkAt);
      var after := Apply(r, poll);
      assert Run(r, turn.others) == r;
      WaitLoopStep(r, endpoint, weight, turns, done);
      PollSound(r, now, poll);
      PollSound(s, now, poll);
      SameFuturePoll(r, s, now, poll);
      if Decides(r, poll) {
        SameFutureLater(after, Apply(s, poll), turn.checkAt, t);
      } else if turn.cancelled {
        SameFutureLater(after, s, turn.checkAt, t);
      } else {
        LoopTakesNoMore(after, s, turn.checkAt, endpoint, weight, turns[1..], done + 1, t);
      }
    }
  }

  lemma PollSound(s: State, now: real, poll: Event)
    requires Sound(s, now) && poll.Poll? && Follows(now, poll)
    ensures Sound(Apply(s, poll), poll.checkAt) && Apply(s, poll).capacity == s.capacity
  {
    assert Front([poll]) == [] && WellTimed(now, [poll]);
    assert Run(s, [poll]) == Apply(s, poll);
    BucketInvariant(s, now, [poll]);
  }

  /** A weight above the capacity is never granted, whatever the clock and the other callers do. */
  lemma {:induction false} NeverGrantedAboveCapacity(s: State, now: real, endpoint: Endpoint, weight: int,
                                                     turns: seq<Turn>, done: nat)
    requires Sound(s, now) && weight > s.capacity && TurnsTimed(now, endpoint, weight, turns)
    ensures !WaitLoop(s, endpoint, weight, turns, done).1.Granted?
    decreases |turns|
  {
    if turns != [] {
      var others := turns[0].others;
      var poll := Event.Poll(endpoint, weight, turns[0].refillAt, turns[0].checkAt);
      BucketInvariant(s, now, others);
      assert Front(others + [poll]) == others && WellTimed(now, others + [poll]);
      BucketInvariant(s, now, others + [poll]);
      NeverGrantedAboveCapacity(Apply(Run(s, others), poll), turns[0].checkAt, endpoint, weight, turns[1..], done + 1);
    }
  }

  /** Some schedule lets the call through exactly if its weight is within the capacity. */
  lemma GrantableIffWithinCapacity(s: State, now: real, endpoint: Endpoint, weight: int)
    requires Sound(s, now) && weight > 0
    ensures (exists turns: seq<Turn> :: TurnsTimed(now, endpoint, weight, turns)
                                        && WaitLoop(s, endpoint, weight, turns, 0).1.Granted?)
       <==> weight <= s.capacity
  {
    if weight <= s.capacity {
      var ready := if now <= ReadyAt(s, weight) then ReadyAt(s, weight) else now;
      var clear := if endpoint in s.pausedUntil && ready < s.pausedUntil[endpoint] then s.pausedUntil[endpoint]
                   else ready;
      var turn := Turn([], ready, clear, false);
      assert Due(s, endpoint, weight, turn);
      GrantedWhenFirstDue(s, now, endpoint, weight, [turn], 0, 0);
      assert TurnsTimed(now, endpoint, weight, [turn]) && WaitLoop(s, endpoint, weight, [turn], 0).1.Granted?;
    } else {
      forall turns: seq<Turn> | TurnsTimed(now, endpoint, weight, turns)
        ensures !WaitLoop(s, endpoint, weight, turns, 0).1.Granted?
      {
        NeverGrantedAboveCapacity(s, now, endpoint, weight, turns, 0);
      }
    }
  }

  // ----- the reserve

  /** The reserve is 8% of the capacity, rounded up. */
  lemma ReserveRounds(capacity: int)
    ensures capacity as real * 0.08 <= Reserve(capacity) as real < capacity as real * 0.08 + 1.0
    ensures capacity > 0 ==> 0 < Reserve(capacity) <= capacity
  {
    var below := (-(capacity as real * 0.08)).Floor;
    assert below as real <= -(capacity as real * 0.08) < below as real + 1.0;
  }

  lemma {:induction false} LoopNeverDefers(s: State, endpoint: Endpoint, weight: int, turns: seq<Turn>, done: nat)
    ensures WaitLoop(s, endpoint, weight, turns, done).1 != Deferred
    decreases |turns|
  {
    if turns != [] {
      var poll := Event.Poll(endpoint, weight, turns[0].refillAt, turns[0].checkAt);
      LoopNeverDefers(Apply(Run(s, turns[0].others), poll), endpoint, weight, turns[1..], done + 1);
    }
  }

  /**
   After any run, a non-critical call is deferred exactly if one token more than the reserve would not fit the full
   history of grants.
   */
  lemma DeferredExact(configured: int, start: real, es: seq<Event>, endpoint: Endpoint, weight: int, budgetAt: real,
                      turns: seq<Turn>)
    requires WellTimed(start, es) && Clock(start, es) <= budgetAt
    ensures var s0 := Initial(configured, start);
            Called(Run(s0, es), endpoint, weight, false, budgetAt, turns).1 == Deferred
            <==> !Fits(s0.capacity, Log(s0, es), budgetAt, Reserve(s0.capacity) as real + 1.0)
  {
    hide Fits, Apply;
    var s0 := Initial(configured, start);
    BucketInvariant(s0, start, es);
    LevelExact(configured, start, es, budgetAt, Reserve(s0.capacity) as real + 1.0);
    LoopNeverDefers(Apply(Refill(Run(s0, es), budgetAt), Enter), endpoint, weight, turns, 0);
  }

  predicate Alone(turns: seq<Turn>) {
    forall k | 0 <= k < |turns| :: turns[k].others == []
  }

  /** A non-critical call made after the run es, if it is granted, leaves the reserve in the bucket. */
  predicate LeavesReserve(configured: int, start: real, es: seq<Event>, endpoint: Endpoint, weight: int,
                          budgetAt: real, turns: seq<Turn>) {
    var s0 := Initial(configured, start);
    var (after, result) := Called(Run(s0, es), endpoint, weight, false, budgetAt, turns);
    result.Granted? ==> after.tokens >= Reserve(s0.capacity) as real
  }

  /** After every run every non-critical call of the weight leaves the reserve; alone, or with others in between. */
  ghost predicate KeepsReserve(configured: int, weight: int, alone: bool) {
    forall start, es, endpoint, budgetAt, turns |
      WellTimed(start, es) && Clock(start, es) <= budgetAt && TurnsTimed(budgetAt, endpoint, weight, turns)
      && (alone ==> Alone(turns)) ::
      LeavesReserve(configured, start, es, endpoint, weight, budgetAt, turns)
  }

  lemma {:induction false} LoopTakesItsWeight(s: State, now: real, endpoint: Endpoint, weight: int, turns: seq<Turn>,
                                              done: nat)
    requires Sound(s, now) && TurnsTimed(now, endpoint, weight, turns) && Alone(turns)
    ensures var (after, result) := WaitLoop(s, endpoint, weight, turns, done);
            result.Granted? ==> after.tokens >= s.tokens - weight as real
    decreases |turns|
  {
    if turns != [] {
      hide Accrued;
      var poll := Event.Poll(endpoint, weight, turns[0].refillAt, turns[0].checkAt);
      assert Run(s, turns[0].others) == s;
      WaitLoopStep(s, endpoint, weight, turns, done);
      PollSound(s, now, poll);
      NothingAccrues(s.capacity);
      if s.lastRefill < poll.refillAt {
        AccruedMonotone(s.capacity, 0.0, poll.refillAt - s.lastRefill);
      }
      LoopTakesItsWeight(Apply(s, poll), turns[0].checkAt, endpoint, weight, turns[1..], done + 1);
    }
  }

  /** A bucket that another call brought down to the given level, all at one moment. */
  function Drained(endpoint: Endpoint, weight: int, at: real): seq<Event> {
    if weight <= 0 then [] else [Enter, Poll(endpoint, weight, at, at), Leave]
  }

  lemma DrainedLeaves(s: State, endpoint: Endpoint, weight: int, at: real)
    requires s.lastRefill == at && 0.0 <= s.tokens <= s.capacity as real && s.pausedUntil == map[]
    requires 0 <= weight && weight as real <= s.tokens
    ensures WellTimed(at, Drained(endpoint, weight, at)) && Clock(at, Drained(endpoint, weight, at)) == at
    ensures Run(s, Drained(endpoint, weight, at)) == s.(tokens := s.tokens - weight as real)
  {
    if weight > 0 {
      var enter, poll := Enter, Poll(endpoint, weight, at, at);
      assert Front([enter, poll, Leave]) == [enter, poll] && Front([enter, poll]) == [enter] && Front([enter]) == [];
      assert Last([enter]) == Enter && WellTimed(at, []) && Run(s, []) == s;
      assert WellTimed(at, [enter]) && Run(s, [enter]) == s.(queueDepth := s.queueDepth + 1);
      assert WellTimed(at, [enter, poll]) && Clock(at, [enter, poll]) == at;
      assert Run(s, [enter, poll]) == s.(queueDepth := s.queueDepth + 1, tokens := s.tokens - weight as real);
      assert Drained(endpoint, weight, at) == [enter, poll, Leave];
    }
  }

  /** A call that passes the check and, after what others did meanwhile, is granted at the same moment. */
  lemma GrantedAtOnce(s: State, endpoint: Endpoint, weight: int, at: real, others: seq<Event>)
    requires s.lastRefill == at && s.pausedUntil == map[] && s.tokens.Floor > Reserve(s.capacity) && weight > 0
    requires Run(s.(queueDepth := s.queueDepth + 1), others)
          == s.(queueDepth := s.queueDepth + 1, tokens := Run(s, others).tokens)
    requires weight as real <= Run(s, others).tokens
    ensures var (after, result) := Called(s, endpoint, weight, false, at, [Turn(others, at, at, false)]);
            result.Granted? && after.tokens == Run(s, others).tokens - weight as real
  {
    hide Run, WaitLoop, Reserve;
    var queued := s.(queueDepth := s.queueDepth + 1);
    var met := Run(queued, others);
    assert Refill(s, at) == s && Apply(s, Enter) == queued && Refill(met, at) == met;
    WaitLoopStep(queued, endpoint, weight, [Turn(others, at, at, false)], 0);
  }

  /** With weight w of 2 or more, a call alone leaves less than the reserve of a bucket that held just enough. */
  lemma ReserveEntered(configured: int, weight: int)
    requires var c := Initial(configured, 0.0).capacity; 1 < weight <= c && Reserve(c) < c
    ensures !KeepsReserve(configured, weight, true)
  {
    var s0 := Initial(configured, 0.0);
    var level := if weight <= Reserve(s0.capacity) then Reserve(s0.capacity) + 1 else weight;
    var es := Drained("l2Book", s0.capacity - level, 0.0);
    ReserveRounds(s0.capacity);
    DrainedLeaves(s0, "l2Book", s0.capacity - level, 0.0);
    var turn := Turn([], 0.0, 0.0, false);
    var s := Run(s0, es);
    GrantedAtOnce(s, "l2Book", weight, 0.0, []);
    assert TurnsTimed(0.0, "l2Book", weight, [turn]) && Alone([turn]) && s.tokens == level as real;
    assert !LeavesReserve(configured, 0.0, es, "l2Book", weight, 0.0, [turn]);
  }

  /**
   The check of the budget and the taking of the tokens are two critical sections. With nobody between them every
   granted call leaves the reserve if and only if it takes a single token, or none can be granted: its weight exceeds
   the capacity, or the reserve is the whole capacity and every non-critical call is deferred.
   */
  lemma ReserveKeptAloneIff(configured: int, weight: int)
    requires weight > 0
    ensures var c := Initial(configured, 0.0).capacity;
            KeepsReserve(configured, weight, true) <==> weight == 1 || weight > c || Reserve(c) == c
  {
    var c := Initial(configured, 0.0).capacity;
    ReserveRounds(c);
    if weight == 1 || weight > c || Reserve(c) == c {
      forall start, es, endpoint, budgetAt, turns |
        WellTimed(start, es) && Clock(start, es) <= budgetAt && TurnsTimed(budgetAt, endpoint, weight, turns)
        && Alone(turns)
        ensures LeavesReserve(configured, start, es, endpoint, weight, budgetAt, turns)
      {
        ReserveLeft(configured, start, es, endpoint, weight, budgetAt, turns);
      }
    } else {
      ReserveEntered(configured, weight);
    }
  }

  lemma ReserveLeft(configured: int, start: real, es: seq<Event>, endpoint: Endpoint, weight: int, budgetAt: real,
                    turns: seq<Turn>)
    requires WellTimed(start, es) && Clock(start, es) <= budgetAt && TurnsTimed(budgetAt, endpoint, weight, turns)
    requires var c := Initial(configured, start).capacity;
             (weight == 1 && Alone(turns)) || weight > c || Reserve(c) == c
    ensures LeavesReserve(configured, start, es, endpoint, weight, budgetAt, turns)
  {
    hide WaitLoop, Apply;
    var s0 := Initial(configured, start);
    BucketInvariant(s0, start, es);
    var s := Run(s0, es);
    var look := Observe(budgetAt);
    assert Front(es + [look]) == es && Last(es + [look]) == look;
    BucketInvariant(s0, start, es + [look]);
    LookThenQueue(s, budgetAt);
    var asked := Apply(Refill(s, budgetAt), Enter);
    LeaveKeepsTokens(WaitLoop(asked, endpoint, weight, turns, 0).0);
    if weight > s0.capacity {
      NeverGrantedAboveCapacity(asked, budgetAt, endpoint, weight, turns, 0);
    } else if weight == 1 && Alone(turns) {
      LoopTakesItsWeight(asked, budgetAt, endpoint, weight, turns, 0);
    }
  }

  lemma LookThenQueue(s: State, at: real)
    ensures Apply(s, Observe(at)) == Refill(s, at)
    ensures Apply(Refill(s, at), Enter) == Refill(s, at).(queueDepth := s.queueDepth + 1)
  {
  }

  lemma LeaveKeepsTokens(s: State)
    ensures Apply(s, Leave).tokens == s.tokens
  {
  }

  /**
   With other callers between the check and the taking, a single token is not safe either: a granted call leaves the
   reserve, whoever else is served, if and only if no call of its weight can be granted at all.
   */
  lemma ReserveKeptAmongOthersIff(configured: int, weight: int)
    requires weight > 0
    ensures var c := Initial(configured, 0.0).capacity;
            KeepsReserve(configured, weight, false) <==> weight > c || Reserve(c) == c
  {
    var s0 := Initial(configured, 0.0);
    var c := s0.capacity;
    ReserveRounds(c);
    if weight > c || Reserve(c) == c {
      forall start, es, endpoint, budgetAt, turns |
        WellTimed(start, es) && Clock(start, es) <= budgetAt && TurnsTimed(budgetAt, endpoint, weight, turns)
        ensures LeavesReserve(configured, start, es, endpoint, weight, budgetAt, turns)
      {
        ReserveLeft(configured, start, es, endpoint, weight, budgetAt, turns);
      }
    } else {
      var others := Drained("metaAndAssetCtxs", c - weight, 0.0);
      DrainedLeaves(s0, "metaAndAssetCtxs", c - weight, 0.0);
      DrainedLeaves(s0.(queueDepth := 1), "metaAndAssetCtxs", c - weight, 0.0);
      GrantedAtOnce(s0, "l2Book", weight, 0.0, others);
      var turn := Turn(others, 0.0, 0.0, false);
      assert Run(s0, []) == s0;
      assert TurnsTimed(0.0, "l2Book", weight, [turn]);
      assert !LeavesReserve(configured, 0.0, [], "l2Book", weight, 0.0, [turn]);
    }
  }
}
