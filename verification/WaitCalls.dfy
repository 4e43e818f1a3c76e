/**
 What a whole call of Wait is answered: the budget check in front, the queue, and the first turn that ends the loop.
 */
module WaitCalls {
  import opened Sequences
  import opened LimiterHistory
  import opened Limiter
  import opened WeightedLimiter

  // ----- the weight of a call

  /** A configured positive weight is the base, 20 any other; what is added counts in full unless it is negative. */
  lemma WeightLaw(weights: map<Endpoint, int>, endpoint: Endpoint, additional: int)
    ensures var base := WeightOf(weights, endpoint, 0);
            && base > 0
            && (base == 20 || (endpoint in weights && base == weights[endpoint]))
            && (endpoint in weights && weights[endpoint] > 0 ==> base == weights[endpoint])
            && (endpoint !in weights || weights[endpoint] <= 0 ==> base == 20)
            && (additional >= 0 ==> WeightOf(weights, endpoint, additional) == base + additional)
            && (additional <= 0 ==> WeightOf(weights, endpoint, additional) == base)
  {
  }

  // ----- the loop as a run of critical sections

  function PollOf(endpoint: Endpoint, weight: int, turn: Turn): (e: Event)
    ensures e.Poll?
  {
    Event.Poll(endpoint, weight, turn.refillAt, turn.checkAt)
  }

  /** The critical sections of some turns, with those of the other callers before each poll. */
  function Sections(endpoint: Endpoint, weight: int, turns: seq<Turn>): seq<Event> {
    if turns == [] then []
    else turns[0].others + [PollOf(endpoint, weight, turns[0])] + Sections(endpoint, weight, turns[1..])
  }

  /** What has happened, from the entry of the call on, when turn k is about to poll. */
  function Before(endpoint: Endpoint, weight: int, turns: seq<Turn>, k: nat): seq<Event>
    requires k < |turns|
  {
    Sections(endpoint, weight, turns[..k]) + turns[k].others
  }

  /** Turn k, if it is reached, takes the tokens. */
  predicate Takes(s: State, endpoint: Endpoint, weight: int, turns: seq<Turn>, k: nat)
    requires k < |turns|
  {
    Decides(Run(s, Before(endpoint, weight, turns, k)), PollOf(endpoint, weight, turns[k]))
  }

  predicate Ends(s: State, endpoint: Endpoint, weight: int, turns: seq<Turn>, k: nat)
    requires k < |turns|
  {
    Takes(s, endpoint, weight, turns, k) || turns[k].cancelled
  }

  lemma RunOne(s: State, e: Event)
    ensures Run(s, [e]) == Apply(s, e)
  {
    assert Front([e]) == [] && Run(s, []) == s;
  }

  lemma LaterTurn(s: State, endpoint: Endpoint, weight: int, turns: seq<Turn>, k: nat)
    requires k + 1 < |turns|
    ensures var after := Apply(Run(s, turns[0].others), PollOf(endpoint, weight, turns[0]));
            && (Takes(s, endpoint, weight, turns, k + 1) <==> Takes(after, endpoint, weight, turns[1..], k))
            && Run(s, Sections(endpoint, weight, turns[..k + 1]))
               == Run(after, Sections(endpoint, weight, turns[1..][..k]))
  {
    hide Run, Apply, Decides;
    var poll := PollOf(endpoint, weight, turns[0]);
    var first, rest := turns[0].others + [poll], turns[1..];
    assert turns[..k + 1][0] == turns[0] && turns[..k + 1][1..] == rest[..k];
    assert Sections(endpoint, weight, turns[..k + 1]) == first + Sections(endpoint, weight, rest[..k]);
    assert Before(endpoint, weight, turns, k + 1) == first + Before(endpoint, weight, rest, k);
    RunAppend(s, turns[0].others, [poll]);
    RunOne(Run(s, turns[0].others), poll);
    RunAppend(s, first, Before(endpoint, weight, rest, k));
    RunAppend(s, first, Sections(endpoint, weight, rest[..k]));
  }

  lemma FirstTurn(s: State, endpoint: Endpoint, weight: int, turns: seq<Turn>)
    requires turns != []
    ensures Before(endpoint, weight, turns, 0) == turns[0].others
    ensures Run(s, Sections(endpoint, weight, turns[..1]))
         == Apply(Run(s, turns[0].others), PollOf(endpoint, weight, turns[0]))
  {
    var poll := PollOf(endpoint, weight, turns[0]);
    assert turns[..1][1..] == [] && Sections(endpoint, weight, []) == [];
    assert Sections(endpoint, weight, turns[..1]) == turns[0].others + [poll];
    RunAppend(s, turns[0].others, [poll]);
    RunOne(Run(s, turns[0].others), poll);
  }

  /** The loop ends at the first turn that takes the tokens or is cancelled, and taking comes first. */
  lemma {:induction false} LoopEndsAtFirst(s: State, endpoint: Endpoint, weight: int, turns: seq<Turn>,
                                           done: nat, k: nat)
    requires k < |turns| && Ends(s, endpoint, weight, turns, k)
    requires forall i: nat | i < k :: !Ends(s, endpoint, weight, turns, i)
    ensures WaitLoop(s, endpoint, weight, turns, done)
         == (Run(s, Sections(endpoint, weight, turns[..k + 1])),
             if Takes(s, endpoint, weight, turns, k) then Granted(done + k) else Cancelled)
    decreases k
  {
    hide Run, Apply, Decides;
    WaitLoopStep(s, endpoint, weight, turns, done);
    FirstTurn(s, endpoint, weight, turns);
    if k > 0 {
      var after := Apply(Run(s, turns[0].others), PollOf(endpoint, weight, turns[0]));
      assert !Ends(s, endpoint, weight, turns, 0);
      forall i: nat | i < k
        ensures Ends(s, endpoint, weight, turns, i + 1) <==> Ends(after, endpoint, weight, turns[1..], i)
      {
        LaterTurn(s, endpoint, weight, turns, i);
      }
      forall i: nat | i < k - 1 ensures !Ends(after, endpoint, weight, turns[1..], i) {
        assert !Ends(s, endpoint, weight, turns, i + 1);
      }
      LaterTurn(s, endpoint, weight, turns, k - 1);
      LoopEndsAtFirst(after, endpoint, weight, turns[1..], done + 1, k - 1);
      SectionsSplit(s, endpoint, weight, turns, k);
    }
  }

  lemma SectionsSplit(s: State, endpoint: Endpoint, weight: int, turns: seq<Turn>, k: nat)
    requires k < |turns|
    ensures var after := Apply(Run(s, turns[0].others), PollOf(endpoint, weight, turns[0]));
            Run(s, Sections(endpoint, weight, turns[..k + 1]))
            == Run(after, Sections(endpoint, weight, turns[1..][..k]))
  {
    hide Run, Apply;
    var poll := PollOf(endpoint, weight, turns[0]);
    var first := turns[0].others + [poll];
    assert turns[..k + 1][0] == turns[0] && turns[..k + 1][1..] == turns[1..][..k];
    assert Sections(endpoint, weight, turns[..k + 1]) == first + Sections(endpoint, weight, turns[1..][..k]);
    RunAppend(s, turns[0].others, [poll]);
    RunOne(Run(s, turns[0].others), poll);
    RunAppend(s, first, Sections(endpoint, weight, turns[1..][..k]));
  }

  lemma {:induction false} LoopGoesOn(s: State, endpoint: Endpoint, weight: int, turns: seq<Turn>, done: nat)
    requires forall i: nat | i < |turns| :: !Ends(s, endpoint, weight, turns, i)
    ensures WaitLoop(s, endpoint, weight, turns, done) == (Run(s, Sections(endpoint, weight, turns)), Pending)
    decreases |turns|
  {
    if turns == [] {
      assert Run(s, []) == s;
    } else {
      hide Run, Apply, Decides;
      var after := Apply(Run(s, turns[0].others), PollOf(endpoint, weight, turns[0]));
      WaitLoopStep(s, endpoint, weight, turns, done);
      FirstTurn(s, endpoint, weight, turns);
      assert !Ends(s, endpoint, weight, turns, 0);
      forall i: nat | i < |turns| - 1 ensures !Ends(after, endpoint, weight, turns[1..], i) {
        LaterTurn(s, endpoint, weight, turns, i);
        assert !Ends(s, endpoint, weight, turns, i + 1);
      }
      LoopGoesOn(after, endpoint, weight, turns[1..], done + 1);
      SectionsSplit(s, endpoint, weight, turns, |turns| - 1);
      assert turns[..|turns|] == turns && turns[1..][..|turns| - 1] == turns[1..];
    }
  }

  // ----- critical calls

  /** The critical sections of a call that made m turns, the last two of its queue; a pending call is still in it. */
  function CallSections(endpoint: Endpoint, weight: int, turns: seq<Turn>, ended: bool): seq<Event> {
    [Enter] + Sections(endpoint, weight, turns) + if ended then [Leave] else []
  }

  lemma CallRuns(s: State, endpoint: Endpoint, weight: int, turns: seq<Turn>)
    ensures Run(s, CallSections(endpoint, weight, turns, false))
         == Run(Apply(s, Enter), Sections(endpoint, weight, turns))
    ensures Run(s, CallSections(endpoint, weight, turns, true))
         == Apply(Run(Apply(s, Enter), Sections(endpoint, weight, turns)), Leave)
  {
    hide Run, Apply;
    var sections := Sections(endpoint, weight, turns);
    RunOne(s, Enter);
    RunAppend(s, [Enter], sections);
    assert CallSections(endpoint, weight, turns, false) == [Enter] + sections;
    RunAppend(s, [Enter] + sections, [Leave]);
    RunOne(Run(s, [Enter] + sections), Leave);
  }

  /**
   A critical call, whatever the budget, queues and is answered by the first turn that takes the tokens or is
   cancelled; what it does to the limiter is the run of its critical sections and the other callers' between them.
   */
  lemma CriticalCallExact(s: State, endpoint: Endpoint, weight: int, budgetAt: real, turns: seq<Turn>, k: nat)
    ensures var queued := Apply(s, Enter);
            var (after, result) := Called(s, endpoint, weight, true, budgetAt, turns);
            && result != Deferred
            && ((forall i: nat | i < |turns| :: !Ends(queued, endpoint, weight, turns, i)) ==>
                  result == Pending && after == Run(s, CallSections(endpoint, weight, turns, false)))
            && (k < |turns| && Ends(queued, endpoint, weight, turns, k)
                && (forall i: nat | i < k :: !Ends(queued, endpoint, weight, turns, i)) ==>
                  && result == (if Takes(queued, endpoint, weight, turns, k) then Granted(k) else Cancelled)
                  && after == Run(s, CallSections(endpoint, weight, turns[..k + 1], true)))
  {
    hide Run, Apply, Ends, Takes, WaitLoop;
    var queued := Apply(s, Enter);
    LoopNeverDefers(queued, endpoint, weight, turns, 0);
    if forall i: nat | i < |turns| :: !Ends(queued, endpoint, weight, turns, i) {
      LoopGoesOn(queued, endpoint, weight, turns, 0);
      CallRuns(s, endpoint, weight, turns);
    }
    if k < |turns| && Ends(queued, endpoint, weight, turns, k)
       && (forall i: nat | i < k :: !Ends(queued, endpoint, weight, turns, i)) {
      LoopEndsAtFirst(queued, endpoint, weight, turns, 0, k);
      CallRuns(s, endpoint, weight, turns[..k + 1]);
    }
  }

  lemma {:induction false} WellTimedAppend(start: real, es: seq<Event>, more: seq<Event>)
    requires WellTimed(start, es) && WellTimed(Clock(start, es), more)
    ensures WellTimed(start, es + more) && Clock(start, es + more) == Clock(Clock(start, es), more)
  {
    if more == [] {
      assert es + more == es;
    } else {
      assert Front(es + more) == es + Front(more) && Last(es + more) == Last(more);
      WellTimedAppend(start, es, Front(more));
    }
  }

  lemma OneTurnTimed(now: real, endpoint: Endpoint, weight: int, turns: seq<Turn>)
    requires turns != [] && TurnsTimed(now, endpoint, weight, turns)
    ensures var first := turns[0].others + [PollOf(endpoint, weight, turns[0])];
            WellTimed(now, first) && Clock(now, first) == turns[0].checkAt
  {
    var first := turns[0].others + [PollOf(endpoint, weight, turns[0])];
    assert Front(first) == turns[0].others && Last(first) == PollOf(endpoint, weight, turns[0]);
  }

  lemma {:induction false} TurnTimed(now: real, endpoint: Endpoint, weight: int, turns: seq<Turn>, k: nat)
    requires k < |turns| && TurnsTimed(now, endpoint, weight, turns)
    ensures var es := Before(endpoint, weight, turns, k);
            WellTimed(now, es) && Follows(Clock(now, es), PollOf(endpoint, weight, turns[k]))
    decreases k
  {
    hide WellTimed, Clock, Follows;
    if k == 0 {
      assert Before(endpoint, weight, turns, 0) == turns[0].others;
    } else {
      var first, rest := turns[0].others + [PollOf(endpoint, weight, turns[0])], turns[1..];
      OneTurnTimed(now, endpoint, weight, turns);
      TurnTimed(turns[0].checkAt, endpoint, weight, rest, k - 1);
      WellTimedAppend(now, first, Before(endpoint, weight, rest, k - 1));
      assert turns[..k][0] == turns[0] && turns[..k][1..] == rest[..k - 1];
      assert Before(endpoint, weight, turns, k) == first + Before(endpoint, weight, rest, k - 1);
    }
  }

  /**
   A turn of a call takes the tokens if and only if everything that has happened since the limiter started, the other
   callers' sections and the call's own failed polls included, admits it.
   */
  lemma TakesExact(configured: int, start: real, es: seq<Event>, endpoint: Endpoint, weight: int, turns: seq<Turn>,
                   k: nat)
    requires WellTimed(start, es) && TurnsTimed(Clock(start, es), endpoint, weight, turns) && k < |turns|
    ensures var s0 := Initial(configured, start);
            Takes(Apply(Run(s0, es), Enter), endpoint, weight, turns, k)
            <==> Admits(s0.capacity, es + [Enter] + Before(endpoint, weight, turns, k),
                        PollOf(endpoint, weight, turns[k]))
  {
    hide Apply, Decides, Admits;
    var s0, before := Initial(configured, start), Before(endpoint, weight, turns, k);
    TurnTimed(Clock(start, es), endpoint, weight, turns, k);
    EnterTimed(start, es);
    WellTimedAppend(start, es + [Enter], before);
    RunAppend(s0, es, [Enter]);
    RunOne(Run(s0, es), Enter);
    RunAppend(s0, es + [Enter], before);
    DecisionExact(configured, start, es + [Enter] + before, PollOf(endpoint, weight, turns[k]));
  }

  lemma EnterTimed(start: real, es: seq<Event>)
    requires WellTimed(start, es)
    ensures WellTimed(start, es + [Enter]) && Clock(start, es + [Enter]) == Clock(start, es)
  {
    assert Front(es + [Enter]) == es && Last(es + [Enter]) == Enter;
  }

  /**
   A critical call within the capacity, undisturbed and not cancelled, is granted at the first turn that polls when its
   weight has accrued and its pause is over, however low the budget is when it comes.
   */
  lemma CriticalGrantedWhenDue(s: State, now: real, endpoint: Endpoint, weight: int, budgetAt: real, turns: seq<Turn>,
                               j: nat)
    requires Sound(s, now) && weight <= s.capacity
    requires j < |turns| && TurnsTimed(now, endpoint, weight, turns)
    requires Undisturbed(Apply(s, Enter), endpoint, weight, turns, j)
    requires forall k | 0 <= k < j :: !turns[k].cancelled && !Due(s, endpoint, weight, turns[k])
    requires Due(s, endpoint, weight, turns[j])
    ensures Called(s, endpoint, weight, true, budgetAt, turns).1 == Granted(j)
  {
    hide WaitLoop, Undisturbed;
    QueueKeepsDue(s, endpoint, weight);
    GrantedWhenFirstDue(Apply(s, Enter), now, endpoint, weight, turns, 0, j);
  }

  lemma QueueKeepsDue(s: State, endpoint: Endpoint, weight: int)
    requires s.capacity > 0
    ensures var queued := Apply(s, Enter);
            && queued == s.(queueDepth := s.queueDepth + 1)
            && forall turn :: Due(queued, endpoint, weight, turn) <==> Due(s, endpoint, weight, turn)
  {
  }

  /** And it is granted by the first turn that polls no earlier than 60 w / C seconds after its call and its pause. */
  lemma CriticalWaitBounded(s: State, now: real, endpoint: Endpoint, weight: int, budgetAt: real, turns: seq<Turn>,
                            j: nat)
    requires Sound(s, now) && 0 < weight <= s.capacity
    requires j < |turns| && TurnsTimed(now, endpoint, weight, turns)
    requires Undisturbed(Apply(s, Enter), endpoint, weight, turns, j)
    requires forall k | 0 <= k < j :: !turns[k].cancelled
    requires now + weight as real * 60.0 / s.capacity as real <= turns[j].refillAt
    requires endpoint in s.pausedUntil ==> s.pausedUntil[endpoint] <= turns[j].checkAt
    ensures var result := Called(s, endpoint, weight, true, budgetAt, turns).1;
            result.Granted? && result.turn <= j
  {
    hide WaitLoop, Undisturbed;
    QueueKeepsDue(s, endpoint, weight);
    BoundedWaiting(Apply(s, Enter), now, endpoint, weight, turns, j);
  }

  /** Above the capacity no call is granted, critical or not. */
  lemma NoCallAboveCapacity(s: State, now: real, endpoint: Endpoint, weight: int, critical: bool, budgetAt: real,
                            turns: seq<Turn>)
    requires Sound(s, now) && weight > s.capacity && now <= budgetAt && TurnsTimed(budgetAt, endpoint, weight, turns)
    ensures !Called(s, endpoint, weight, critical, budgetAt, turns).1.Granted?
  {
    hide WaitLoop;
    RefillSound(s, now, budgetAt);
    QueueKeepsDue(s, endpoint, weight);
    QueueKeepsDue(Refill(s, budgetAt), endpoint, weight);
    NeverGrantedAboveCapacity(Apply(s, Enter), budgetAt, endpoint, weight, turns, 0);
    NeverGrantedAboveCapacity(Apply(Refill(s, budgetAt), Enter), budgetAt, endpoint, weight, turns, 0);
  }

  lemma RefillSound(s: State, now: real, at: real)
    requires Sound(s, now) && now <= at
    ensures Sound(Refill(s, at), at) && Refill(s, at).capacity == s.capacity
  {
    hide Accrued;
    var look := Observe(at);
    assert Front([look]) == [] && Run(s, []) == s && WellTimed(now, []) && WellTimed(now, [look]);
    assert Run(s, [look]) == Refill(s, at);
    BucketInvariant(s, now, [look]);
  }

  // ----- calls above the reserve

  /** Limiters with equal futures still have them after the same run. */
  lemma {:induction false} SameFutureRun(r: State, s: State, now: real, es: seq<Event>)
    requires Sound(r, now) && Sound(s, now) && SameFuture(r, s, now) && WellTimed(now, es)
    ensures SameFuture(Run(r, es), Run(s, es), Clock(now, es))
    ensures Sound(Run(r, es), Clock(now, es)) && Sound(Run(s, es), Clock(now, es))
  {
    BucketInvariant(r, now, es);
    BucketInvariant(s, now, es);
    if es != [] {
      hide Apply, SameFuture, Observation;
      SameFutureRun(r, s, now, Front(es));
      SameFutureStep(Run(r, Front(es)), Run(s, Front(es)), Clock(now, Front(es)), Last(es));
      ClockStep(now, es);
    }
  }

  lemma {:induction false} LoopSameFuture(r: State, s: State, now: real, endpoint: Endpoint, weight: int,
                                          turns: seq<Turn>, done: nat, t: real)
    requires Sound(r, now) && Sound(s, now) && SameFuture(r, s, now)
    requires TurnsTimed(now, endpoint, weight, turns) && now <= t
    requires forall k | 0 <= k < |turns| :: turns[k].checkAt <= t
    ensures WaitLoop(r, endpoint, weight, turns, done).1 == WaitLoop(s, endpoint, weight, turns, done).1
    ensures SameFuture(WaitLoop(r, endpoint, weight, turns, done).0, WaitLoop(s, endpoint, weight, turns, done).0, t)
    decreases |turns|
  {
    hide Run, Apply, Decides, SameFuture;
    if turns == [] {
      SameFutureLater(r, s, now, t);
    } else {
      var turn, poll := turns[0], PollOf(endpoint, weight, turns[0]);
      var at := Clock(now, turn.others);
      SameFutureRun(r, s, now, turn.others);
      var r', s' := Run(r, turn.others), Run(s, turn.others);
      WaitLoopStep(r, endpoint, weight, turns, done);
      WaitLoopStep(s, endpoint, weight, turns, done);
      SameFuturePoll(r', s', at, poll);
      PollSound(r', at, poll);
      PollSound(s', at, poll);
      SameFutureLater(Apply(r', poll), Apply(s', poll), turn.checkAt, t);
      if !Decides(r', poll) && !turn.cancelled {
        LoopSameFuture(Apply(r', poll), Apply(s', poll), turn.checkAt, endpoint, weight, turns[1..], done + 1, t);
      }
    }
  }

  /**
   A non-critical call is deferred, or it is answered as a critical one would have been and leaves a limiter with the
   same future; deferred exactly if the level when it asks is below one token more than the reserve.
   */
  lemma NonCriticalLikeCritical(s: State, now: real, endpoint: Endpoint, weight: int, budgetAt: real, turns: seq<Turn>,
                                t: real)
    requires Sound(s, now) && now <= budgetAt && TurnsTimed(budgetAt, endpoint, weight, turns)
    requires budgetAt <= t && forall k | 0 <= k < |turns| :: turns[k].checkAt <= t
    ensures var (asked, answer) := Called(s, endpoint, weight, false, budgetAt, turns);
            var (after, result) := Called(s, endpoint, weight, true, budgetAt, turns);
            if Level(s, budgetAt) < Reserve(s.capacity) as real + 1.0
            then answer == Deferred && SameFuture(asked, s, t)
            else answer == result && answer != Deferred && SameFuture(asked, after, t)
  {
    var refilled := Refill(s, budgetAt);
    SameFutureSelf(s, now);
    SameFutureRefilled(s, s, now, budgetAt, budgetAt);
    SameFutureRefilled(s, s, now, budgetAt, t);
    RefillSound(s, now, budgetAt);
    if Level(s, budgetAt) >= Reserve(s.capacity) as real + 1.0 {
      QueuedFuture(refilled, s, budgetAt);
      LoopSameFuture(Apply(refilled, Enter), Apply(s, Enter), budgetAt, endpoint, weight, turns, 0, t);
      LoopNeverDefers(Apply(s, Enter), endpoint, weight, turns, 0);
      LeaveFuture(WaitLoop(Apply(refilled, Enter), endpoint, weight, turns, 0).0,
                  WaitLoop(Apply(s, Enter), endpoint, weight, turns, 0).0, t);
    }
  }

  lemma QueuedFuture(r: State, s: State, now: real)
    requires SameFuture(r, s, now)
    ensures SameFuture(Apply(r, Enter), Apply(s, Enter), now)
    ensures Apply(r, Enter) == r.(queueDepth := r.queueDepth + 1)
    ensures Apply(s, Enter) == s.(queueDepth := s.queueDepth + 1)
  {
  }

  lemma LeaveFuture(r: State, s: State, now: real)
    requires SameFuture(r, s, now)
    ensures SameFuture(Apply(r, Leave), Apply(s, Leave), now)
  {
  }
}
