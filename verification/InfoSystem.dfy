/**
 Any number of concurrent info calls sharing one limiter.

 A system state holds the limiter, every call begun so far, the trace of critical sections run so far and the
 clock. One action is one atomic step of one call: a critical section of the limiter, one attempt with its record,
 or the end of a back-off sleep. Runs are sequences of enabled actions in any order at times that never go back; a
 sleep that is not interrupted lasts at least as long as the program asks for.
 */
module InfoSystem {
  import opened Sequences
  import opened LimiterHistory
  import opened Limiter
  import opened WeightedLimiter
  import opened InfoClient

  datatype Phase =
    | Asking                  // a non-critical call about to read the budget
    | Entering                // about to enter the queue
    | Polling
    | Exiting(granted: bool)  // about to leave the queue
    | Sending                 // about to make an attempt
    | BackingOff(since: real, due: real)  // asleep after a retryable failure
    | Returned(ok: bool)

  datatype Permit = NotGranted | GrantedAt(at: real)

  /**
   A call: when each of its attempts began, how those that came back ended, and for each of its finished back-off
   sleeps whether it was interrupted.
   */
  datatype Call = Call(endpoint: Endpoint, weight: int, phase: Phase, permit: Permit,
                       begun: seq<real>, outcomes: seq<Outcome>, sleeps: seq<bool>)

  datatype System = System(limiter: State, calls: seq<Call>, trace: seq<Event>, now: real)

  datatype Action =
    | Begin(endpoint: Endpoint, additional: int, critical: bool)
    | Ask(i: nat, at: real)
    | Join(i: nat)
    | Try(i: nat, refillAt: real, checkAt: real, cancelled: bool)
    | Quit(i: nat)
    | Send(i: nat, at: real, outcome: Outcome, jitter: nat)  // jitter in milliseconds, of the sleep that may follow
    | Wake(i: nat, at: real, interrupted: bool)
    | Watch(at: real)

  // ----- the back-off

  /** Milliseconds of the shortest sleep after attempt k, counted from zero; up to 99 more are added at random. */
  function Delay(k: nat): nat {
    150 * Pow2(k)
  }

  const JITTER := 100

  function Seconds(milliseconds: nat): real {
    milliseconds as real / 1000.0
  }

  /** How long after its grant, at the earliest, a call makes attempt k. */
  function Earliest(k: nat): real {
    if k == 0 then 0.0 else Earliest(k - 1) + Seconds(Delay(k - 1))
  }

  // ----- steps

  predicate AtPhase(sys: System, i: nat, phase: Phase) {
    i < |sys.calls| && sys.calls[i].phase == phase
  }

  /** The call that an action belongs to is at the right place in its code. */
  predicate Ready(sys: System, a: Action) {
    match a
    case Begin(_, _, _) => true
    case Ask(i, _) => AtPhase(sys, i, Asking)
    case Join(i) => AtPhase(sys, i, Entering)
    case Try(i, _, _, _) => AtPhase(sys, i, Polling)
    case Quit(i) => i < |sys.calls| && sys.calls[i].phase.Exiting?
    case Send(i, _, outcome, jitter) =>
      AtPhase(sys, i, Sending) && (outcome.failure == None ==> outcome.status < 400) && jitter < JITTER
    case Wake(i, _, _) => i < |sys.calls| && sys.calls[i].phase.BackingOff?
    case Watch(_) => true
  }

  /** The critical section that an action runs, if any. */
  function Section(sys: System, a: Action): seq<Event>
    requires Ready(sys, a)
  {
    match a
    case Ask(_, at) => [Observe(at)]
    case Join(_) => [Enter]
    case Try(i, refillAt, checkAt, _) => [Poll(sys.calls[i].endpoint, sys.calls[i].weight, refillAt, checkAt)]
    case Quit(_) => [Leave]
    case Send(i, at, outcome, _) => [Event.Record(sys.calls[i].endpoint, at, outcome.failure != None, outcome.status)]
    case Watch(at) => [Observe(at)]
    case _ => []
  }

  /** The clock after an action. */
  function Time(sys: System, a: Action): real {
    match a
    case Ask(_, at) => at
    case Try(_, _, checkAt, _) => checkAt
    case Send(_, at, _, _) => at
    case Wake(_, at, _) => at
    case Watch(at) => at
    case _ => sys.now
  }

  predicate Enabled(sys: System, a: Action) {
    && Ready(sys, a)
    && (Section(sys, a) != [] ==> Follows(sys.now, Section(sys, a)[0]))
    && (a.Wake? ==> sys.now <= a.at && (!a.interrupted ==> sys.calls[a.i].phase.due <= a.at))
  }

  function Moved(call: Call, phase: Phase): Call {
    call.(phase := phase)
  }

  /** The call comes to its next attempt. */
  function Sends(call: Call, at: real): Call {
    call.(phase := Sending, begun := call.begun + [at])
  }

  /** The calls after an action. */
  function Advance(weights: map<Endpoint, int>, sys: System, a: Action): seq<Call>
    requires Ready(sys, a)
  {
    var calls := sys.calls;
    match a
    case Begin(endpoint, additional, critical) =>
      calls + [Call(endpoint, WeightOf(weights, endpoint, additional), if critical then Entering else Asking,
                    NotGranted, [], [], [])]
    case Ask(i, at) =>
      var low := Refill(sys.limiter, at).tokens.Floor <= Reserve(sys.limiter.capacity);
      calls[i := Moved(calls[i], if low then Returned(false) else Entering)]
    case Join(i) => calls[i := Moved(calls[i], Polling)]
    case Try(i, refillAt, _, cancelled) =>
      if Decides(sys.limiter, Section(sys, a)[0])
      then calls[i := calls[i].(phase := Exiting(true), permit := GrantedAt(refillAt))]
      else if cancelled then calls[i := Moved(calls[i], Exiting(false))]
      else calls
    case Quit(i) =>
      calls[i := if calls[i].phase.granted then Sends(calls[i], sys.now) else Moved(calls[i], Returned(false))]
    case Send(i, at, outcome, jitter) =>
      var phase := if outcome.failure == None then Returned(true)
                   else if Retryable(outcome) then BackingOff(at, at + Seconds(Delay(|calls[i].outcomes|) + jitter))
                   else Returned(false);
      calls[i := calls[i].(phase := phase, outcomes := calls[i].outcomes + [outcome])]
    case Wake(i, at, interrupted) =>
      var slept := calls[i].(sleeps := calls[i].sleeps + [interrupted]);
      var again := !interrupted && |slept.outcomes| < MAX_ATTEMPTS;
      calls[i := if again then Sends(slept, at) else Moved(slept, Returned(false))]
    case Watch(_) => calls
  }

  function Next(weights: map<Endpoint, int>, sys: System, a: Action): System
    requires Ready(sys, a)
  {
    var section := Section(sys, a);
    System(if section == [] then sys.limiter else Apply(sys.limiter, section[0]),
           Advance(weights, sys, a),
           sys.trace + section,
           Time(sys, a))
  }

  function Idle(configured: int, start: real): System {
    System(Initial(configured, start), [], [], start)
  }

  /** The system after a run, provided every action was enabled when it was taken. */
  ghost predicate Reaches(configured: int, weights: map<Endpoint, int>, start: real, run: seq<Action>, sys: System) {
    if run == [] then sys == Idle(configured, start)
    else exists before: System :: && Reaches(configured, weights, start, Front(run), before)
                                  && Enabled(before, Last(run))
                                  && sys == Next(weights, before, Last(run))
  }

  ghost predicate Reachable(configured: int, weights: map<Endpoint, int>, start: real, sys: System) {
    exists run: seq<Action> :: Reaches(configured, weights, start, run, sys)
  }

  // ----- tallies over the calls

  datatype Measure =
    | InQueue
    | Attempted(endpoint: Endpoint)
    | FailedAt(endpoint: Endpoint)
    | GrantsTo(endpoint: Endpoint)
    | SentWeight
    | GrantedWeight
    | GrantedIn(a: real, b: real)

  function FailedOutcomes(outcomes: seq<Outcome>): nat {
    if outcomes == [] then 0
    else
      FailedOutcomes(Front(outcomes))
      + if Last(outcomes).failure != None || Last(outcomes).status >= 400 then 1 else 0
  }

  function Value(m: Measure, c: Call): int {
    match m
    case InQueue => if c.phase.Polling? || c.phase.Exiting? then 1 else 0
    case Attempted(endpoint) => if c.endpoint == endpoint then |c.outcomes| else 0
    case FailedAt(endpoint) => if c.endpoint == endpoint then FailedOutcomes(c.outcomes) else 0
    case GrantsTo(endpoint) => if c.endpoint == endpoint && c.permit.GrantedAt? then 1 else 0
    case SentWeight => |c.begun| * c.weight
    case GrantedWeight => if c.permit.GrantedAt? then c.weight else 0
    case GrantedIn(a, b) => if c.permit.GrantedAt? && a <= c.permit.at <= b then c.weight else 0
  }

  function Tally(m: Measure, calls: seq<Call>): int {
    if calls == [] then 0 else Tally(m, Front(calls)) + Value(m, Last(calls))
  }

  lemma {:induction false} TallyUpdate(m: Measure, calls: seq<Call>, i: nat, c: Call)
    requires i < |calls|
    ensures Tally(m, calls[i := c]) == Tally(m, calls) - Value(m, calls[i]) + Value(m, c)
  {
    var updated := calls[i := c];
    if i == |calls| - 1 {
      assert Front(updated) == Front(calls);
    } else {
      assert Front(updated) == Front(calls)[i := c];
      TallyUpdate(m, Front(calls), i, c);
    }
  }

  lemma TallyAppend(m: Measure, calls: seq<Call>, c: Call)
    ensures Tally(m, calls + [c]) == Tally(m, calls) + Value(m, c)
  {
    assert Front(calls + [c]) == calls;
  }

  function GrantCount(gs: seq<Grant>, endpoint: Endpoint): nat {
    if gs == [] then 0 else GrantCount(Front(gs), endpoint) + if Last(gs).endpoint == endpoint then 1 else 0
  }

  // ----- the invariant

  /** Only a retryable failure whose back-off ran to its end is followed by another attempt. */
  predicate OnlyLawfulRetries(c: Call) {
    && AttemptLaw(c.outcomes)
    && forall k | 0 <= k < |c.outcomes| - 1 :: Retryable(c.outcomes[k]) && k < |c.sleeps| && !c.sleeps[k]
  }

  /** What holds of every call at every point of its code. */
  predicate CallLaw(c: Call) {
    && c.weight > 0
    && OnlyLawfulRetries(c)
    && |c.begun| == |c.outcomes| + (if c.phase.Sending? then 1 else 0)
    && (c.permit.NotGranted? ==> c.outcomes == [] && c.sleeps == [])
    && match c.phase
       case Asking => c.permit.NotGranted?
       case Entering => c.permit.NotGranted?
       case Polling => c.permit.NotGranted?
       case Exiting(granted) => c.permit.GrantedAt? == granted && c.outcomes == [] && c.sleeps == []
       case Sending =>
         && c.permit.GrantedAt? && |c.sleeps| == |c.outcomes| < MAX_ATTEMPTS
         && (c.outcomes != [] ==> Retryable(Last(c.outcomes)) && !Last(c.sleeps))
       case BackingOff(_, _) =>
         c.permit.GrantedAt? && |c.sleeps| == |c.outcomes| - 1 && Retryable(Last(c.outcomes))
       case Returned(ok) =>
         && (c.permit.GrantedAt? <==> c.outcomes != [])
         && (ok <==> c.outcomes != [] && Last(c.outcomes).failure == None)
         && (c.outcomes != [] && Retryable(Last(c.outcomes)) ==>
               |c.sleeps| == |c.outcomes| && (Last(c.sleeps) || |c.outcomes| == MAX_ATTEMPTS))
  }

  /** No attempt comes before its back-offs can have ended. */
  predicate OnSchedule(c: Call, start: real, now: real) {
    && (forall k | 0 <= k < |c.begun| :: c.permit.GrantedAt? && c.permit.at + Earliest(k) <= c.begun[k])
    && (forall k | 0 <= k < |c.begun| :: c.begun[k] <= now)
    && (c.permit.GrantedAt? ==>
          && start <= c.permit.at <= now
          && (c.phase.BackingOff? ==> c.permit.at + Earliest(|c.outcomes|) <= c.phase.due))
  }

  predicate TraceLaw(configured: int, start: real, sys: System) {
    && WellTimed(start, sys.trace) && start <= sys.now && Clock(start, sys.trace) <= sys.now
    && sys.limiter == Run(Initial(configured, start), sys.trace)
  }

  ghost predicate Inv(configured: int, start: real, sys: System) {
    var s0 := Initial(configured, start);
    && TraceLaw(configured, start, sys)
    && (forall c | c in sys.calls :: CallLaw(c) && OnSchedule(c, start, sys.now))
    && sys.limiter.queueDepth == Tally(InQueue, sys.calls)
    && Total(Log(s0, sys.trace)) == Tally(GrantedWeight, sys.calls) as real
    && (forall endpoint :: Records(sys.trace, endpoint) == Tally(Attempted(endpoint), sys.calls))
    && (forall endpoint :: Failures(sys.trace, endpoint) == Tally(FailedAt(endpoint), sys.calls))
    && (forall endpoint :: GrantCount(Log(s0, sys.trace), endpoint) == Tally(GrantsTo(endpoint), sys.calls))
    && (forall a, b :: WeightWithin(Log(s0, sys.trace), a, b) == Tally(GrantedIn(a, b), sys.calls) as real)
  }

  /** What one action adds to a tally over the calls. */
  function Gain(m: Measure, sys: System, a: Action): int
    requires Ready(sys, a)
  {
    match m
    case InQueue => if a.Join? then 1 else if a.Quit? then -1 else 0
    case Attempted(endpoint) => if a.Send? && sys.calls[a.i].endpoint == endpoint then 1 else 0
    case FailedAt(endpoint) =>
      if a.Send? && sys.calls[a.i].endpoint == endpoint && (a.outcome.failure != None || a.outcome.status >= 400)
      then 1 else 0
    case GrantsTo(endpoint) =>
      if a.Try? && Decides(sys.limiter, Section(sys, a)[0]) && sys.calls[a.i].endpoint == endpoint then 1 else 0
    case SentWeight =>
      if (a.Quit? && sys.calls[a.i].phase.granted)
         || (a.Wake? && !a.interrupted && |sys.calls[a.i].outcomes| < MAX_ATTEMPTS)
      then sys.calls[a.i].weight else 0
    case GrantedWeight => if a.Try? && Decides(sys.limiter, Section(sys, a)[0]) then sys.calls[a.i].weight else 0
    case GrantedIn(from, to) =>
      if a.Try? && Decides(sys.limiter, Section(sys, a)[0]) && from <= a.refillAt <= to
      then sys.calls[a.i].weight else 0
  }

  lemma StepCalls(weights: map<Endpoint, int>, start: real, sys: System, a: Action)
    requires Enabled(sys, a) && start <= sys.now
    requires forall c | c in sys.calls :: CallLaw(c) && OnSchedule(c, start, sys.now)
    ensures sys.now <= Time(sys, a)
    ensures forall c | c in Advance(weights, sys, a) :: CallLaw(c) && OnSchedule(c, start, Time(sys, a))
  {
    hide CallLaw, OnSchedule, Decides, WeightOf;
    var calls := Advance(weights, sys, a);
    assert sys.now <= Time(sys, a);
    forall k | 0 <= k < |calls| ensures CallLaw(calls[k]) && OnSchedule(calls[k], start, Time(sys, a)) {
      if k < |sys.calls| && calls[k] == sys.calls[k] {
        StillOnSchedule(calls[k], start, sys.now, Time(sys, a));
      } else if a.Begin? {
        BegunLawful(weights, a, start, Time(sys, a));
      } else {
        CallStep(weights, start, sys, a);
      }
    }
  }

  lemma StillOnSchedule(c: Call, start: real, now: real, later: real)
    requires OnSchedule(c, start, now) && now <= later
    ensures OnSchedule(c, start, later)
  {
  }

  lemma BegunLawful(weights: map<Endpoint, int>, a: Action, start: real, now: real)
    requires a.Begin?
    ensures var phase := if a.critical then Entering else Asking;
            var c := Call(a.endpoint, WeightOf(weights, a.endpoint, a.additional), phase, NotGranted, [], [], []);
            CallLaw(c) && OnSchedule(c, start, now)
  {
  }

  /** The call that acts keeps its laws. */
  lemma CallStep(weights: map<Endpoint, int>, start: real, sys: System, a: Action)
    requires Enabled(sys, a) && start <= sys.now && !a.Begin? && !a.Watch?
    requires CallLaw(sys.calls[a.i]) && OnSchedule(sys.calls[a.i], start, sys.now)
    ensures var c := Advance(weights, sys, a)[a.i];
            CallLaw(c) && OnSchedule(c, start, Time(sys, a))
  {
    hide Decides, Refill, Seconds, Delay;
    if a.Send? {
      SendStep(weights, start, sys, a);
    }
  }

  lemma SendStep(weights: map<Endpoint, int>, start: real, sys: System, a: Action)
    requires Enabled(sys, a) && a.Send?
    requires CallLaw(sys.calls[a.i]) && OnSchedule(sys.calls[a.i], start, sys.now)
    ensures var c := Advance(weights, sys, a)[a.i];
            CallLaw(c) && OnSchedule(c, start, Time(sys, a))
  {
    hide Delay;
    var c, d := sys.calls[a.i], Advance(weights, sys, a)[a.i];
    assert d.outcomes == c.outcomes + [a.outcome];
    assert Earliest(|d.outcomes|) == Earliest(|c.outcomes|) + Seconds(Delay(|c.outcomes|));
    assert c.permit.at + Earliest(|c.outcomes|) <= c.begun[|c.outcomes|];
    MoreMilliseconds(Delay(|c.outcomes|), Delay(|c.outcomes|) + a.jitter);
  }

  lemma StepTally(weights: map<Endpoint, int>, sys: System, a: Action, m: Measure)
    requires Ready(sys, a) && forall c | c in sys.calls :: CallLaw(c)
    ensures Tally(m, Advance(weights, sys, a)) == Tally(m, sys.calls) + Gain(m, sys, a)
  {
    var calls := Advance(weights, sys, a);
    if a.Begin? {
      TallyAppend(m, sys.calls, Last(calls));
    } else if !a.Watch? {
      hide CallLaw, Value, Decides, Section;
      var d := calls[a.i];
      assert CallLaw(sys.calls[a.i]);
      assert calls == sys.calls[a.i := d];
      TallyUpdate(m, sys.calls, a.i, d);
      ActorGains(weights, sys, a, m);
    }
  }

  lemma ActorGains(weights: map<Endpoint, int>, sys: System, a: Action, m: Measure)
    requires Ready(sys, a) && !a.Begin? && !a.Watch? && CallLaw(sys.calls[a.i])
    ensures Value(m, Advance(weights, sys, a)[a.i]) == Value(m, sys.calls[a.i]) + Gain(m, sys, a)
  {
    hide Decides, Refill, Delay;
    var c, d := sys.calls[a.i], Advance(weights, sys, a)[a.i];
    assert (|c.begun| + 1) * c.weight == |c.begun| * c.weight + c.weight;
    if a.Send? {
      assert Front(d.outcomes) == c.outcomes && Last(d.outcomes) == a.outcome;
    }
  }

  lemma AppendEvent(s0: State, start: real, trace: seq<Event>, e: Event, endpoint: Endpoint, a: real, b: real)
    requires WellTimed(start, trace) && Follows(Clock(start, trace), e)
    ensures var longer := trace + [e];
            var granted := e.Poll? && Decides(Run(s0, trace), e);
            && WellTimed(start, longer)
            && Run(s0, longer) == Apply(Run(s0, trace), e)
            && Records(longer, endpoint)
               == Records(trace, endpoint) + (if e.Record? && e.endpoint == endpoint then 1 else 0)
            && Failures(longer, endpoint)
               == Failures(trace, endpoint)
                  + (if e.Record? && e.endpoint == endpoint && (e.failed || e.status >= 400) then 1 else 0)
            && Total(Log(s0, longer)) == Total(Log(s0, trace)) + (if granted then e.weight else 0) as real
            && GrantCount(Log(s0, longer), endpoint)
               == GrantCount(Log(s0, trace), endpoint) + (if granted && e.endpoint == endpoint then 1 else 0)
            && WeightWithin(Log(s0, longer), a, b)
               == WeightWithin(Log(s0, trace), a, b) + (if granted && a <= e.refillAt <= b then e.weight else 0) as real
  {
    hide Apply, Decides, WeightWithin, GrantCount, Total;
    var longer := trace + [e];
    assert Front(longer) == trace && Last(longer) == e;
    if e.Poll? {
      LogExtended(Log(s0, trace), Grant(e.refillAt, e.endpoint, e.weight), endpoint, a, b);
    }
  }

  lemma LogExtended(gs: seq<Grant>, g: Grant, endpoint: Endpoint, a: real, b: real)
    ensures var hs := gs + [g];
            && Total(hs) == Total(gs) + g.weight as real
            && GrantCount(hs, endpoint) == GrantCount(gs, endpoint) + (if g.endpoint == endpoint then 1 else 0)
            && WeightWithin(hs, a, b)
               == WeightWithin(gs, a, b) + (if a <= g.at <= b then g.weight else 0) as real
  {
    assert Front(gs + [g]) == gs;
  }

  lemma ClockAppend(start: real, trace: seq<Event>, e: Event, now: real)
    requires Clock(start, trace) <= now && Follows(now, e)
    ensures Clock(start, trace + [e]) <= Clock(now, [e]) && Follows(Clock(start, trace), e)
  {
    assert Front(trace + [e]) == trace && Front([e]) == [];
  }

  lemma StepTrace(configured: int, weights: map<Endpoint, int>, start: real, sys: System, a: Action,
                  endpoint: Endpoint, from: real, to: real)
    requires TraceLaw(configured, start, sys) && Enabled(sys, a)
    ensures var after := Next(weights, sys, a);
            var s0 := Initial(configured, start);
            && TraceLaw(configured, start, after)
            && Total(Log(s0, after.trace)) == Total(Log(s0, sys.trace)) + Gain(GrantedWeight, sys, a) as real
            && Records(after.trace, endpoint) == Records(sys.trace, endpoint) + Gain(Attempted(endpoint), sys, a)
            && Failures(after.trace, endpoint) == Failures(sys.trace, endpoint) + Gain(FailedAt(endpoint), sys, a)
            && GrantCount(Log(s0, after.trace), endpoint)
               == GrantCount(Log(s0, sys.trace), endpoint) + Gain(GrantsTo(endpoint), sys, a)
            && WeightWithin(Log(s0, after.trace), from, to)
               == WeightWithin(Log(s0, sys.trace), from, to) + Gain(GrantedIn(from, to), sys, a) as real
  {
    hide Apply, Decides, Advance, Log, Total, GrantCount, Records, Failures, WeightWithin, WellTimed, Run;
    var section := Section(sys, a);
    if section == [] {
      assert sys.trace + section == sys.trace;
    } else {
      assert section == [section[0]] && Front(section) == [];
      ClockAppend(start, sys.trace, section[0], sys.now);
      AppendEvent(Initial(configured, start), start, sys.trace, section[0], endpoint, from, to);
    }
  }

  lemma StepQueue(weights: map<Endpoint, int>, sys: System, a: Action)
    requires Ready(sys, a)
    ensures Next(weights, sys, a).limiter.queueDepth == sys.limiter.queueDepth + Gain(InQueue, sys, a)
  {
  }

  lemma StartPassed(configured: int, start: real, sys: System)
    requires TraceLaw(configured, start, sys)
    ensures start <= sys.now
  {
  }

  lemma InvStep(configured: int, weights: map<Endpoint, int>, start: real, sys: System, a: Action)
    requires Inv(configured, start, sys) && Enabled(sys, a)
    ensures Inv(configured, start, Next(weights, sys, a))
  {
    hide Advance, Apply, CallLaw, OnSchedule, Gain, Log, Tally, TraceLaw;
    var after, s0 := Next(weights, sys, a), Initial(configured, start);
    StepTrace(configured, weights, start, sys, a, "", start, start);
    StepQueue(weights, sys, a);
    StartPassed(configured, start, sys);
    StepCalls(weights, start, sys, a);
    StepTally(weights, sys, a, InQueue);
    StepTally(weights, sys, a, GrantedWeight);
    forall endpoint ensures Records(after.trace, endpoint) == Tally(Attempted(endpoint), after.calls) {
      StepTrace(configured, weights, start, sys, a, endpoint, start, start);
      StepTally(weights, sys, a, Attempted(endpoint));
    }
    forall endpoint ensures Failures(after.trace, endpoint) == Tally(FailedAt(endpoint), after.calls) {
      StepTrace(configured, weights, start, sys, a, endpoint, start, start);
      StepTally(weights, sys, a, FailedAt(endpoint));
    }
    forall endpoint ensures GrantCount(Log(s0, after.trace), endpoint) == Tally(GrantsTo(endpoint), after.calls) {
      StepTrace(configured, weights, start, sys, a, endpoint, start, start);
      StepTally(weights, sys, a, GrantsTo(endpoint));
    }
    forall from: real, to: real
      ensures WeightWithin(Log(s0, after.trace), from, to) == Tally(GrantedIn(from, to), after.calls) as real
    {
      StepTrace(configured, weights, start, sys, a, "", from, to);
      StepTally(weights, sys, a, GrantedIn(from, to));
    }
  }

  lemma {:induction false} InvReached(configured: int, weights: map<Endpoint, int>, start: real, run: seq<Action>,
                                      sys: System)
    requires Reaches(configured, weights, start, run, sys)
    ensures Inv(configured, start, sys)
  {
    if run != [] {
      var before: System :| && Reaches(configured, weights, start, Front(run), before)
                            && Enabled(before, Last(run))
                            && sys == Next(weights, before, Last(run));
      InvReached(configured, weights, start, Front(run), before);
      InvStep(configured, weights, start, before, Last(run));
    }
  }

  lemma InvReachable(configured: int, weights: map<Endpoint, int>, start: real, sys: System)
    requires Reachable(configured, weights, start, sys)
    ensures Inv(configured, start, sys)
  {
    var run: seq<Action> :| Reaches(configured, weights, start, run, sys);
    InvReached(configured, weights, start, run, sys);
  }

  lemma TimePasses(configured: int, weights: map<Endpoint, int>, start: real, sys: System)
    requires Reachable(configured, weights, start, sys)
    ensures start <= sys.now
  {
    hide Reachable, CallLaw, OnSchedule, Tally;
    InvReachable(configured, weights, start, sys);
    LogShape(Initial(configured, start), start, sys.trace);
  }

  // ----- what every run keeps

  /** The queue depth that the metrics report is the number of calls inside the waiting section. */
  lemma QueueDepthCountsWaiters(configured: int, weights: map<Endpoint, int>, start: real, sys: System)
    requires Reachable(configured, weights, start, sys)
    ensures sys.limiter.queueDepth == Tally(InQueue, sys.calls)
  {
    InvReachable(configured, weights, start, sys);
  }

  /**
   Exact admission for concurrent calls: in every reachable system a poll about to run is granted exactly if the
   history of all calls admits it.
   */
  lemma TriesAreExact(configured: int, weights: map<Endpoint, int>, start: real, sys: System, a: Action)
    requires Reachable(configured, weights, start, sys) && a.Try? && Enabled(sys, a)
    ensures var c := Next(weights, sys, a).calls[a.i];
            var admitted := Admits(Initial(configured, start).capacity, sys.trace, Section(sys, a)[0]);
            && (c.permit.GrantedAt? <==> admitted)
            && c.phase == (if admitted then Exiting(true) else if a.cancelled then Exiting(false) else Polling)
  {
    InvReachable(configured, weights, start, sys);
    assert CallLaw(sys.calls[a.i]);
    DecisionExact(configured, start, sys.trace, Section(sys, a)[0]);
  }

  /**
   Every call, wherever it is in its code: at most four attempts, none without a grant, none after a success, after
   a failure that is not retryable or after an interrupted back-off; and once it has returned it made an attempt
   exactly if it was granted, returned without an error exactly if its last attempt succeeded, and gave up on a
   retryable failure only because it was interrupted or had made all four.
   */
  lemma CallsKeepTheirLaw(configured: int, weights: map<Endpoint, int>, start: real, sys: System, i: nat)
    requires Reachable(configured, weights, start, sys) && i < |sys.calls|
    ensures var c := sys.calls[i];
            && OnlyLawfulRetries(c)
            && (c.permit.NotGranted? ==> c.outcomes == [])
            && (c.phase.Returned? ==> (c.permit.GrantedAt? <==> c.outcomes != []))
            && (c.phase.Returned? ==> (c.phase.ok <==> c.outcomes != [] && Last(c.outcomes).failure == None))
            && (c.phase.Returned? && c.outcomes != [] && Retryable(Last(c.outcomes)) ==>
                  |c.outcomes| == MAX_ATTEMPTS || (c.sleeps != [] && Last(c.sleeps)))
  {
    InvReachable(configured, weights, start, sys);
    assert CallLaw(sys.calls[i]);
  }

  /** The m-th attempt of a call, counted from one, is its last, by how it ended and how the sleep after it did. */
  predicate IsLastOf(c: Call, m: nat)
    requires 0 < m <= |c.outcomes|
  {
    var o := c.outcomes[m - 1];
    || m == 4
    || o.failure == None
    || (o.status != 429 && o.status < 500 && o.failure != Deadline)
    || (m <= |c.sleeps| && c.sleeps[m - 1])
  }

  /**
   Every concurrent call makes its attempts up to the first that is the last: none that others follow is, and once it
   has returned with attempts made the latest is. A call that has come back from no attempt makes its first.
   */
  lemma CallAttemptsExact(configured: int, weights: map<Endpoint, int>, start: real, sys: System, i: nat)
    requires Reachable(configured, weights, start, sys) && i < |sys.calls|
    ensures var c := sys.calls[i];
            && (forall m | 0 < m < |c.begun| && m <= |c.outcomes| :: !IsLastOf(c, m))
            && (c.phase.Returned? && c.outcomes != [] ==> IsLastOf(c, |c.outcomes|))
            && (c.phase.Sending? && c.outcomes != [] ==> !IsLastOf(c, |c.outcomes|))
  {
    hide Reachable, CallLaw, OnSchedule, Tally, IsLastOf;
    InvReachable(configured, weights, start, sys);
    assert CallLaw(sys.calls[i]);
    LastByLaw(sys.calls[i]);
  }

  lemma LastByLaw(c: Call)
    requires CallLaw(c)
    ensures forall m | 0 < m < |c.begun| && m <= |c.outcomes| :: !IsLastOf(c, m)
    ensures c.phase.Returned? && c.outcomes != [] ==> IsLastOf(c, |c.outcomes|)
    ensures c.phase.Sending? && c.outcomes != [] ==> !IsLastOf(c, |c.outcomes|)
  {
    forall m | 0 < m < |c.begun| && m <= |c.outcomes| ensures !IsLastOf(c, m) {
      if m < |c.outcomes| {
        assert Retryable(c.outcomes[m - 1]) && !c.sleeps[m - 1];
      }
    }
  }

  /** After an attempt a call goes to sleep exactly if it failed with a 429, a server error or a missed deadline. */
  lemma SendsExact(weights: map<Endpoint, int>, sys: System, send: Action)
    requires send.Send? && Enabled(sys, send)
    ensures var c, o := Next(weights, sys, send).calls[send.i], send.outcome;
            && (c.phase.BackingOff?
                <==> o.failure != None && (o.status == 429 || o.status >= 500 || o.failure == Deadline))
            && (c.phase == Returned(true) <==> o.failure == None)
            && (c.phase.BackingOff? || c.phase.Returned?)
  {
  }

  /** A non-critical call about to ask is turned away exactly if the history has no room for one above the reserve. */
  lemma AsksAreExact(configured: int, weights: map<Endpoint, int>, start: real, sys: System, a: Action)
    requires Reachable(configured, weights, start, sys) && a.Ask? && Enabled(sys, a)
    ensures var c, s0 := Next(weights, sys, a).calls[a.i], Initial(configured, start);
            && (c.phase == Returned(false)
                <==> !Fits(s0.capacity, Log(s0, sys.trace), a.at, Reserve(s0.capacity) as real + 1.0))
            && (c.phase == Returned(false) || c.phase == Entering)
  {
    hide Fits, Reachable, CallLaw, OnSchedule, Tally;
    InvReachable(configured, weights, start, sys);
    assert TraceLaw(configured, start, sys);
    BucketInvariant(Initial(configured, start), start, sys.trace);
    LevelExact(configured, start, sys.trace, a.at, Reserve(sys.limiter.capacity) as real + 1.0);
  }

  /** Attempt k of a call, counted from zero, begins no earlier than its grant and the back-offs before it allow. */
  lemma AttemptsTakeTime(configured: int, weights: map<Endpoint, int>, start: real, sys: System, i: nat, k: nat)
    requires Reachable(configured, weights, start, sys) && i < |sys.calls| && k < |sys.calls[i].begun|
    ensures var c := sys.calls[i];
            c.permit.GrantedAt? && c.permit.at + Earliest(k) <= c.begun[k] <= sys.now
  {
    InvReachable(configured, weights, start, sys);
    assert OnSchedule(sys.calls[i], start, sys.now);
  }

  lemma {:induction false} RecordsRelate(calls: seq<Call>, endpoint: Endpoint)
    requires forall c | c in calls :: CallLaw(c)
    ensures Tally(Attempted(endpoint), calls) <= MAX_ATTEMPTS * Tally(GrantsTo(endpoint), calls)
    ensures (forall c | c in calls :: c.phase.Returned?) ==>
              Tally(GrantsTo(endpoint), calls) <= Tally(Attempted(endpoint), calls)
  {
    if calls != [] {
      var c := Last(calls);
      assert c in calls && CallLaw(c);
      assert forall d | d in Front(calls) :: d in calls;
      assert calls == Front(calls) + [c];
      RecordsRelate(Front(calls), endpoint);
    }
  }

  /** requests[e] never exceeds four times the grants of e; once every call has returned it is at least their number. */
  lemma RequestsPerGrant(configured: int, weights: map<Endpoint, int>, start: real, sys: System,
                         endpoint: Endpoint)
    requires Reachable(configured, weights, start, sys)
    ensures var grants := GrantCount(Log(Initial(configured, start), sys.trace), endpoint);
            && Counter(sys.limiter.requests, endpoint) <= MAX_ATTEMPTS * grants
            && ((forall c | c in sys.calls :: c.phase.Returned?) ==> grants <= Counter(sys.limiter.requests, endpoint))
            && Counter(sys.limiter.requests, endpoint) == Tally(Attempted(endpoint), sys.calls)
            && Counter(sys.limiter.failures, endpoint) == Tally(FailedAt(endpoint), sys.calls)
  {
    InvReachable(configured, weights, start, sys);
    RecordsRelate(sys.calls, endpoint);
    CountersExact(configured, start, sys.trace, endpoint);
  }

  lemma Extend(configured: int, weights: map<Endpoint, int>, start: real, sys: System, a: Action)
    requires Reachable(configured, weights, start, sys) && Enabled(sys, a)
    ensures Reachable(configured, weights, start, Next(weights, sys, a))
  {
    var run: seq<Action> :| Reaches(configured, weights, start, run, sys);
    assert Front(run + [a]) == run;
    assert Reaches(configured, weights, start, run + [a], Next(weights, sys, a));
  }

  lemma IdleReachable(configured: int, weights: map<Endpoint, int>, start: real)
    ensures Reachable(configured, weights, start, Idle(configured, start))
  {
    assert Reaches(configured, weights, start, [], Idle(configured, start));
  }

  // ----- retries during a pause

  /** A call asleep after a 429 has its endpoint paused until ten seconds after that answer, or longer. */
  predicate PausedForTen(c: Call, s: State) {
    c.phase.BackingOff? && c.outcomes != [] && Last(c.outcomes).status == 429 ==>
      c.endpoint in s.pausedUntil && c.phase.since + 10.0 <= s.pausedUntil[c.endpoint]
  }

  /** A 429 pauses its endpoint for ten seconds or more. */
  lemma PauseBegins(configured: int, weights: map<Endpoint, int>, start: real, sys: System, a: Action)
    requires Inv(configured, start, sys) && Enabled(sys, a) && a.Send? && a.outcome.status == 429
    ensures var s, endpoint := Next(weights, sys, a).limiter, sys.calls[a.i].endpoint;
            endpoint in s.pausedUntil && a.at + 10.0 <= s.pausedUntil[endpoint]
  {
    var endpoint, e := sys.calls[a.i].endpoint, Section(sys, a)[0];
    var longer := sys.trace + [e];
    assert Front(longer) == sys.trace && Last(longer) == e && Is429(e, endpoint);
    CooldownLaw(configured, start, longer, endpoint);
    CooldownBounds(Count429(longer, endpoint));
  }

  lemma PauseStays(configured: int, weights: map<Endpoint, int>, start: real, sys: System, a: Action,
                   endpoint: Endpoint)
    requires Inv(configured, start, sys) && Enabled(sys, a) && endpoint in sys.limiter.pausedUntil
    ensures var s := Next(weights, sys, a).limiter;
            endpoint in s.pausedUntil && sys.limiter.pausedUntil[endpoint] <= s.pausedUntil[endpoint]
  {
    var section := Section(sys, a);
    if section != [] {
      var longer := sys.trace + [section[0]];
      assert Front(longer) == sys.trace && Last(longer) == section[0];
      ClockAppend(start, sys.trace, section[0], sys.now);
      PauseNeverShrinks(configured, start, longer, endpoint);
    }
  }

  lemma PauseStep(configured: int, weights: map<Endpoint, int>, start: real, sys: System, a: Action, i: nat)
    requires Inv(configured, start, sys) && Enabled(sys, a)
    requires forall c | c in sys.calls :: PausedForTen(c, sys.limiter)
    requires i < |Advance(weights, sys, a)|
    ensures PausedForTen(Advance(weights, sys, a)[i], Next(weights, sys, a).limiter)
  {
    hide Decides, Delay, Inv, Apply;
    var c := Advance(weights, sys, a)[i];
    if c.phase.BackingOff? && c.outcomes != [] && Last(c.outcomes).status == 429 {
      if a.Send? && a.i == i {
        assert Last(c.outcomes) == a.outcome && c.phase.since == a.at;
        PauseBegins(configured, weights, start, sys, a);
      } else {
        assert i < |sys.calls| && c == sys.calls[i] && PausedForTen(sys.calls[i], sys.limiter);
        PauseStays(configured, weights, start, sys, a, c.endpoint);
      }
    }
  }

  lemma {:induction false} PausedReached(configured: int, weights: map<Endpoint, int>, start: real, run: seq<Action>,
                                         sys: System)
    requires Reaches(configured, weights, start, run, sys)
    ensures forall c | c in sys.calls :: PausedForTen(c, sys.limiter)
  {
    if run != [] {
      var before: System :| && Reaches(configured, weights, start, Front(run), before)
                            && Enabled(before, Last(run))
                            && sys == Next(weights, before, Last(run));
      InvReached(configured, weights, start, Front(run), before);
      PausedReached(configured, weights, start, Front(run), before);
      forall i: nat | i < |sys.calls| ensures PausedForTen(sys.calls[i], sys.limiter) {
        PauseStep(configured, weights, start, before, Last(run), i);
      }
    }
  }

  /** A sleep is due 150, 300, 600 or 1200 milliseconds after its attempt, and at most 99 more. */
  predicate DueInTime(c: Call) {
    c.phase.BackingOff? && c.outcomes != [] ==>
      c.phase.due <= c.phase.since + Seconds(Delay(|c.outcomes| - 1) + JITTER)
  }

  lemma DueStep(weights: map<Endpoint, int>, sys: System, a: Action, i: nat)
    requires Ready(sys, a) && i < |Advance(weights, sys, a)|
    requires forall c | c in sys.calls :: DueInTime(c)
    ensures DueInTime(Advance(weights, sys, a)[i])
  {
    hide Decides, Delay, Seconds;
    var c := Advance(weights, sys, a)[i];
    if a.Send? && a.i == i {
      assert |c.outcomes| - 1 == |sys.calls[i].outcomes|;
      MoreMilliseconds(Delay(|c.outcomes| - 1) + a.jitter, Delay(|c.outcomes| - 1) + JITTER);
    } else if i < |sys.calls| {
      assert DueInTime(sys.calls[i]);
    }
  }

  lemma MoreMilliseconds(m: nat, n: nat)
    requires m <= n
    ensures Seconds(m) <= Seconds(n)
  {
  }

  lemma {:induction false} DueReached(configured: int, weights: map<Endpoint, int>, start: real, run: seq<Action>,
                                      sys: System)
    requires Reaches(configured, weights, start, run, sys)
    ensures forall c | c in sys.calls :: DueInTime(c)
  {
    if run != [] {
      var before: System :| && Reaches(configured, weights, start, Front(run), before)
                            && Enabled(before, Last(run))
                            && sys == Next(weights, before, Last(run));
      DueReached(configured, weights, start, Front(run), before);
      forall i: nat | i < |sys.calls| ensures DueInTime(sys.calls[i]) {
        DueStep(weights, before, Last(run), i);
      }
    }
  }

  /**
   A pause stops grants, not retries. Whenever a call wakes up after a 429, it goes on to its next attempt if and
   only if it has one left and its sleep was not interrupted; the pause is not asked about, and is still on unless
   the wake-up comes ten seconds or more after the 429. The sleep before a further attempt is due within 0.7 seconds.
   */
  lemma RetryIgnoresPause(configured: int, weights: map<Endpoint, int>, start: real, sys: System, wake: Action)
    requires Reachable(configured, weights, start, sys) && wake.Wake? && Enabled(sys, wake)
    requires sys.calls[wake.i].outcomes != [] && Last(sys.calls[wake.i].outcomes).status == 429
    ensures var c, after := sys.calls[wake.i], Next(weights, sys, wake);
            && (AtPhase(after, wake.i, Sending) <==> |c.outcomes| < MAX_ATTEMPTS && !wake.interrupted)
            && (wake.at < c.phase.since + 10.0 ==> Paused(after.limiter, c.endpoint, after.now))
            && (|c.outcomes| < MAX_ATTEMPTS ==> c.phase.due <= c.phase.since + 0.7)
  {
    hide Reaches, Delay;
    SleepingReachable(configured, weights, start, sys, wake.i);
    ShortDelays();
    assert Next(weights, sys, wake).limiter == sys.limiter;
  }

  lemma ShortDelays()
    ensures Delay(0) == 150 && Delay(1) == 300 && Delay(2) == 600 && Delay(3) == 1200
  {
  }

  lemma SleepingReachable(configured: int, weights: map<Endpoint, int>, start: real, sys: System, i: nat)
    requires Reachable(configured, weights, start, sys) && i < |sys.calls|
    ensures PausedForTen(sys.calls[i], sys.limiter) && DueInTime(sys.calls[i])
  {
    var run: seq<Action> :| Reaches(configured, weights, start, run, sys);
    PausedReached(configured, weights, start, run, sys);
    DueReached(configured, weights, start, run, sys);
  }

  /**
   And so for every attempt that is answered with a 429: the call makes its next attempt as soon as its sleep is due,
   during the pause, if and only if the attempt was not its fourth and the sleep is not interrupted.
   */
  lemma RetriesInto429(configured: int, weights: map<Endpoint, int>, start: real, sys: System, send: Action,
                       interrupted: bool)
    returns (after: System)
    requires Reachable(configured, weights, start, sys) && send.Send? && Enabled(sys, send)
    requires send.outcome.status == 429
    ensures Reachable(configured, weights, start, after)
    ensures after.now <= send.at + Seconds(Delay(|sys.calls[send.i].outcomes|) + JITTER)
    ensures Paused(after.limiter, sys.calls[send.i].endpoint, after.now)
    ensures AtPhase(after, send.i, Sending) <==> |sys.calls[send.i].outcomes| < MAX_ATTEMPTS - 1 && !interrupted
  {
    hide Reachable, Delay;
    ShortDelays();
    var sent := Next(weights, sys, send);
    Extend(configured, weights, start, sys, send);
    var c := sent.calls[send.i];
    assert Last(c.outcomes) == send.outcome;
    InvReachable(configured, weights, start, sys);
    assert CallLaw(sys.calls[send.i]);
    var wake := Wake(send.i, c.phase.due, interrupted);
    Extend(configured, weights, start, sent, wake);
    RetryIgnoresPause(configured, weights, start, sent, wake);
    after := Next(weights, sent, wake);
  }
}
