/**
 How much the limiter can grant in a window of time, exactly: a bound that every run obeys, and a run that reaches it.
 */
module GrantWindows {
  import opened Sequences
  import opened LimiterHistory
  import opened Limiter
  import RealMath

  /** The chosen positions of the log are distinct grants of one weight, made between a and b. */
  ghost predicate Chosen(gs: seq<Grant>, chosen: seq<nat>, weight: nat, a: real, b: real) {
    && (forall i, j | 0 <= i < j < |chosen| :: chosen[i] < chosen[j])
    && (forall i | 0 <= i < |chosen| ::
          chosen[i] < |gs| && gs[chosen[i]].weight == weight && a <= gs[chosen[i]].at <= b)
  }

  /** Distinct grants of one weight within a window weigh no more than the window. */
  lemma {:induction false} ChosenWithin(gs: seq<Grant>, chosen: seq<nat>, weight: nat, a: real, b: real)
    requires forall g | g in gs :: g.weight > 0
    requires Chosen(gs, chosen, weight, a, b)
    ensures (|chosen| * weight) as real <= WeightWithin(gs, a, b)
  {
    assert chosen == [] || chosen[0] < |gs|;
    if gs != [] {
      assert forall g | g in Front(gs) :: g in gs;
      assert Last(gs) in gs;
      if chosen != [] && Last(chosen) == |gs| - 1 {
        ChosenWithin(Front(gs), Front(chosen), weight, a, b);
        assert |chosen| * weight == (|chosen| - 1) * weight + weight;
      } else {
        assert forall i | 0 <= i < |chosen| :: chosen[i] <= Last(chosen);
        ChosenWithin(Front(gs), chosen, weight, a, b);
      }
    }
  }

  /**
   In every run of the limiter, grants of the same weight that fall between a and b, however many other callers are
   served meanwhile, weigh no more than one capacity and what accrues in that time.
   */
  lemma GrantsNeedTime(configured: int, start: real, es: seq<Event>, chosen: seq<nat>, weight: nat, a: real, b: real)
    requires WellTimed(start, es) && a <= b
    requires Chosen(Log(Initial(configured, start), es), chosen, weight, a, b)
    ensures var c := Initial(configured, start).capacity;
            (|chosen| * weight) as real <= c as real + Accrued(c, b - a)
  {
    var s0 := Initial(configured, start);
    LogShape(s0, start, es);
    ChosenWithin(Log(s0, es), chosen, weight, a, b);
    WindowBound(configured, start, es, a, b);
  }

  /** A weight that was granted once is within the capacity. */
  lemma GrantedWithinCapacity(configured: int, start: real, es: seq<Event>, chosen: seq<nat>, weight: nat,
                              a: real, b: real)
    requires WellTimed(start, es) && chosen != []
    requires Chosen(Log(Initial(configured, start), es), chosen, weight, a, b)
    ensures weight <= Initial(configured, start).capacity
  {
    var at := Log(Initial(configured, start), es)[chosen[0]].at;
    GrantsNeedTime(configured, start, es, [chosen[0]], weight, at, at);
    NothingAccrues(Initial(configured, start).capacity);
  }

  // ----- a run that wastes nothing

  /** One request: queue, take the tokens, leave the queue, record the answer. */
  function Request(endpoint: Endpoint, weight: int, at: real): seq<Event> {
    [Enter, Poll(endpoint, weight, at, at), Leave, Record(endpoint, at, false, 200)]
  }

  /** When the first n requests of the weight can all have been granted, seconds after the start. */
  function ReadyAfter(capacity: int, weight: nat, n: nat): real
    requires capacity > 0
  {
    if n * weight <= capacity then 0.0 else (n * weight - capacity) as real * 60.0 / capacity as real
  }

  /** The n requests one after the other, each as soon as its tokens are there. */
  function Requests(capacity: int, endpoint: Endpoint, weight: nat, start: real, n: nat): seq<Event>
    requires capacity > 0
  {
    if n == 0 then []
    else Requests(capacity, endpoint, weight, start, n - 1)
         + Request(endpoint, weight, start + ReadyAfter(capacity, weight, n))
  }

  lemma Appended(s0: State, start: real, es: seq<Event>, e: Event)
    requires WellTimed(start, es) && Follows(Clock(start, es), e)
    ensures WellTimed(start, es + [e]) && Run(s0, es + [e]) == Apply(Run(s0, es), e)
    ensures Clock(start, es + [e]) == if e.Poll? then e.checkAt else if e.Record? then e.at
                                      else if e.Observe? then e.at else Clock(start, es)
    ensures Log(s0, es + [e]) == Log(s0, es) + if e.Poll? && Decides(Run(s0, es), e)
                                               then [Grant(e.refillAt, e.endpoint, e.weight)] else []
  {
    hide Apply, Decides;
    assert Front(es + [e]) == es && Last(es + [e]) == e;
  }

  lemma RequestGranted(s0: State, start: real, es: seq<Event>, endpoint: Endpoint, weight: nat, at: real)
    requires WellTimed(start, es) && Clock(start, es) <= at && weight > 0
    requires var s := Run(s0, es); s.pausedUntil == map[] && s.lastRefill <= at && weight as real <= Level(s, at)
    ensures var longer := es + Request(endpoint, weight, at);
            var s, after := Run(s0, es), Run(s0, longer);
            && WellTimed(start, longer) && Clock(start, longer) == at
            && after.pausedUntil == map[] && after.lastRefill == at && after.capacity == s.capacity
            && after.tokens == Level(s, at) - weight as real
            && Log(s0, longer) == Log(s0, es) + [Grant(at, endpoint, weight)]
  {
    hide Accrued, Run, Log, WellTimed, Clock;
    var enter, poll, leave, record := Enter, Poll(endpoint, weight, at, at), Leave, Record(endpoint, at, false, 200);
    Appended(s0, start, es, enter);
    Appended(s0, start, es + [enter], poll);
    Appended(s0, start, es + [enter] + [poll], leave);
    Appended(s0, start, es + [enter] + [poll] + [leave], record);
    assert es + Request(endpoint, weight, at) == es + [enter] + [poll] + [leave] + [record];
  }

  /** What the bucket holds when the next request polls: its weight, or more while the first capacity lasts. */
  lemma NextLevel(s: State, start: real, weight: nat, n: nat)
    requires s.capacity > 0 && 0 < weight <= s.capacity
    requires s.lastRefill == start + ReadyAfter(s.capacity, weight, n)
    requires s.tokens == if n * weight <= s.capacity then (s.capacity - n * weight) as real else 0.0
    ensures var at := start + ReadyAfter(s.capacity, weight, n + 1);
            && s.lastRefill <= at
            && Level(s, at)
               == if (n + 1) * weight <= s.capacity then (s.capacity - n * weight) as real else weight as real
  {
    var c, at := s.capacity, start + ReadyAfter(s.capacity, weight, n + 1);
    var m := (n + 1) * weight;
    assert m == n * weight + weight;
    if m > c {
      var gained := if n * weight <= c then m - c else weight;
      AccruedIn(c, gained);
      assert gained as real * 60.0 / c as real > 0.0;
      if n * weight > c {
        ApartBy(c, m - c, n * weight - c);
      }
      assert at - s.lastRefill == gained as real * 60.0 / c as real;
    }
  }

  lemma AccruedIn(capacity: int, weight: int)
    requires capacity > 0 && weight > 0
    ensures Accrued(capacity, weight as real * 60.0 / capacity as real) == weight as real
    ensures weight as real * 60.0 / capacity as real > 0.0
  {
  }

  lemma ApartBy(capacity: int, m: int, n: int)
    requires capacity > 0
    ensures m as real * 60.0 / capacity as real - n as real * 60.0 / capacity as real
         == (m - n) as real * 60.0 / capacity as real
  {
  }

  lemma ReadyAtOnce(capacity: int, weight: nat)
    requires capacity > 0
    ensures ReadyAfter(capacity, weight, 0) == 0.0
  {
  }

  /** Every one of the n requests is granted, the last at its time. */
  lemma {:induction false} RequestsGranted(configured: int, endpoint: Endpoint, weight: nat, start: real, n: nat)
    requires 0 < weight <= Initial(configured, start).capacity
    ensures var s0 := Initial(configured, start);
            var es := Requests(s0.capacity, endpoint, weight, start, n);
            var s := Run(s0, es);
            && WellTimed(start, es) && Clock(start, es) == start + ReadyAfter(s0.capacity, weight, n)
            && s.capacity == s0.capacity && s.pausedUntil == map[]
            && s.lastRefill == start + ReadyAfter(s0.capacity, weight, n)
            && s.tokens == (if n * weight <= s0.capacity then (s0.capacity - n * weight) as real else 0.0)
            && |Log(s0, es)| == n && (forall g | g in Log(s0, es) :: g.weight == weight)
  {
    hide Level, ReadyAfter, Request, Apply, Decides;
    var s0 := Initial(configured, start);
    if n == 0 {
      ReadyAtOnce(s0.capacity, weight);
    } else {
      var es := Requests(s0.capacity, endpoint, weight, start, n - 1);
      RequestsGranted(configured, endpoint, weight, start, n - 1);
      NextLevel(Run(s0, es), start, weight, n - 1);
      assert n * weight == (n - 1) * weight + weight;
      RequestGranted(s0, start, es, endpoint, weight, start + ReadyAfter(s0.capacity, weight, n));
    }
  }

  // ----- what can be granted

  /** Some run grants n requests of the weight within the given time. */
  ghost predicate CanGrant(configured: int, start: real, n: nat, weight: nat, seconds: real) {
    exists es: seq<Event>, chosen: seq<nat>, a: real :: Grants(configured, start, es, chosen, n, weight, a, seconds)
  }

  ghost predicate Grants(configured: int, start: real, es: seq<Event>, chosen: seq<nat>, n: nat, weight: nat, a: real,
                         seconds: real) {
    WellTimed(start, es) && |chosen| == n && Chosen(Log(Initial(configured, start), es), chosen, weight, a, a + seconds)
  }

  /**
   The window bound is exact: n requests of weight w can be granted within T seconds if and only if there are none, or
   w is within the capacity C and n w at most C + C T / 60.
   */
  lemma CanGrantIff(configured: int, start: real, n: nat, weight: nat, seconds: real)
    requires weight > 0 && seconds >= 0.0
    ensures var c := Initial(configured, start).capacity;
            CanGrant(configured, start, n, weight, seconds)
            <==> n == 0 || (weight <= c && (n * weight) as real <= c as real + Accrued(c, seconds))
  {
    hide Accrued, WellTimed, Log;
    var s0 := Initial(configured, start);
    var c := s0.capacity;
    if CanGrant(configured, start, n, weight, seconds) && n > 0 {
      var es: seq<Event>, chosen: seq<nat>, a: real :| Grants(configured, start, es, chosen, n, weight, a, seconds);
      GrantsNeedTime(configured, start, es, chosen, weight, a, a + seconds);
      GrantedWithinCapacity(configured, start, es, chosen, weight, a, a + seconds);
    }
    if n == 0 {
      NothingAsked(configured, start, weight, seconds);
    } else if weight <= c && (n * weight) as real <= c as real + Accrued(c, seconds) {
      FastestGrants(configured, start, n, weight, seconds);
    }
  }

  lemma NothingAsked(configured: int, start: real, weight: nat, seconds: real)
    ensures CanGrant(configured, start, 0, weight, seconds)
  {
    assert Grants(configured, start, [], [], 0, weight, 0.0, seconds);
  }

  lemma ReadyBy(capacity: int, n: nat, weight: nat, seconds: real)
    requires capacity > 0 && seconds >= 0.0
    requires (n * weight) as real <= capacity as real + Accrued(capacity, seconds)
    ensures ReadyAfter(capacity, weight, n) <= seconds
  {
    RealMath.CancelFactor(ReadyAfter(capacity, weight, n), seconds, capacity as real);
  }

  lemma FastestGrants(configured: int, start: real, n: nat, weight: nat, seconds: real)
    requires 0 < weight <= Initial(configured, start).capacity && seconds >= 0.0
    requires var c := Initial(configured, start).capacity; (n * weight) as real <= c as real + Accrued(c, seconds)
    ensures CanGrant(configured, start, n, weight, seconds)
  {
    hide Accrued, WellTimed, Log, ReadyAfter;
    var s0 := Initial(configured, start);
    var es := Requests(s0.capacity, "candleSnapshot", weight, start, n);
    var chosen: seq<nat> := seq(n, i requires 0 <= i < n => i);
    RequestsGranted(configured, "candleSnapshot", weight, start, n);
    ReadyBy(s0.capacity, n, weight, seconds);
    LogShape(s0, start, es);
    assert Grants(configured, start, es, chosen, n, weight, start, seconds);
  }

  /** For every total weight n w of at least one capacity some run meets the bound of some window with equality. */
  lemma WindowBoundReached(configured: int, start: real, n: nat, weight: nat) returns (es: seq<Event>, b: real)
    requires 0 < weight <= Initial(configured, start).capacity <= n * weight
    ensures WellTimed(start, es) && start <= b
    ensures var c := Initial(configured, start).capacity;
            WeightWithin(Log(Initial(configured, start), es), start, b) == c as real + Accrued(c, b - start)
            == (n * weight) as real
  {
    hide Accrued, WellTimed, Log;
    var s0 := Initial(configured, start);
    var c := s0.capacity;
    var chosen: seq<nat> := seq(n, i requires 0 <= i < n => i);
    es, b := Requests(c, "candleSnapshot", weight, start, n), start + ReadyAfter(c, weight, n);
    RequestsGranted(configured, "candleSnapshot", weight, start, n);
    LogShape(s0, start, es);
    ChosenWithin(Log(s0, es), chosen, weight, start, b);
    WindowBound(configured, start, es, start, b);
    if n * weight > c {
      AccruedIn(c, n * weight - c);
    } else {
      NothingAccrues(c);
    }
    assert Accrued(c, b - start) == (n * weight - c) as real;
  }
}
