/**
 The request limiter described by its history alone.

 A run of the limiter is a sequence of events, one per critical section under its mutex, in the order
 in which the mutex was taken. Nothing in this module keeps a token count, a refill time or a pause map:
 what a poll is answered is said here as a condition on everything that happened before it. Module
 Limiter proves that the constant-size bucket gives the same answers.

 Times are real numbers of seconds; tokens are real numbers.
 */
module LimiterHistory {
  import opened Sequences

  type Endpoint = string

  datatype Event =
    // Budget or Metrics: refills the bucket and reads it
    | Observe(at: real)
    // a call of Wait enters or leaves its queue
    | Enter
    | Leave
    // one turn of the loop of Wait: the clock is read for the refill and again for the pause check
    | Poll(endpoint: Endpoint, weight: int, refillAt: real, checkAt: real)
    // a request came back
    | Record(endpoint: Endpoint, at: real, failed: bool, status: int)

  datatype Grant = Grant(at: real, endpoint: Endpoint, weight: int)

  // ----- time

  /** The last clock reading of a run that began at start. */
  function Clock(start: real, es: seq<Event>): real {
    if es == [] then start
    else match Last(es)
      case Observe(at) => at
      case Poll(_, _, _, checkAt) => checkAt
      case Record(_, at, _, _) => at
      case _ => Clock(start, Front(es))
  }

  /** The clock readings of e are in order and none is before now; a poll asks for at least one token. */
  predicate Follows(now: real, e: Event) {
    match e
    case Observe(at) => now <= at
    case Poll(_, weight, refillAt, checkAt) => now <= refillAt <= checkAt && weight > 0
    case Record(_, at, _, _) => now <= at
    case _ => true
  }

  predicate WellTimed(start: real, es: seq<Event>) {
    es == [] || (WellTimed(start, Front(es)) && Follows(Clock(start, Front(es)), Last(es)))
  }

  // ----- weight

  function Total(gs: seq<Grant>): real {
    if gs == [] then 0.0 else Total(Front(gs)) + Last(gs).weight as real
  }

  /** Weight granted in the closed interval from a to b. */
  function WeightWithin(gs: seq<Grant>, a: real, b: real): real {
    if gs == [] then 0.0
    else WeightWithin(Front(gs), a, b) + if a <= Last(gs).at <= b then Last(gs).weight as real else 0.0
  }

  /** What a bucket of the given capacity per minute gains in the given number of seconds. */
  function Accrued(capacity: int, seconds: real): real {
    seconds * capacity as real / 60.0
  }

  /** Granting x at time t: the burst that began with grant i stays within the capacity plus what accrued since. */
  predicate BurstFits(capacity: int, gs: seq<Grant>, i: nat, t: real, x: real)
    requires i < |gs|
  {
    Total(gs[i..]) + x <= capacity as real + Accrued(capacity, t - gs[i].at)
  }

  /** Granting x at time t, after the grants gs, keeps every burst within its bound. */
  ghost predicate Fits(capacity: int, gs: seq<Grant>, t: real, x: real) {
    && x <= capacity as real
    && forall i | 0 <= i < |gs| :: BurstFits(capacity, gs, i, t, x)
  }

  // ----- cooldown

  predicate Is429(e: Event, endpoint: Endpoint) {
    e.Record? && e.endpoint == endpoint && e.status == 429
  }

  function Count429(es: seq<Event>, endpoint: Endpoint): nat {
    if es == [] then 0
    else Count429(Front(es), endpoint) + if Is429(Last(es), endpoint) then 1 else 0
  }

  function Pow2(n: nat): nat {
    if n == 0 then 1 else 2 * Pow2(n - 1)
  }

  /** Seconds of pause after the n-th 429 of an endpoint. */
  function Cooldown(n: nat): real
    requires n > 0
  {
    var doubled := 10.0 * Pow2(n - 1) as real;
    if doubled <= 300.0 then doubled else 300.0
  }

  /** If event k is a 429 of the endpoint, its own pause is over by time t. */
  predicate PauseOver(es: seq<Event>, k: nat, endpoint: Endpoint, t: real)
    requires k < |es|
  {
    Is429(es[k], endpoint) ==>
      var n := Count429(es[..k + 1], endpoint);
      n > 0 && es[k].at + Cooldown(n) <= t
  }

  /** By time t every 429 of the endpoint, the first as well as the latest, has cooled down. */
  ghost predicate CooledDown(es: seq<Event>, endpoint: Endpoint, t: real) {
    forall k | 0 <= k < |es| :: PauseOver(es, k, endpoint, t)
  }

  // ----- admission

  ghost predicate Admits(capacity: int, es: seq<Event>, poll: Event)
    requires poll.Poll?
    decreases |es|, 1
  {
    && CooledDown(es, poll.endpoint, poll.checkAt)
    && Fits(capacity, Granted(capacity, es), poll.refillAt, poll.weight as real)
  }

  /** The grants of a run, decided one poll at a time from the whole history before it. */
  ghost function Granted(capacity: int, es: seq<Event>): seq<Grant>
    decreases |es|, 0
  {
    if es == [] then []
    else
      var before := Granted(capacity, Front(es));
      var e := Last(es);
      if e.Poll? && Admits(capacity, Front(es), e) then before + [Grant(e.refillAt, e.endpoint, e.weight)] else before
  }

  // ----- lemmas

  lemma AccruedAdds(capacity: int, s: real, t: real)
    ensures Accrued(capacity, s) + Accrued(capacity, t) == Accrued(capacity, s + t)
  {
  }

  lemma NothingAccrues(capacity: int)
    ensures Accrued(capacity, 0.0) == 0.0
  {
  }

  lemma AccruedMonotone(capacity: int, s: real, t: real)
    requires capacity > 0 && s <= t
    ensures Accrued(capacity, s) <= Accrued(capacity, t)
  {
    assert (t - s) * capacity as real >= 0.0;
  }

  lemma CooldownBounds(n: nat)
    requires n > 0
    ensures 10.0 <= Cooldown(n) <= Cooldown(n + 1) <= 300.0
    ensures Cooldown(n + 1) == if 2.0 * Cooldown(n) > 300.0 then 300.0 else 2.0 * Cooldown(n)
  {
    assert Pow2(n) == 2 * Pow2(n - 1);
    if n > 1 { CooldownBounds(n - 1); }
  }

  /** One more event: the endpoint stays cooled down, unless the event is a 429 whose own pause is not over. */
  lemma CooledDownStep(es: seq<Event>, endpoint: Endpoint, t: real)
    requires es != []
    ensures CooledDown(es, endpoint, t)
       <==> CooledDown(Front(es), endpoint, t)
            && (Is429(Last(es), endpoint) ==> Last(es).at + Cooldown(Count429(es, endpoint)) <= t)
  {
    hide PauseOver, Cooldown;
    var n := |es| - 1;
    LastPause(es, endpoint, t);
    forall k | 0 <= k < n ensures PauseOver(es, k, endpoint, t) <==> PauseOver(Front(es), k, endpoint, t) {
      EarlierPause(es, k, endpoint, t);
    }
    assert CooledDown(es, endpoint, t) ==> PauseOver(es, n, endpoint, t);
    if CooledDown(es, endpoint, t) {
      forall k | 0 <= k < n ensures PauseOver(Front(es), k, endpoint, t) {
        assert PauseOver(es, k, endpoint, t);
      }
    }
  }

  lemma LastPause(es: seq<Event>, endpoint: Endpoint, t: real)
    requires es != []
    ensures Is429(Last(es), endpoint) ==> Count429(es, endpoint) > 0
    ensures PauseOver(es, |es| - 1, endpoint, t)
       <==> (Is429(Last(es), endpoint) ==> Last(es).at + Cooldown(Count429(es, endpoint)) <= t)
  {
    assert es[..|es| - 1 + 1] == es;
  }

  lemma EarlierPause(es: seq<Event>, k: nat, endpoint: Endpoint, t: real)
    requires es != [] && k < |es| - 1
    ensures PauseOver(es, k, endpoint, t) <==> PauseOver(Front(es), k, endpoint, t)
  {
    assert es[..k + 1] == Front(es)[..k + 1];
  }

  lemma TotalAppend(gs: seq<Grant>, g: Grant, i: nat)
    requires i <= |gs|
    ensures Total((gs + [g])[i..]) == Total(gs[i..]) + g.weight as real
  {
    var s := (gs + [g])[i..];
    assert Front(s) == gs[i..];
  }

  lemma BurstFitsAppend(capacity: int, gs: seq<Grant>, g: Grant, i: nat, t: real, x: real)
    requires i < |gs|
    ensures BurstFits(capacity, gs + [g], i, t, x)
       <==> BurstFits(capacity, gs, i, g.at, x + g.weight as real - Accrued(capacity, t - g.at))
  {
    TotalAppend(gs, g, i);
    AccruedAdds(capacity, g.at - gs[i].at, t - g.at);
    assert g.at - gs[i].at + (t - g.at) == t - gs[i].at;
  }

  lemma LastBurstFits(capacity: int, gs: seq<Grant>, g: Grant, t: real, x: real)
    ensures BurstFits(capacity, gs + [g], |gs|, t, x)
       <==> x + g.weight as real - Accrued(capacity, t - g.at) <= capacity as real
  {
    assert (gs + [g])[|gs|..] == [g];
    assert Total([g]) == Total(Front([g])) + g.weight as real;
  }

  /** After a grant g there is room for x at time t exactly if g and x together, less what accrues between, had room. */
  lemma FitsAppend(capacity: int, gs: seq<Grant>, g: Grant, t: real, x: real)
    ensures Fits(capacity, gs + [g], t, x)
       <==> x <= capacity as real && Fits(capacity, gs, g.at, x + g.weight as real - Accrued(capacity, t - g.at))
  {
    var y := x + g.weight as real - Accrued(capacity, t - g.at);
    LastBurstFits(capacity, gs, g, t, x);
    assert Fits(capacity, gs + [g], t, x) ==> BurstFits(capacity, gs + [g], |gs|, t, x);
    forall i | 0 <= i < |gs|
      ensures BurstFits(capacity, gs + [g], i, t, x)
         <==> BurstFits(capacity, gs, i, g.at, y)
    {
      BurstFitsAppend(capacity, gs, g, i, t, x);
    }
    if Fits(capacity, gs + [g], t, x) {
      forall i | 0 <= i < |gs| ensures BurstFits(capacity, gs, i, g.at, y) {
        assert BurstFits(capacity, gs + [g], i, t, x);
      }
    }
  }
}
