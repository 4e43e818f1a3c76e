/**
 The candle job: what one pass over all coins and intervals asks of the limiter, and what that means for the
 ten-minute lease the job runs under.
 */
module CandlePass {
  import opened Sequences
  import opened LimiterHistory
  import opened Limiter
  import opened GrantWindows
  import WeightedLimiter
  import JobLock
  import RealMath

  const MS_PER_DAY := 86_400_000

  /** Extra weight of a request for the window from start to end, in milliseconds. */
  function DynamicWeight(start: int, end: int): int {
    if start <= 0 || end <= start then 0
    else
      var days := (end - start) / MS_PER_DAY;
      if days <= 1 then 0
      else if days > 30 then 10
      else days / 3
  }

  function Clipped(days: int): int {
    if days < 0 then 0 else if days > 30 then 30 else days
  }

  /** The weight of one candle request that reaches back the given number of days from end. */
  function CandleWeight(weights: map<Endpoint, int>, days: int, end: int): int {
    WeightedLimiter.WeightOf(weights, "candleSnapshot", DynamicWeight(end - days * MS_PER_DAY, end))
  }

  /**
   A backfill of d days costs a third of d, at most ten, extra; the formula fails exactly when at least three days
   are asked for and the window would begin at or before the epoch, where nothing extra is charged.
   */
  lemma BackfillWeight(days: int, end: int)
    ensures DynamicWeight(end - days * MS_PER_DAY, end) == Clipped(days) / 3
       <==> (days < 3 || days * MS_PER_DAY < end)
  {
    if days > 0 {
      assert (days * MS_PER_DAY) / MS_PER_DAY == days;
    }
  }

  /** The extra weight of any window after the epoch: a third of its whole days, at most ten; an empty one has none. */
  lemma WindowWeight(start: int, end: int, days: nat)
    ensures start > 0 && days * MS_PER_DAY <= end - start < (days + 1) * MS_PER_DAY ==>
              DynamicWeight(start, end) == (if days > 30 then 30 else days) / 3
    ensures start <= 0 || end <= start ==> DynamicWeight(start, end) == 0
  {
    if start > 0 && days * MS_PER_DAY <= end - start < (days + 1) * MS_PER_DAY {
      assert (end - start) / MS_PER_DAY == days;
    }
  }

  /** A candle request weighs what is configured for candles and the extra of its window. */
  lemma CandleWeightExact(weights: map<Endpoint, int>, days: nat, end: int)
    requires "candleSnapshot" in weights && weights["candleSnapshot"] > 0 && days * MS_PER_DAY < end
    ensures CandleWeight(weights, days, end) == weights["candleSnapshot"] + (if days > 30 then 30 else days) / 3
  {
    BackfillWeight(days, end);
  }

  // ----- the pass

  datatype Fetch =
    | FetchFailed
    | Fetched(stored: nat, storeFailed: bool)

  type Request = (string, string)

  function RequestsFor(coin: string, intervals: seq<string>): seq<Request> {
    seq(|intervals|, i requires 0 <= i < |intervals| => (coin, intervals[i]))
  }

  function AllRequests(coins: seq<string>, intervals: seq<string>): seq<Request> {
    if coins == [] then [] else AllRequests(Front(coins), intervals) + RequestsFor(Last(coins), intervals)
  }

  lemma {:induction false} AllRequestsCount(coins: seq<string>, intervals: seq<string>)
    ensures |AllRequests(coins, intervals)| == |coins| * |intervals|
  {
    if coins != [] {
      AllRequestsCount(Front(coins), intervals);
      assert |coins| * |intervals| == (|coins| - 1) * |intervals| + |intervals|;
    }
  }

  /** Coin by coin, and for each coin interval by interval. */
  lemma {:induction false} AllRequestsAt(coins: seq<string>, intervals: seq<string>, c: nat, i: nat)
    requires c < |coins| && i < |intervals|
    ensures c * |intervals| + i < |AllRequests(coins, intervals)|
    ensures AllRequests(coins, intervals)[c * |intervals| + i] == (coins[c], intervals[i])
  {
    var m := |intervals|;
    AllRequestsCount(coins, intervals);
    AllRequestsCount(Front(coins), intervals);
    assert |coins| * m == (|coins| - 1) * m + m;
    if c < |coins| - 1 {
      AllRequestsAt(Front(coins), intervals, c, i);
    }
  }

  lemma {:induction false} AllRequestsPrefix(coins: seq<string>, intervals: seq<string>, n: nat)
    requires n <= |coins|
    ensures AllRequests(coins[..n], intervals) <= AllRequests(coins, intervals)
  {
    if n == |coins| {
      assert coins[..n] == coins;
    } else {
      assert coins[..n] == Front(coins)[..n];
      AllRequestsPrefix(Front(coins), intervals, n);
    }
  }

  lemma NoRequests(intervals: seq<string>)
    ensures AllRequests([], intervals) == []
  {
  }

  lemma NextRequests(coins: seq<string>, intervals: seq<string>, c: nat)
    requires c < |coins|
    ensures AllRequests(coins[..c + 1], intervals)
         == AllRequests(coins[..c], intervals) + RequestsFor(coins[c], intervals)
  {
    assert Front(coins[..c + 1]) == coins[..c];
  }

  function Stored(fetch: nat -> Fetch, n: nat): nat {
    if n == 0 then 0 else Stored(fetch, n - 1) + if fetch(n - 1).Fetched? then fetch(n - 1).stored else 0
  }

  function RowsOf(f: Fetch): nat {
    match f
    case FetchFailed => 0
    case Fetched(stored, _) => stored
  }

  /** The total of the single answers: nothing when all fail, and another answer k changes it by its own rows. */
  lemma {:induction false} StoredExact(fetch: nat -> Fetch, other: nat -> Fetch, k: nat, n: nat)
    requires k < n && forall i | 0 <= i < n && i != k :: other(i) == fetch(i)
    ensures Stored(other, n) - Stored(fetch, n) == RowsOf(other(k)) - RowsOf(fetch(k))
    ensures (forall i | 0 <= i < n :: fetch(i).FetchFailed?) ==> Stored(fetch, n) == 0
  {
    if k < n - 1 {
      StoredExact(fetch, other, k, n - 1);
    } else {
      SameStored(fetch, other, n - 1);
    }
  }

  lemma {:induction false} SameStored(fetch: nat -> Fetch, other: nat -> Fetch, n: nat)
    requires forall i | 0 <= i < n :: other(i) == fetch(i)
    ensures Stored(other, n) == Stored(fetch, n)
    ensures (forall i | 0 <= i < n :: fetch(i).FetchFailed?) ==> Stored(fetch, n) == 0
  {
    if n > 0 { SameStored(fetch, other, n - 1); }
  }

  predicate StoreFails(f: Fetch) {
    f.Fetched? && f.storeFailed
  }

  /**
   One pass. Failed fetches are skipped, a failed store ends the pass. Whatever happens, the requests are a prefix
   of all coins times all intervals in order, and all of them unless a store failed.
   */
  method IngestCandles(coins: seq<string>, intervals: seq<string>, fetch: nat -> Fetch)
    returns (total: nat, failed: bool, requested: seq<Request>)
    ensures requested <= AllRequests(coins, intervals)
    ensures !failed ==> requested == AllRequests(coins, intervals)
    ensures failed ==> requested != [] && StoreFails(fetch(|requested| - 1))
    ensures forall k | 0 <= k < (if failed then |requested| - 1 else |requested|) :: !StoreFails(fetch(k))
    ensures total == Stored(fetch, |requested|)
  {
    hide AllRequests;
    NoRequests(intervals);
    total, failed, requested := 0, false, [];
    for c := 0 to |coins|
      invariant requested == AllRequests(coins[..c], intervals)
      invariant total == Stored(fetch, |requested|) && !failed
      invariant forall k | 0 <= k < |requested| :: !StoreFails(fetch(k))
    {
      ghost var earlier := requested;
      ghost var row := RequestsFor(coins[c], intervals);
      NextRequests(coins, intervals, c);
      AllRequestsPrefix(coins, intervals, c + 1);
      for i := 0 to |intervals|
        invariant requested == earlier + row[..i]
        invariant total == Stored(fetch, |requested|) && !failed
        invariant forall k | 0 <= k < |requested| :: !StoreFails(fetch(k))
      {
        var answer := fetch(|requested|);
        requested := requested + [(coins[c], intervals[i])];
        assert row[..i + 1] == row[..i] + [row[i]];
        if answer.FetchFailed? {
          continue;
        }
        total := total + answer.stored;
        if answer.storeFailed {
          failed := true;
          return;
        }
      }
      assert row[..|intervals|] == row;
    }
    assert coins[..|coins|] == coins;
  }

  // ----- the pass against the lease

  /**
   A pass in which every fetch is granted can stay within the lease of the candles job, in some run of the limiter, if
   and only if it is empty, or its weight per request is within the capacity and its total at most eleven capacities.
   */
  lemma PassFitsLeaseIff(configured: int, start: real, coins: seq<string>, intervals: seq<string>,
                         weights: map<Endpoint, int>, days: int, end: int)
    ensures var c, w := Initial(configured, start).capacity, CandleWeight(weights, days, end);
            CanGrant(configured, start, |AllRequests(coins, intervals)|, w, JobLock.TTL)
            <==> coins == [] || intervals == [] || (w <= c && |coins| * |intervals| * w <= 11 * c)
  {
    hide CanGrant, AllRequests;
    var c, w := Initial(configured, start).capacity, CandleWeight(weights, days, end);
    var n := |coins| * |intervals|;
    AllRequestsCount(coins, intervals);
    NoFactor(|coins|, |intervals|);
    CanGrantIff(configured, start, n, w, JobLock.TTL);
    assert Accrued(c, JobLock.TTL) == 10.0 * c as real;
  }

  lemma NoFactor(m: nat, n: nat)
    ensures m * n == 0 <==> m == 0 || n == 0
  {
  }

  /**
   With the shipped settings (capacity 1200, candle weight 20, fourteen days, four intervals) some run grants the whole
   pass within its lease if and only if there are at most 137 coins.
   */
  lemma DefaultCoinLimit(start: real, coins: seq<string>, intervals: seq<string>, end: int)
    requires 14 * MS_PER_DAY < end && |intervals| == 4
    ensures CanGrant(1200, start, |AllRequests(coins, intervals)|, CandleWeight(map["candleSnapshot" := 20], 14, end),
                     JobLock.TTL)
       <==> |coins| <= 137
  {
    hide CanGrant, AllRequests;
    BackfillWeight(14, end);
    PassFitsLeaseIff(1200, start, coins, intervals, map["candleSnapshot" := 20], 14, end);
  }

  /**
   A fully granted pass that weighs more than eleven capacities outlasts the lease it was given when it began, or
   before. Once that lease is over, and before the pass is, any other process that tries gets in beside it; one that
   tries sooner does not.
   */
  lemma HeavyPassCanBeOverlapped(configured: int, start: real, es: seq<Event>, chosen: seq<nat>,
                                 coins: seq<string>, intervals: seq<string>,
                                 weights: map<Endpoint, int>, days: int, end: int, a: real, b: real,
                                 run: seq<JobLock.Step>, p: JobLock.Pid, q: JobLock.Pid, at: real)
    requires WellTimed(start, es) && a <= b
    requires |chosen| == |AllRequests(coins, intervals)|
    requires Chosen(Log(Initial(configured, start), es), chosen, CandleWeight(weights, days, end), a, b)
    requires |coins| * |intervals| * CandleWeight(weights, days, end) > 11 * Initial(configured, start).capacity
    requires JobLock.Legal(run) && JobLock.Timely(run, "candles") && JobLock.Clock(run) <= at
    requires JobLock.Holds(JobLock.Final(run), p, "candles") && q !in JobLock.Final(run).inside
    requires JobLock.Final(run).inside[p].until <= a + JobLock.TTL
    ensures var s := JobLock.Final(run);
            var after := JobLock.Next(s, JobLock.Acquire(q, "candles", at, at));
            && s.inside[p].until < b
            && JobLock.Holds(after, p, "candles")
            && (JobLock.Holds(after, q, "candles") <==> s.inside[p].until < at)
            && (b <= at ==> JobLock.Holds(after, q, "candles"))
  {
    hide Chosen, WellTimed, Log, AllRequests, CandleWeight, JobLock.Legal, JobLock.Timely, JobLock.Final;
    var w, c := CandleWeight(weights, days, end), Initial(configured, start).capacity;
    AllRequestsCount(coins, intervals);
    GrantsNeedTime(configured, start, es, chosen, w, a, b);
    MoreThanEleven(c, |chosen| * w, b - a);
    JobLock.StolenIffOverrun(run, "candles", p, q, at);
  }

  lemma MoreThanEleven(capacity: int, weight: int, seconds: real)
    requires capacity > 0 && weight > 11 * capacity
    requires weight as real <= capacity as real + Accrued(capacity, seconds)
    ensures seconds > JobLock.TTL
  {
    RealMath.CancelFactor(seconds, JobLock.TTL, capacity as real);
  }
}
