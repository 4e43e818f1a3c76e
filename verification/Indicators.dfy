/**
 The price indicators: returns, average range, the directional index and the rescaled-range estimate.
 */
module Indicators {
  import opened Sequences
  import opened RealMath
  import opened Series

  datatype Candle = Candle(time: int, open: real, high: real, low: real, close: real, volume: real)

  function Tail<T>(values: seq<T>, n: nat): seq<T> {
    if |values| <= n then values else values[|values| - n..]
  }

  function LastOrZero(values: seq<real>): real {
    if values == [] then 0.0 else Last(values)
  }

  function Ratio(a: real, b: real): real {
    if b == 0.0 then 0.0 else a / b
  }

  /** The last n values, or all if there are fewer, in their order. */
  lemma TailExact<T>(values: seq<T>, n: nat)
    ensures var tail := Tail(values, n);
            && |tail| == (if |values| <= n then |values| else n)
            && forall i | 0 <= i < |tail| :: tail[i] == values[|values| - |tail| + i]
  {
  }

  // ----- returns

  function ReturnN(values: seq<real>, n: nat): real {
    if |values| <= n || values[|values| - 1 - n] == 0.0 then 0.0
    else Last(values) / values[|values| - 1 - n] - 1.0
  }

  /** Step returns; a step that starts at zero has none. */
  function Returns(values: seq<real>): seq<real> {
    if |values| < 2 then []
    else
      var earlier, from := Returns(Front(values)), values[|values| - 2];
      if from != 0.0 then earlier + [Last(values) / from - 1.0] else earlier
  }

  method ComputeReturns(values: seq<real>) returns (out: seq<real>)
    ensures out == Returns(values)
  {
    out := [];
    if |values| == 0 {
      return;
    }
    for i := 1 to |values|
      invariant out == Returns(values[..i])
    {
      assert Front(values[..i + 1]) == values[..i];
      if values[i - 1] != 0.0 {
        out := out + [values[i] / values[i - 1] - 1.0];
      }
    }
    assert values[..|values|] == values;
  }

  /** What r is over the last n steps: the growth that takes the value n steps ago to the last, if it is not zero. */
  predicate GrowsBy(values: seq<real>, n: nat, r: real) {
    if n < |values| && values[|values| - 1 - n] != 0.0
    then IsGrowth(r, values[|values| - 1 - n], Last(values))
    else r == 0.0
  }

  lemma ReturnExact(values: seq<real>, n: nat)
    ensures GrowsBy(values, n, ReturnN(values, n))
  {
    if n < |values| && values[|values| - 1 - n] != 0.0 {
      GrowthOf(Last(values), values[|values| - 1 - n]);
    }
  }

  lemma GrowthOf(to: real, from: real)
    requires from != 0.0
    ensures Times(1.0 + (to / from - 1.0), from) == to
  {
    assert to / from * from == to;
  }

  predicate IsGrowth(r: real, from: real, to: real) {
    Times(1.0 + r, from) == to
  }

  /** The growths rs are those of the steps that start at the positions from, in order; all others start at zero. */
  predicate Growths(values: seq<real>, from: seq<nat>, rs: seq<real>) {
    && |from| == |rs|
    && (forall k, l | 0 <= k < l < |from| :: from[k] < from[l])
    && (forall k | 0 <= k < |from| ::
          from[k] + 1 < |values| && values[from[k]] != 0.0 && IsGrowth(rs[k], values[from[k]], values[from[k] + 1]))
    && (forall i: nat | i + 1 < |values| && values[i] != 0.0 :: i in from)
  }

  lemma OneMoreStep(values: seq<real>, from: seq<nat>, rs: seq<real>)
    requires |values| >= 2 && Growths(Front(values), from, rs)
    ensures var i := |values| - 2;
            if values[i] == 0.0 then Growths(values, from, rs)
            else Growths(values, from + [i], rs + [Last(values) / values[i] - 1.0])
  {
    hide IsGrowth;
    var i := |values| - 2;
    if values[i] != 0.0 {
      StepGrowth(Last(values), values[i]);
      var longer := from + [i];
      assert longer[|from|] == i && forall k | 0 <= k < |from| :: longer[k] == from[k];
    }
  }

  /** The step returns are the growths of exactly the steps that do not start at zero, in their order. */
  lemma {:induction false} ReturnsExact(values: seq<real>) returns (from: seq<nat>)
    ensures Growths(values, from, Returns(values))
  {
    hide Growths;
    if |values| >= 2 {
      from := ReturnsExact(Front(values));
      OneMoreStep(values, from, Returns(Front(values)));
      if values[|values| - 2] != 0.0 {
        from := from + [|values| - 2];
      }
    } else {
      from := [];
      NoSteps(values);
    }
  }

  lemma NoSteps(values: seq<real>)
    requires |values| < 2
    ensures Growths(values, [], [])
  {
  }

  lemma StepGrowth(to: real, from: real)
    requires from != 0.0
    ensures IsGrowth(to / from - 1.0, from, to)
  {
    GrowthOf(to, from);
  }

  function Compounded(rs: seq<real>): real {
    if rs == [] then 1.0 else Times(Compounded(Front(rs)), 1.0 + Last(rs))
  }

  lemma QuotientChain(base: real, from: real, to: real)
    requires base != 0.0 && from != 0.0
    ensures Times(from / base, to / from) == to / base
  {
  }

  lemma ReturnFromBase(values: seq<real>, n: nat)
    requires n < |values| && (n > 0 ==> values[|values| - 1 - n] != 0.0)
    ensures 1.0 + ReturnN(values, n) == if n == 0 then 1.0 else Last(values) / values[|values| - 1 - n]
  {
    if n == 0 && Last(values) != 0.0 { SelfQuotient(Last(values)); }
  }

  lemma SelfQuotient(x: real)
    requires x != 0.0
    ensures x / x == 1.0
  {
  }

  /**
   The n-step return is the compounding of the last n step returns, for every n below the length, as long as none of
   the n values it starts its steps from is zero. The last value, and every value before the window, may be zero.
   */
  lemma {:induction false} Compounding(values: seq<real>, n: nat)
    requires n < |values|
    requires forall i | |values| - 1 - n <= i < |values| - 1 :: values[i] != 0.0
    ensures n <= |Returns(values)|
    ensures 1.0 + ReturnN(values, n) == Compounded(Returns(values)[|Returns(values)| - n..])
  {
    var rs := Returns(values);
    ReturnFromBase(values, n);
    if n == 0 {
      assert rs[|rs|..] == [];
    } else {
      var earlier := Front(values);
      var es := Returns(earlier);
      assert forall i | |earlier| - 1 - (n - 1) <= i < |earlier| - 1 :: earlier[i] == values[i];
      Compounding(earlier, n - 1);
      ReturnFromBase(earlier, n - 1);
      var base, from := values[|values| - 1 - n], values[|values| - 2];
      QuotientChain(base, from, Last(values));
      CompoundOneMore(es, Last(values) / from - 1.0, n - 1);
    }
  }

  lemma CompoundOneMore(es: seq<real>, r: real, n: nat)
    requires n <= |es|
    ensures var rs := es + [r];
            Compounded(rs[|rs| - (n + 1)..]) == Times(Compounded(es[|es| - n..]), 1.0 + r)
  {
    var rs := es + [r];
    assert Front(rs[|rs| - (n + 1)..]) == es[|es| - n..];
  }

  // ----- ranges

  function RangeSum(candles: seq<Candle>): real {
    if candles == [] then 0.0 else RangeSum(Front(candles)) + (Last(candles).high - Last(candles).low)
  }

  function Move(candles: seq<Candle>): real
    requires candles != []
  {
    Abs(Last(candles).close - candles[0].close)
  }

  function Atr(candles: seq<Candle>): real {
    if candles == [] then 0.0 else RangeSum(candles) / |candles| as real
  }

  function Adx(candles: seq<Candle>): real {
    if |candles| < 2 || RangeSum(candles) == 0.0 then 0.0
    else Clamp(Move(candles) / RangeSum(candles) * 100.0)
  }

  method SumRanges(candles: seq<Candle>) returns (sum: real)
    ensures sum == RangeSum(candles)
  {
    sum := 0.0;
    for i := 0 to |candles|
      invariant sum == RangeSum(candles[..i])
    {
      assert Front(candles[..i + 1]) == candles[..i];
      sum := sum + (candles[i].high - candles[i].low);
    }
    assert candles[..|candles|] == candles;
  }

  method ComputeAtr(candles: seq<Candle>) returns (atr: real)
    ensures atr == Atr(candles)
  {
    if |candles| == 0 {
      return 0.0;
    }
    var sum := SumRanges(candles);
    atr := sum / |candles| as real;
  }

  method ComputeAdx(candles: seq<Candle>) returns (adx: real)
    ensures adx == Adx(candles)
  {
    if |candles| < 2 {
      return 0.0;
    }
    var move := Abs(candles[|candles| - 1].close - candles[0].close);
    var rangeSum := SumRanges(candles);
    if rangeSum == 0.0 {
      return 0.0;
    }
    adx := Clamp(move / rangeSum * 100.0);
  }

  function Highs(candles: seq<Candle>): seq<real> {
    seq(|candles|, i requires 0 <= i < |candles| => candles[i].high)
  }

  function Lows(candles: seq<Candle>): seq<real> {
    seq(|candles|, i requires 0 <= i < |candles| => candles[i].low)
  }

  lemma {:induction false} RangeSumSplit(candles: seq<Candle>)
    ensures RangeSum(candles) == Sum(Highs(candles)) - Sum(Lows(candles))
  {
    if candles != [] {
      RangeSumSplit(Front(candles));
      assert Front(Highs(candles)) == Highs(Front(candles)) && Front(Lows(candles)) == Lows(Front(candles));
    }
  }

  /** The average range times the number of candles is what the highs exceed the lows by. */
  lemma AtrExact(candles: seq<Candle>)
    ensures if candles == [] then Atr(candles) == 0.0
            else Times(Atr(candles), |candles| as real) == Sum(Highs(candles)) - Sum(Lows(candles))
  {
    RangeSumSplit(candles);
    if candles != [] {
      assert RangeSum(candles) / |candles| as real * |candles| as real == RangeSum(candles);
    }
  }

  /** The index is the share of the summed ranges that the move from the first to the last close makes, in percent. */
  predicate IsShare(candles: seq<Candle>, adx: real) {
    var ranges := Sum(Highs(candles)) - Sum(Lows(candles));
    if |candles| < 2 || ranges <= 0.0 then adx == 0.0
    else
      var move := Abs(candles[|candles| - 1].close - candles[0].close);
      if move >= ranges then adx == 100.0 else Times(adx, ranges) == 100.0 * move
  }

  lemma AdxExact(candles: seq<Candle>)
    ensures IsShare(candles, Adx(candles))
  {
    RangeSumSplit(candles);
    var ranges := RangeSum(candles);
    if |candles| >= 2 && ranges != 0.0 {
      ShareOf(Move(candles), ranges);
    }
  }

  lemma ShareOf(move: real, ranges: real)
    requires move >= 0.0 && ranges != 0.0
    ensures var share := Clamp(move / ranges * 100.0);
            if ranges < 0.0 then share == 0.0
            else if move >= ranges then share == 100.0
            else Times(share, ranges) == 100.0 * move
  {
    hide Times;
    QuotientTimes(move, ranges);
    if ranges > 0.0 {
      ShareOfPositive(move / ranges, move, ranges);
    } else {
      ShareOfNegative(move / ranges, move, ranges);
    }
  }

  lemma ShareOfPositive(q: real, move: real, ranges: real)
    requires move >= 0.0 && ranges > 0.0 && Times(q, ranges) == move
    ensures q >= 0.0 && (move >= ranges <==> q >= 1.0) && Times(q * 100.0, ranges) == 100.0 * move
  {
    hide Times;
    TimesNext(q - 1.0, ranges);
    FactorSign(q, ranges);
    FactorSign(q - 1.0, ranges);
    HundredTimes(q, ranges);
  }

  lemma HundredTimes(q: real, x: real)
    ensures Times(q * 100.0, x) == 100.0 * Times(q, x)
  {
  }

  lemma FactorSign(x: real, c: real)
    requires c > 0.0
    ensures Times(x, c) >= 0.0 <==> x >= 0.0
  {
    if x >= 0.0 {
      TimesNonNegative(x, c);
    } else {
      TimesPositive(-x, c);
      assert Times(-x, c) == -Times(x, c);
    }
  }

  lemma ShareOfNegative(q: real, move: real, ranges: real)
    requires move >= 0.0 && ranges < 0.0 && Times(q, ranges) == move
    ensures q <= 0.0
  {
    FactorSign(-q, -ranges);
    assert Times(-q, -ranges) == Times(q, ranges);
  }

  predicate WellFormed(c: Candle) {
    c.low <= c.open <= c.high && c.low <= c.close <= c.high
  }

  /** Every candle contains its open and close, and opens where the one before it closed. */
  predicate Continuous(candles: seq<Candle>) {
    && (forall i | 0 <= i < |candles| :: WellFormed(candles[i]))
    && (forall i | 0 < i < |candles| :: candles[i].open == candles[i - 1].close)
  }

  lemma {:induction false} MoveWithinRanges(candles: seq<Candle>)
    requires candles != [] && Continuous(candles)
    ensures Move(candles) <= RangeSum(candles) - (candles[0].high - candles[0].low)
  {
    if |candles| == 1 {
      assert Front(candles) == [];
    } else {
      MoveWithinRanges(Front(candles));
      assert WellFormed(Last(candles)) && Last(candles).open == Last(Front(candles)).close;
    }
  }

  lemma PercentWithin(part: real, whole: real)
    requires 0.0 <= part <= whole && whole > 0.0
    ensures 0.0 <= part / whole * 100.0 <= 100.0
  {
    CancelFactor(0.0, part / whole, whole);
    CancelFactor(part / whole, 1.0, whole);
  }

  /** On continuous candles the total move telescopes into the ranges, so the clamp of the index never binds. */
  lemma AdxNeedsNoClamp(candles: seq<Candle>)
    requires Continuous(candles)
    ensures 0.0 <= Adx(candles) <= 100.0
    ensures Adx(candles) == if |candles| < 2 || RangeSum(candles) == 0.0 then 0.0
                            else Move(candles) / RangeSum(candles) * 100.0
  {
    if |candles| >= 2 && RangeSum(candles) != 0.0 {
      MoveWithinRanges(candles);
      assert WellFormed(candles[0]);
      PercentWithin(Move(candles), RangeSum(candles));
    }
  }

  // ----- the rescaled-range estimate

  const MIN_STD := 0.000_000_001

  lemma LogOfPowers(math: Math)
    requires math.Valid()
    ensures math.log(1.0) == 0.0 && math.log(2.0) > 0.0
    ensures math.log(16.0) == 4.0 * math.log(2.0) && math.log(128.0) == 7.0 * math.log(2.0)
  {
    assert math.Product(1.0, 1.0) && math.Increasing(1.0, 2.0);
    assert math.Product(2.0, 2.0) && math.Product(4.0, 4.0) && math.Product(8.0, 16.0) && math.Product(2.0, 4.0);
  }

  lemma LogMonotone(math: Math, x: real, y: real)
    requires math.Valid() && 0.0 < x <= y
    ensures math.log(x) <= math.log(y)
  {
    if x < y {
      assert math.Increasing(x, y);
    }
  }

  /** The logarithm of zero is minus infinity in the program, which the final clamp takes to zero. */
  function Hurst(math: Math, values: seq<real>): real
    requires math.Valid()
  {
    if |values| < 20 then 0.5
    else
      LogOfPowers(math);
      LogMonotone(math, 2.0, |values| as real);
      var rs := Range(values) / Max(Std(math, values), MIN_STD);
      if rs == 0.0 then 0.0 else Clamp01(math.log(rs) / math.log(|values| as real) + 0.1)
  }

  /** The rescaled range r of n values satisfies r^2 <= 2 n, and r >= 2 unless the deviation is below the floor. */
  lemma RescaledRange(math: Math, values: seq<real>)
    requires math.Valid() && values != []
    ensures var s := Std(math, values);
            var r := Range(values) / Max(s, MIN_STD);
            r >= 0.0 && Square(r) <= 2.0 * |values| as real && (s >= MIN_STD ==> r >= 2.0)
  {
    var n, v, s, range := |values| as real, Variance(values), Std(math, values), Range(values);
    var floor := Max(s, MIN_STD);
    VarianceNonNegative(values);
    assert math.Root(v);
    RangeAtMost(values);
    RangeAtLeast(values);
    var lo, _ := RangeEnds(values);
    assert range >= 0.0;
    SquareAtMost(s, floor);
    RescaledUpper(n, v, floor, range);
    if s >= MIN_STD {
      RescaledLower(v, s, range);
    }
  }

  lemma RescaledUpper(n: real, v: real, floor: real, range: real)
    requires n > 0.0 && floor > 0.0 && range >= 0.0
    requires v <= Square(floor) && Square(range) <= 2.0 * Times(n, v)
    ensures range / floor >= 0.0 && Square(range / floor) <= 2.0 * n
  {
    var r := range / floor;
    assert Times(r, floor) == range;
    SquareOfProduct(r, floor);
    SquarePositive(floor);
    CancelFactor(v, Square(floor), n);
    assert Times(n, v) == v * n && Times(n, Square(floor)) == Square(floor) * n;
    CancelFactor(Square(r), 2.0 * n, Square(floor));
    CancelFactor(0.0, r, floor);
  }

  lemma RescaledLower(v: real, s: real, range: real)
    requires s > 0.0 && Square(s) == v && range >= 0.0 && 4.0 * v <= Square(range)
    ensures range / s >= 2.0
  {
    assert Square(2.0 * s) == 4.0 * Square(s);
    SquareOrder(2.0 * s, range);
    CancelFactor(2.0, range / s, s);
  }

  /** The largest estimate that a window of n values can have. */
  function HurstLimit(math: Math, n: nat): real
    requires math.Valid() && n >= 20
  {
    LogOfPowers(math);
    LogMonotone(math, 2.0, n as real);
    math.log(2.0 * n as real) / (2.0 * math.log(n as real)) + 0.1
  }

  /** The least estimate of a window of n values whose deviation is not below its floor. */
  function HurstFloor(math: Math, n: nat): real
    requires math.Valid() && n >= 20
  {
    LogOfPowers(math);
    LogMonotone(math, 2.0, n as real);
    math.log(2.0) / math.log(n as real) + 0.1
  }

  lemma LimitBelow(math: Math, n: nat)
    requires math.Valid() && n >= 20
    ensures 0.0 < HurstLimit(math, n) < 0.725
  {
    var log2, logN := math.log(2.0), math.log(n as real);
    LogOfPowers(math);
    assert math.Increasing(16.0, n as real) && math.Product(2.0, n as real);
    CancelFactor(0.625, (log2 + logN) / (2.0 * logN), 2.0 * logN);
    CancelFactor((log2 + logN) / (2.0 * logN), 0.0, 2.0 * logN);
  }

  /**
   For every window of n values the estimate is at most log(2 n) / (2 log n) + 0.1, which is below 0.725: persistence
   stronger than that is never reported. With a deviation above its floor it is at least log 2 / log n + 0.1; for at
   most 96 values, the most the program passes, that is above 0.24.
   */
  lemma HurstEnvelope(math: Math, values: seq<real>)
    requires math.Valid() && |values| >= 20
    ensures 0.0 <= Hurst(math, values) <= HurstLimit(math, |values|) < 0.725
    ensures Std(math, values) >= MIN_STD ==> HurstFloor(math, |values|) <= Hurst(math, values)
    ensures |values| <= 96 ==> HurstFloor(math, |values|) > 0.24
  {
    hide Std, Range, HurstLimit;
    var n := |values| as real;
    var r := Range(values) / Max(Std(math, values), MIN_STD);
    RescaledRange(math, values);
    LimitBelow(math, |values|);
    LogOfPowers(math);
    LogMonotone(math, 2.0, n);
    if r > 0.0 {
      RatioBelow(math, |values|, r);
      if r >= 2.0 {
        LogMonotone(math, 2.0, r);
        QuotientMonotone(math.log(2.0), math.log(r), math.log(n));
      }
    }
    if |values| <= 96 {
      assert math.Increasing(n, 128.0);
      HurstLower(math.log(2.0), math.log(n));
    }
  }

  lemma RatioBelow(math: Math, n: nat, r: real)
    requires math.Valid() && n >= 20 && r > 0.0 && Square(r) <= 2.0 * n as real
    ensures math.log(n as real) > 0.0 && math.log(r) / math.log(n as real) + 0.1 <= HurstLimit(math, n)
  {
    LogOfPowers(math);
    LogMonotone(math, 2.0, n as real);
    assert math.Product(r, r);
    SquarePositive(r);
    LogMonotone(math, Square(r), 2.0 * n as real);
    HurstUpper(math.log(2.0 * n as real), math.log(r), math.log(n as real));
  }

  lemma QuotientMonotone(x: real, y: real, c: real)
    requires x <= y && c > 0.0
    ensures x / c <= y / c
  {
  }

  lemma HurstUpper(log2N: real, logR: real, logN: real)
    requires logN > 0.0 && 2.0 * logR <= log2N
    ensures logR / logN <= log2N / (2.0 * logN)
    ensures 2.0 * logR == log2N ==> logR / logN == log2N / (2.0 * logN)
  {
    var q, limit := logR / logN, log2N / (2.0 * logN);
    assert q * (2.0 * logN) == 2.0 * logR && limit * (2.0 * logN) == log2N;
    CancelFactor(q, limit, 2.0 * logN);
    CancelFactor(limit, q, 2.0 * logN);
  }

  /** One low and one high value at the ends of a window that is flat between them. */
  function Ends(n: nat): seq<real>
    requires n >= 2
  {
    Opening(n - 1, n as real) + [n as real]
  }

  function Opening(n: nat, c: real): seq<real>
    requires n > 0
  {
    [-c] + seq(n - 1, _ => 0.0)
  }

  lemma {:induction false} OpeningSums(n: nat, c: real)
    requires n > 0
    ensures Sum(Opening(n, c)) == -c && Spread(Opening(n, c), 0.0) == Square(c)
    ensures MinOf(Opening(n, c)) == Min(-c, if n == 1 then -c else 0.0)
  {
    var xs := Opening(n, c);
    SquareNegated(c);
    if n == 1 {
      assert xs == [-c] && Front(xs) == [];
    } else {
      assert Front(xs) == Opening(n - 1, c) && Last(xs) == 0.0;
      OpeningSums(n - 1, c);
      assert Square(0.0 - 0.0) == 0.0;
    }
  }

  lemma EndsShape(n: nat)
    requires n >= 2
    ensures var xs := Ends(n);
            |xs| == n && Variance(xs) == 2.0 * n as real && Range(xs) == 2.0 * n as real
  {
    var xs, r := Ends(n), n as real;
    assert Front(xs) == Opening(n - 1, r) && Last(xs) == r;
    OpeningSums(n - 1, r);
    assert Mean(xs) == 0.0;
    assert Spread(xs, 0.0) == Square(r) + Square(r - 0.0);
    DoubleSquare(r);
    var lo, hi := RangeEnds(xs);
    assert xs[0] == -r && xs[n - 1] == r;
    assert forall i | 0 <= i < n :: -r <= xs[i] <= r;
  }

  lemma DoubleSquare(r: real)
    requires r > 0.0
    ensures (Square(r) + Square(r)) / r == 2.0 * r
  {
  }

  /** For every window length that limit is reached. */
  lemma HurstReached(math: Math, n: nat)
    requires math.Valid() && n >= 20
    ensures |Ends(n)| == n && Hurst(math, Ends(n)) == HurstLimit(math, n)
  {
    var xs, m := Ends(n), 2.0 * n as real;
    var s := Std(math, xs);
    EndsShape(n);
    assert math.Root(m);
    if s < MIN_STD { SquareIncreases(s, MIN_STD); }
    var r := m / s;
    EndsRatio(m, s);
    LogOfPowers(math);
    LimitBelow(math, n);
    assert math.Increasing(16.0, n as real) && math.Product(r, r);
    HurstUpper(math.log(m), math.log(r), math.log(n as real));
  }

  lemma EndsRatio(m: real, s: real)
    requires m > 0.0 && s > 0.0 && Square(s) == m
    ensures m / s > 0.0 && Square(m / s) == m
  {
  }

  lemma HurstLower(log2: real, logN: real)
    requires log2 > 0.0 && 0.0 < logN < 7.0 * log2
    ensures log2 / logN + 0.1 > 0.24
  {
    var q := log2 / logN;
    assert q * logN == log2;
    assert 0.14 * logN < 0.98 * log2;
    CancelFactor(q, 0.14, logN);
  }

  /** A window whose first half is low and whose second half is high. */
  function Halves(m: nat): seq<real> {
    Level(m, -1.0) + Level(m, 1.0)
  }

  function Level(m: nat, c: real): seq<real> {
    seq(m, _ => c)
  }

  lemma {:induction false} HalvesSums(m: nat, k: nat)
    requires k <= m
    ensures var xs := Level(m, -1.0) + Level(k, 1.0);
            Sum(xs) == k as real - m as real && Spread(xs, 0.0) == k as real + m as real
  {
    var xs := Level(m, -1.0) + Level(k, 1.0);
    assert Square(1.0) == 1.0 && Square(-1.0) == 1.0;
    if k > 0 {
      assert Front(xs) == Level(m, -1.0) + Level(k - 1, 1.0) && Last(xs) == 1.0;
      HalvesSums(m, k - 1);
    } else {
      assert xs == Level(m, -1.0);
      LowSums(m);
    }
  }

  lemma {:induction false} LowSums(m: nat)
    ensures Sum(Level(m, -1.0)) == -(m as real) && Spread(Level(m, -1.0), 0.0) == m as real
  {
    var xs := Level(m, -1.0);
    assert Square(-1.0) == 1.0;
    if m > 0 {
      assert Front(xs) == Level(m - 1, -1.0) && Last(xs) == -1.0;
      LowSums(m - 1);
    }
  }

  lemma HalvesShape(m: nat)
    requires m > 0
    ensures var xs := Halves(m);
            |xs| == 2 * m && Variance(xs) == 1.0 && Range(xs) == 2.0
  {
    var xs := Halves(m);
    HalvesSums(m, m);
    assert |xs| as real == m as real + m as real && Mean(xs) == 0.0;
    assert Variance(xs) == (m as real + m as real) / (m as real + m as real) == 1.0;
    var lo, hi := RangeEnds(xs);
    assert xs[0] == -1.0 && xs[2 * m - 1] == 1.0;
  }

  /** For every even window length the lower limit is reached as well. */
  lemma HurstFloorReached(math: Math, m: nat)
    requires math.Valid() && m >= 10
    ensures var xs := Halves(m);
            |xs| == 2 * m && Std(math, xs) >= MIN_STD && Hurst(math, xs) == HurstFloor(math, 2 * m)
  {
    hide Halves, Variance, Range;
    var xs := Halves(m);
    HalvesShape(m);
    assert math.Root(1.0);
    RootOfOne(Std(math, xs));
    assert Range(xs) / Max(Std(math, xs), MIN_STD) == 2.0;
    LogOfPowers(math);
    LogMonotone(math, 16.0, (2 * m) as real);
    FloorBelowOne(math.log(2.0), math.log((2 * m) as real));
  }

  lemma RootOfOne(s: real)
    requires s >= 0.0 && Square(s) == 1.0
    ensures s == 1.0
  {
    assert Square(1.0) == 1.0;
    if s < 1.0 { SquareIncreases(s, 1.0); }
    if s > 1.0 { SquareIncreases(1.0, s); }
  }

  lemma FloorBelowOne(log2: real, logN: real)
    requires 0.0 < log2 && logN >= 4.0 * log2
    ensures 0.0 < log2 / logN + 0.1 < 1.0
  {
    var q := log2 / logN;
    assert q * logN == log2;
    QuotientAtMost(q, log2, logN);
  }

  lemma QuotientAtMost(q: real, x: real, c: real)
    requires c > 0.0 && q * c == x && 0.0 < x && 4.0 * x <= c
    ensures 0.0 < q <= 0.25
  {
    var zero, quarter := 0.0, 0.25;
    assert quarter * c == c / 4.0;
    if q > quarter { CancelFactor(q, quarter, c); }
    if q <= zero { CancelFactor(q, zero, c); }
  }
}
