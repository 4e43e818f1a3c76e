/**
 Statistics over a window of values: the loops of the program against sums, and the inequalities between them.
 */
module Series {
  import opened Sequences
  import opened RealMath

  function Sum(xs: seq<real>): real {
    if xs == [] then 0.0 else Sum(Front(xs)) + Last(xs)
  }

  /** The sum of squared distances from m. */
  function Spread(xs: seq<real>, m: real): real {
    if xs == [] then 0.0 else Spread(Front(xs), m) + Square(Last(xs) - m)
  }

  /** The sum of products of neighbouring distances from m. */
  function Cross(xs: seq<real>, m: real): real {
    if |xs| < 2 then 0.0 else Cross(Front(xs), m) + Times(Last(xs) - m, Last(Front(xs)) - m)
  }

  function Mean(xs: seq<real>): real {
    if xs == [] then 0.0 else Sum(xs) / |xs| as real
  }

  function Variance(xs: seq<real>): real {
    if xs == [] then 0.0 else Spread(xs, Mean(xs)) / |xs| as real
  }

  function Std(math: Math, xs: seq<real>): real {
    if xs == [] then 0.0 else math.sqrt(Variance(xs))
  }

  function Zscore(math: Math, value: real, xs: seq<real>): real {
    var s := Std(math, xs);
    if s == 0.0 then 0.0 else (value - Mean(xs)) / s
  }

  function Autocorr(xs: seq<real>): real {
    var den := Spread(xs, Mean(xs));
    if |xs| < 3 || den == 0.0 then 0.0 else Cross(xs, Mean(xs)) / den
  }

  // ----- the loops

  method ComputeAvg(values: seq<real>) returns (avg: real)
    ensures avg == Mean(values)
  {
    if |values| == 0 {
      return 0.0;
    }
    var sum := 0.0;
    for i := 0 to |values|
      invariant sum == Sum(values[..i])
    {
      assert Front(values[..i + 1]) == values[..i];
      sum := sum + values[i];
    }
    assert values[..|values|] == values;
    avg := sum / |values| as real;
  }

  method SquaredDistances(values: seq<real>, m: real) returns (sum: real)
    ensures sum == Spread(values, m)
  {
    sum := 0.0;
    for i := 0 to |values|
      invariant sum == Spread(values[..i], m)
    {
      assert Front(values[..i + 1]) == values[..i];
      sum := sum + (values[i] - m) * (values[i] - m);
    }
    assert values[..|values|] == values;
  }

  method ComputeStd(math: Math, values: seq<real>) returns (std: real)
    ensures std == Std(math, values)
  {
    if |values| == 0 {
      return 0.0;
    }
    var m := ComputeAvg(values);
    var sum := SquaredDistances(values, m);
    std := math.sqrt(sum / |values| as real);
  }

  method ComputeAutocorr(values: seq<real>) returns (corr: real)
    ensures corr == Autocorr(values)
  {
    if |values| < 3 {
      return 0.0;
    }
    var m := ComputeAvg(values);
    var num := 0.0;
    for i := 1 to |values|
      invariant num == Cross(values[..i], m)
    {
      assert Front(values[..i + 1]) == values[..i];
      num := num + (values[i] - m) * (values[i - 1] - m);
    }
    var den := SquaredDistances(values, m);
    assert values[..|values|] == values;
    if den == 0.0 {
      return 0.0;
    }
    corr := num / den;
  }

  // ----- sums and spreads

  lemma {:induction false} SpreadNonNegative(xs: seq<real>, m: real)
    ensures Spread(xs, m) >= 0.0
  {
    if xs != [] {
      SpreadNonNegative(Front(xs), m);
      SquareNonNegative(Last(xs) - m);
    }
  }

  /** Any one squared distance, and any two at different places, are part of the spread. */
  lemma {:induction false} TermsWithinSpread(xs: seq<real>, m: real, i: nat, j: nat)
    requires i < j < |xs|
    ensures Square(xs[i] - m) + Square(xs[j] - m) <= Spread(xs, m)
  {
    SquareNonNegative(Last(xs) - m);
    if j < |xs| - 1 {
      TermsWithinSpread(Front(xs), m, i, j);
    } else {
      TermWithinSpread(Front(xs), m, i);
    }
  }

  lemma {:induction false} TermWithinSpread(xs: seq<real>, m: real, i: nat)
    requires i < |xs|
    ensures Square(xs[i] - m) <= Spread(xs, m)
  {
    SquareNonNegative(Last(xs) - m);
    SpreadNonNegative(Front(xs), m);
    if i < |xs| - 1 {
      TermWithinSpread(Front(xs), m, i);
    }
  }

  lemma MeanTotal(xs: seq<real>)
    requires xs != []
    ensures Sum(xs) == Times(|xs| as real, Mean(xs))
  {
  }

  lemma SpreadTotal(xs: seq<real>)
    requires xs != []
    ensures Spread(xs, Mean(xs)) == Times(|xs| as real, Variance(xs))
  {
  }

  /** Cauchy-Schwarz against the constant one: the square of the summed distances is at most n times the spread. */
  lemma {:induction false} SumSquared(xs: seq<real>, m: real)
    ensures var n := |xs| as real;
            Square(Sum(xs) - Times(n, m)) <= Times(n, Spread(xs, m))
  {
    if xs != [] {
      var n, y := |xs| as real - 1.0, Last(xs) - m;
      var d, q := Sum(Front(xs)) - Times(n, m), Spread(Front(xs), m);
      SumSquared(Front(xs), m);
      assert Sum(xs) - Times(n + 1.0, m) == d + y;
      if |xs| == 1 {
        assert Front(xs) == [];
      } else {
        SumSquaredStep(n, d, q, y);
      }
    }
  }

  lemma CompletedSquare(n: real, d: real, q: real, y: real)
    ensures Times(n, q + Times(n, Square(y)) - 2.0 * Times(d, y)) == Times(n, q) - Square(d) + Square(d - Times(n, y))
  {
  }

  lemma SumSquaredStep(n: real, d: real, q: real, y: real)
    requires n > 0.0 && Square(d) <= Times(n, q)
    ensures Square(d + y) <= Times(n + 1.0, q + Square(y))
  {
    var gap := q + Times(n, Square(y)) - 2.0 * Times(d, y);
    assert gap >= 0.0 by {
      CompletedSquare(n, d, q, y);
      SquareNonNegative(d - Times(n, y));
      TimesSign(n, gap);
    }
    SquareOfSum(d, y);
    TimesNext(n, q + Square(y));
    TimesSum(n, q, Square(y));
  }

  lemma TimesSign(n: real, x: real)
    requires n > 0.0 && Times(n, x) >= 0.0
    ensures x >= 0.0
  {
  }

  // ----- the z-score of the latest value

  /** Samuelson's inequality for the last value of a window. */
  lemma Samuelson(xs: seq<real>)
    requires xs != []
    ensures var n, m := |xs| as real, Mean(xs);
            Times(n, Square(Last(xs) - m)) <= Times(n - 1.0, Spread(xs, m))
  {
    var n, m := |xs| as real, Mean(xs);
    var d := Last(xs) - m;
    MeanTotal(xs);
    SumSquared(Front(xs), m);
    TimesNext(n - 1.0, m);
    assert Sum(Front(xs)) - Times(n - 1.0, m) == -d;
    SquareNegated(d);
    TimesSum(n - 1.0, Spread(Front(xs), m), Square(d));
    TimesNext(n - 1.0, Square(d));
  }

  lemma VarianceNonNegative(xs: seq<real>)
    ensures Variance(xs) >= 0.0
  {
    if xs != [] {
      SpreadNonNegative(xs, Mean(xs));
      SpreadTotal(xs);
      TimesSign(|xs| as real, Variance(xs));
    }
  }

  /** The z-score of the last value of a window of n values is at most sqrt(n - 1) away from zero. */
  lemma LatestZscoreBounded(math: Math, xs: seq<real>)
    requires math.Valid() && xs != []
    ensures Square(Zscore(math, Last(xs), xs)) <= |xs| as real - 1.0
  {
    var n, v, s := |xs| as real, Variance(xs), Std(math, xs);
    VarianceNonNegative(xs);
    assert math.Root(v);
    if s == 0.0 {
      SquareNonNegative(0.0);
    } else {
      SquarePositive(s);
      Samuelson(xs);
      SpreadTotal(xs);
      ZscoreFromSquares(n, v, s, Last(xs) - Mean(xs));
    }
  }

  lemma ZscoreFromSquares(n: real, v: real, s: real, d: real)
    requires n >= 1.0 && v > 0.0 && s != 0.0 && Square(s) == v
    requires Times(n, Square(d)) <= Times(n - 1.0, Times(n, v))
    ensures Square(d / s) <= n - 1.0
  {
    var z := d / s;
    assert Times(z, s) == d;
    SquareOfProduct(z, s);
    assert Times(n, Times(Square(z), v)) == Times(Square(z), Times(n, v));
    TimesPositive(n, v);
    CancelFactor(Square(z), n - 1.0, Times(n, v));
  }

  // ----- which way a z-score points

  lemma {:induction false} ConstantSum(xs: seq<real>, c: real)
    requires forall i | 0 <= i < |xs| :: xs[i] == c
    ensures Sum(xs) == Times(|xs| as real, c) && Spread(xs, c) == 0.0
  {
    if xs != [] {
      ConstantSum(Front(xs), c);
      TimesNext(|xs| as real - 1.0, c);
      assert Square(0.0) == 0.0;
    }
  }

  /** The variance of a window is zero exactly if all its values are the same. */
  lemma VarianceZeroIff(xs: seq<real>)
    requires xs != []
    ensures Variance(xs) == 0.0 <==> forall i | 0 <= i < |xs| :: xs[i] == xs[0]
  {
    SpreadTotal(xs);
    if Variance(xs) == 0.0 {
      forall i | 0 <= i < |xs| ensures xs[i] == Mean(xs) {
        TermWithinSpread(xs, Mean(xs), i);
        SquareZero(xs[i] - Mean(xs));
      }
    }
    if forall i | 0 <= i < |xs| :: xs[i] == xs[0] {
      ConstantSum(xs, xs[0]);
      MeanTotal(xs);
      SameFactor(|xs| as real, Mean(xs), xs[0]);
    }
  }

  lemma SameFactor(n: real, x: real, y: real)
    requires n > 0.0 && Times(n, x) == Times(n, y)
    ensures x == y
  {
  }

  lemma StdSign(math: Math, xs: seq<real>)
    requires math.Valid()
    ensures Variance(xs) >= 0.0 && Std(math, xs) >= 0.0 && Square(Std(math, xs)) == Variance(xs)
    ensures Std(math, xs) > 0.0 <==> Variance(xs) > 0.0
  {
    VarianceNonNegative(xs);
    if xs != [] {
      assert math.Root(Variance(xs));
      if Variance(xs) > 0.0 { RootPositive(Std(math, xs), Variance(xs)); }
    } else {
      assert Square(0.0) == 0.0;
    }
    if Std(math, xs) > 0.0 { SquarePositive(Std(math, xs)); }
  }

  lemma QuotientSign(d: real, s: real)
    requires s > 0.0
    ensures Times(d / s, s) == d
    ensures d / s > 0.0 <==> d > 0.0
    ensures d / s < 0.0 <==> d < 0.0
  {
    var zero, z := 0.0, d / s;
    assert Times(z, s) == d && Times(zero, s) == zero;
    CancelFactor(z, zero, s);
    CancelFactor(zero, z, s);
  }

  /**
   A z-score times the deviation is the distance from the mean, so it is positive above the mean and negative below; in
   a window without variance it is zero.
   */
  lemma ZscoreExact(math: Math, value: real, xs: seq<real>)
    requires math.Valid()
    ensures var z := Zscore(math, value, xs);
            if Variance(xs) > 0.0 then
              && Times(z, Std(math, xs)) == value - Mean(xs)
              && (z > 0.0 <==> value > Mean(xs)) && (z < 0.0 <==> value < Mean(xs))
            else z == 0.0
  {
    StdSign(math, xs);
    if Variance(xs) > 0.0 {
      QuotientSign(value - Mean(xs), Std(math, xs));
    }
  }

  // ----- the bound is reached

  /** A window of n - 1 zeros and a final one. */
  function Spike(n: nat): seq<real>
    requires n > 0
  {
    seq(n - 1, _ => 0.0) + [1.0]
  }

  lemma {:induction false} Flat(xs: seq<real>, m: real)
    requires forall i | 0 <= i < |xs| :: xs[i] == 0.0
    ensures Sum(xs) == 0.0 && Spread(xs, m) == Times(|xs| as real, Square(m))
  {
    if xs != [] {
      Flat(Front(xs), m);
      SquareNegated(m);
      TimesNext(|xs| as real - 1.0, Square(m));
    }
  }

  lemma SpikeShape(n: nat)
    requires n > 1
    ensures var xs := Spike(n);
            |xs| == n && Last(xs) == 1.0 && Times(n as real, Mean(xs)) == 1.0
            && Spread(xs, Mean(xs)) == Times(n as real - 1.0, Square(Mean(xs))) + Square(1.0 - Mean(xs))
  {
    var xs := Spike(n);
    assert Front(xs) == seq(n - 1, _ => 0.0);
    Flat(Front(xs), Mean(xs));
    MeanTotal(xs);
  }

  lemma SpikeVariance(n: real, m: real, v: real)
    requires n > 1.0 && Times(n, m) == 1.0
    requires Times(n, v) == Times(n - 1.0, Square(m)) + Square(1.0 - m)
    ensures v == Times(n - 1.0, Square(m)) && 1.0 - m == Times(n - 1.0, m) && m > 0.0 && v > 0.0
  {
    TimesNext(n - 1.0, m);
    SquareOfProduct(n - 1.0, m);
    assert Times(n - 1.0, Square(m)) + Times(Square(n - 1.0), Square(m)) == Times(n, Times(n - 1.0, Square(m)));
    assert Times(n, v - Times(n - 1.0, Square(m))) == 0.0;
    TimesSign(n, v - Times(n - 1.0, Square(m)));
    TimesSign(n, Times(n - 1.0, Square(m)) - v);
    SquarePositive(m);
    TimesPositive(n - 1.0, Square(m));
  }

  /** For every window length the bound on the z-score is reached, with equality. */
  lemma LatestZscoreReached(math: Math, n: nat)
    requires math.Valid() && n > 1
    ensures var z := Zscore(math, Last(Spike(n)), Spike(n));
            z >= 0.0 && Square(z) == n as real - 1.0
  {
    var xs, r := Spike(n), n as real;
    var m, v, s := Mean(xs), Variance(xs), Std(math, xs);
    SpikeShape(n);
    SpreadTotal(xs);
    SpikeVariance(r, m, v);
    assert math.Root(v);
    RootPositive(s, v);
    SpikeZscore(r, m, v, s);
  }

  lemma RootPositive(s: real, v: real)
    requires s >= 0.0 && Square(s) == v && v > 0.0
    ensures s > 0.0
  {
    var zero := 0.0;
    assert Square(zero) == 0.0;
  }

  lemma SpikeZscore(n: real, m: real, v: real, s: real)
    requires n > 1.0 && m > 0.0 && v > 0.0 && s > 0.0 && Square(s) == v
    requires v == Times(n - 1.0, Square(m)) && 1.0 - m == Times(n - 1.0, m)
    ensures (1.0 - m) / s >= 0.0 && Square((1.0 - m) / s) == n - 1.0
  {
    var z := (1.0 - m) / s;
    assert Times(s, z) == 1.0 - m;
    TimesPositive(n - 1.0, m);
    TimesSign(s, z);
    SquareOfProduct(z, s);
    SquareOfProduct(n - 1.0, m);
    assert Times(Square(z), v) == Times(Square(n - 1.0), Square(m)) == Times(n - 1.0, v);
    CancelFactor(Square(z), n - 1.0, v);
    CancelFactor(n - 1.0, Square(z), v);
  }

  // ----- the range of a window

  function MinOf(xs: seq<real>): real
    requires xs != []
  {
    if |xs| == 1 then xs[0] else Min(MinOf(Front(xs)), Last(xs))
  }

  function MaxOf(xs: seq<real>): real
    requires xs != []
  {
    if |xs| == 1 then xs[0] else Max(MaxOf(Front(xs)), Last(xs))
  }

  /** The least and the greatest value stand somewhere in the window, and all others between them. */
  lemma {:induction false} RangeEnds(xs: seq<real>) returns (lo: nat, hi: nat)
    requires xs != []
    ensures lo < |xs| && hi < |xs| && xs[lo] == MinOf(xs) && xs[hi] == MaxOf(xs)
    ensures forall i | 0 <= i < |xs| :: xs[lo] <= xs[i] <= xs[hi]
  {
    if |xs| == 1 {
      lo, hi := 0, 0;
    } else {
      lo, hi := RangeEnds(Front(xs));
      if Last(xs) <= xs[lo] { lo := |xs| - 1; }
      if Last(xs) >= xs[hi] { hi := |xs| - 1; }
    }
  }

  /** What a sorted copy has at its ends; both are zero for an empty window. */
  function MinMax(xs: seq<real>): (real, real) {
    if xs == [] then (0.0, 0.0) else (MinOf(xs), MaxOf(xs))
  }

  function Range(xs: seq<real>): real {
    MinMax(xs).1 - MinMax(xs).0
  }

  /** The spread about any point is the spread about the mean plus n times the squared shift. */
  lemma {:induction false} SpreadShift(xs: seq<real>, c: real, m: real)
    ensures Spread(xs, c) == Spread(xs, m) + 2.0 * Times(m - c, Sum(xs) - Times(|xs| as real, m))
                             + Times(|xs| as real, Square(m - c))
  {
    if xs != [] {
      var n, y := |xs| as real - 1.0, Last(xs) - m;
      SpreadShift(Front(xs), c, m);
      SquareOfSum(y, m - c);
      TimesNext(n, m);
      TimesNext(n, Square(m - c));
      TimesSum(m - c, Sum(Front(xs)) - Times(n, m), y);
      assert Times(y, m - c) == Times(m - c, y);
    }
  }

  lemma {:induction false} SpreadWithin(xs: seq<real>, c: real, r: real)
    requires forall i | 0 <= i < |xs| :: c - r <= xs[i] <= c + r
    ensures Spread(xs, c) <= Times(|xs| as real, Square(r))
  {
    if xs != [] {
      SpreadWithin(Front(xs), c, r);
      SquareAtMost(Last(xs) - c, r);
      TimesNext(|xs| as real - 1.0, Square(r));
    }
  }

  lemma SquareAtMost(x: real, r: real)
    requires -r <= x <= r
    ensures Square(x) <= Square(r)
  {
    SquareNegated(x);
    if 0.0 <= x < r {
      SquareIncreases(x, r);
    } else if 0.0 <= -x < r {
      SquareIncreases(-x, r);
    }
  }

  /** Popoviciu's inequality: four variances fit in the squared range. */
  lemma RangeAtLeast(xs: seq<real>)
    requires xs != []
    ensures 4.0 * Variance(xs) <= Square(Range(xs))
  {
    var c, r := (MinOf(xs) + MaxOf(xs)) / 2.0, Range(xs) / 2.0;
    var _, _ := RangeEnds(xs);
    SpreadWithin(xs, c, r);
    SpreadLeastAtMean(xs, c);
    CancelFactor(Variance(xs), Square(r), |xs| as real);
    SquareOfSum(r, r);
  }

  lemma SpreadLeastAtMean(xs: seq<real>, c: real)
    requires xs != []
    ensures Times(|xs| as real, Variance(xs)) <= Spread(xs, c)
  {
    var m := Mean(xs);
    SpreadShift(xs, c, m);
    MeanTotal(xs);
    SquareNonNegative(m - c);
    TimesNonNegative(|xs| as real, Square(m - c));
    SpreadTotal(xs);
    assert Times(m - c, 0.0) == 0.0;
  }

  /** The squared range is at most twice the spread, that is 2 n variances. */
  lemma RangeAtMost(xs: seq<real>)
    requires xs != []
    ensures Square(Range(xs)) <= 2.0 * Times(|xs| as real, Variance(xs))
  {
    var m := Mean(xs);
    SpreadTotal(xs);
    SpreadNonNegative(xs, m);
    var j, i := RangeEnds(xs);
    if i == j {
      assert Square(Range(xs)) == 0.0;
    } else {
      TermsWithinSpread(xs, m, if i < j then i else j, if i < j then j else i);
      var a, b := xs[i] - m, xs[j] - m;
      SquareOfSum(a, -b);
      SquareNegated(b);
      ProductBetweenSquares(a, -b);
    }
  }

  // ----- autocorrelation

  /** Twice the cross sum is at most twice the spread less the squares at the two ends. */
  lemma {:induction false} CrossWithinSpread(xs: seq<real>, m: real)
    requires xs != []
    ensures var rest := 2.0 * Spread(xs, m) - Square(xs[0] - m) - Square(Last(xs) - m);
            -rest <= 2.0 * Cross(xs, m) <= rest
  {
    if |xs| > 1 {
      CrossWithinSpread(Front(xs), m);
      ProductBetweenSquares(Last(xs) - m, Last(Front(xs)) - m);
    } else {
      assert Front(xs) == [];
    }
  }

  /** Unless all distances vanish, the cross sum is strictly smaller than the spread. */
  lemma {:induction false} CrossBelowSpread(xs: seq<real>, m: real)
    requires Spread(xs, m) > 0.0
    ensures -Spread(xs, m) < Cross(xs, m) < Spread(xs, m)
  {
    if |xs| > 1 {
      var first, last := xs[0] - m, Last(xs) - m;
      SquareNonNegative(first);
      SquareNonNegative(last);
      if Square(first) + Square(last) > 0.0 {
        CrossWithinSpread(xs, m);
      } else {
        SquareZero(last);
        ZeroTimes(Last(Front(xs)) - m);
        CrossBelowSpread(Front(xs), m);
      }
    }
  }

  lemma ZeroTimes(x: real)
    ensures Times(0.0, x) == 0.0
  {
  }

  /** The lag-one autocorrelation of every series lies strictly between -1 and 1. */
  lemma AutocorrBounded(xs: seq<real>)
    ensures -1.0 < Autocorr(xs) < 1.0
  {
    var den, num := Spread(xs, Mean(xs)), Cross(xs, Mean(xs));
    if |xs| >= 3 && den != 0.0 {
      SpreadNonNegative(xs, Mean(xs));
      CrossBelowSpread(xs, Mean(xs));
      QuotientBelowOne(num, den);
    }
  }

  lemma QuotientBelowOne(num: real, den: real)
    requires -den < num < den
    ensures -1.0 < num / den < 1.0
  {
    var q := num / den;
    assert q * den == num;
    CancelFactor(1.0, q, den);
    CancelFactor(q, -1.0, den);
  }

  /** The sum of the squared steps from one value to the next. */
  function Steps(xs: seq<real>): real {
    if |xs| < 2 then 0.0 else Steps(Front(xs)) + Square(Last(xs) - Last(Front(xs)))
  }

  /** Durbin and Watson's identity: squared steps are twice the spread less both ends and twice the cross sum. */
  lemma {:induction false} StepsAndCross(xs: seq<real>, m: real)
    requires xs != []
    ensures Steps(xs) == 2.0 * Spread(xs, m) - Square(xs[0] - m) - Square(Last(xs) - m) - 2.0 * Cross(xs, m)
  {
    if |xs| == 1 {
      assert Front(xs) == [];
    } else {
      StepsAndCross(Front(xs), m);
      var a, b := Last(xs) - m, Last(Front(xs)) - m;
      SquareOfSum(a, -b);
      SquareNegated(b);
      assert Times(a, -b) == -Times(a, b);
    }
  }

  /**
   The autocorrelation against the steps of the series: the smaller the steps, the larger it is. It is zero for fewer
   than three values and for a constant series.
   */
  lemma AutocorrExact(xs: seq<real>)
    ensures var m, den := Mean(xs), Spread(xs, Mean(xs));
            if |xs| < 3 || den == 0.0 then Autocorr(xs) == 0.0
            else 2.0 * Times(Autocorr(xs), den) == 2.0 * den - Square(xs[0] - m) - Square(Last(xs) - m) - Steps(xs)
  {
    hide Spread, Mean, Cross, Steps, Square, Times;
    var den := Spread(xs, Mean(xs));
    if |xs| >= 3 && den != 0.0 {
      StepsAndCross(xs, Mean(xs));
      QuotientTimes(Cross(xs, Mean(xs)), den);
    }
  }

  lemma QuotientTimes(num: real, den: real)
    requires den != 0.0
    ensures Times(num / den, den) == num
  {
  }
}
