/**
 The cross-section: four columns of a slice of features are rescaled in place, then every feature is scored anew.
 */
module CrossSection {
  import opened RealMath
  import opened Series
  import opened Features
  import opened FeatureMeaning

  /** What a pass of normalisation reads and writes. */
  datatype Column = Strength | Liquidity | Interest | Volume

  function Read(col: Column, f: Feature): real {
    match col
    case Strength => f.return24H
    case Liquidity => f.liquidityScore
    case Interest => f.oiAnomalyScore
    case Volume => f.volumeAnomalyScore
  }

  /** The field that the column's pass sets. */
  function Result(col: Column, f: Feature): real {
    match col
    case Strength => f.relativeStrengthRank
    case _ => Read(col, f)
  }

  function Put(col: Column, f: Feature, v: real): Feature {
    match col
    case Strength => f.(relativeStrengthRank := v)
    case Liquidity => f.(liquidityScore := v)
    case Interest => f.(oiAnomalyScore := v)
    case Volume => f.(volumeAnomalyScore := v)
  }

  function Values(col: Column, fs: seq<Feature>): seq<real> {
    seq(|fs|, i requires 0 <= i < |fs| => Read(col, fs[i]))
  }

  function Scaled(v: real, bounds: (real, real)): real {
    if bounds.1 == bounds.0 then 50.0 else Clamp((v - bounds.0) / (bounds.1 - bounds.0) * 100.0)
  }

  /** Where the column puts market i. */
  function Placed(col: Column, fs: seq<Feature>, i: nat): real
    requires i < |fs|
  {
    Scaled(Read(col, fs[i]), MinMax(Values(col, fs)))
  }

  function Normalized(col: Column, fs: seq<Feature>): seq<Feature> {
    seq(|fs|, i requires 0 <= i < |fs| => Put(col, fs[i], Placed(col, fs, i)))
  }

  function Rescored(fs: seq<Feature>): seq<Feature> {
    seq(|fs|, i requires 0 <= i < |fs| => Scored(fs[i]))
  }

  /** Market i with every column placed, among the markets as they were before any of them was touched. */
  function Ranked(fs: seq<Feature>, i: nat): Feature
    requires i < |fs|
  {
    fs[i].(relativeStrengthRank := Placed(Strength, fs, i), liquidityScore := Placed(Liquidity, fs, i),
           oiAnomalyScore := Placed(Interest, fs, i), volumeAnomalyScore := Placed(Volume, fs, i))
  }

  /** The cross-section as a reader thinks of it: all columns at once, from the original slice, then the scores. */
  function CrossSectioned(fs: seq<Feature>): (out: seq<Feature>)
    ensures |out| == |fs|
  {
    seq(|fs|, i requires 0 <= i < |fs| => Scored(Ranked(fs, i)))
  }

  /** The cross-section as the program runs it: one pass after the other over the slice, then the scores. */
  function Passes(fs: seq<Feature>): seq<Feature> {
    Rescored(Normalized(Volume, Normalized(Interest, Normalized(Liquidity, Normalized(Strength, fs)))))
  }

  /** A pass leaves the other columns as they are. */
  lemma PassKeeps(col: Column, other: Column, fs: seq<Feature>)
    requires other != col
    ensures Values(other, Normalized(col, fs)) == Values(other, fs)
  {
    var after := Normalized(col, fs);
    forall i | 0 <= i < |fs| ensures Read(other, after[i]) == Read(other, fs[i]) {}
  }

  /** The passes do not disturb each other: one after the other they do what all columns at once would. */
  lemma PassesAreIndependent(fs: seq<Feature>)
    ensures Passes(fs) == CrossSectioned(fs)
  {
    var fs1 := Normalized(Strength, fs);
    var fs2 := Normalized(Liquidity, fs1);
    var fs3 := Normalized(Interest, fs2);
    PassKeeps(Strength, Liquidity, fs);
    PassKeeps(Strength, Interest, fs);
    PassKeeps(Strength, Volume, fs);
    PassKeeps(Liquidity, Interest, fs1);
    PassKeeps(Liquidity, Volume, fs1);
    PassKeeps(Interest, Volume, fs2);
    forall i | 0 <= i < |fs| ensures Passes(fs)[i] == CrossSectioned(fs)[i] {
      assert Placed(Liquidity, fs1, i) == Placed(Liquidity, fs, i);
      assert Placed(Interest, fs2, i) == Placed(Interest, fs, i);
      assert Placed(Volume, fs3, i) == Placed(Volume, fs, i);
    }
  }

  // ----- in place

  method ReadColumn(features: array<Feature>, col: Column) returns (vals: seq<real>)
    ensures vals == Values(col, features[..])
  {
    vals := [];
    for i := 0 to features.Length
      invariant |vals| == i && forall k | 0 <= k < i :: vals[k] == Read(col, features[k])
    {
      vals := vals + [Read(col, features[i])];
    }
  }

  /** One pass: the column is read as a whole, then each market's result is set in place. */
  method Normalize(features: array<Feature>, col: Column)
    modifies features
    ensures features[..] == Normalized(col, old(features[..]))
  {
    hide Scaled, MinMax, Put;
    ghost var was := features[..];
    var vals := ReadColumn(features, col);
    var bounds := MinMax(vals);
    for i := 0 to features.Length
      invariant forall k | 0 <= k < i :: features[k] == Put(col, was[k], Scaled(vals[k], bounds))
      invariant forall k | i <= k < features.Length :: features[k] == was[k]
    {
      features[i] := Put(col, features[i], Scaled(vals[i], bounds));
    }
  }

  method Rescore(features: array<Feature>)
    modifies features
    ensures features[..] == Rescored(old(features[..]))
  {
    ghost var was := features[..];
    for i := 0 to features.Length
      invariant features[..i] == Rescored(was)[..i]
      invariant features[i..] == was[i..]
    {
      assert features[i] == was[i];
      features[i] := features[i].(researchScore := ResearchScore(features[i]));
      features[i] := features[i].(regimeLabel := Classify(features[i]));
      assert features[i] == Rescored(was)[i];
    }
  }

  method NormalizeCrossSection(features: array<Feature>)
    modifies features
    ensures features[..] == CrossSectioned(old(features[..]))
  {
    Normalize(features, Strength);
    Normalize(features, Liquidity);
    Normalize(features, Interest);
    Normalize(features, Volume);
    Rescore(features);
    PassesAreIndependent(old(features[..]));
  }

  // ----- what one column becomes

  /** Within proper bounds a value keeps its proportion of the way. */
  lemma ScaledProportion(v: real, bounds: (real, real))
    requires bounds.0 <= v <= bounds.1 && bounds.0 < bounds.1
    ensures 0.0 <= Scaled(v, bounds) <= 100.0
    ensures Times(Scaled(v, bounds), bounds.1 - bounds.0) == 100.0 * (v - bounds.0)
  {
    var width := bounds.1 - bounds.0;
    var q := (v - bounds.0) / width;
    assert q * width == v - bounds.0;
    CancelFactor(0.0, q, width);
    CancelFactor(q, 1.0, width);
  }

  lemma ScaledWithin(v: real, bounds: (real, real))
    requires bounds.0 <= v <= bounds.1
    ensures 0.0 <= Scaled(v, bounds) <= 100.0
  {
    if bounds.0 < bounds.1 {
      ScaledProportion(v, bounds);
    }
  }

  lemma ProportionsOrdered(p: real, q: real, a: real, b: real, width: real)
    requires width > 0.0 && Times(p, width) == 100.0 * a && Times(q, width) == 100.0 * b
    ensures p < q <==> a < b
  {
    CancelFactor(q, p, width);
  }

  lemma ScaledOrdered(v: real, w: real, bounds: (real, real))
    requires bounds.0 <= v <= bounds.1 && bounds.0 <= w <= bounds.1
    ensures v < w <==> Scaled(v, bounds) < Scaled(w, bounds)
  {
    if bounds.0 < bounds.1 {
      ScaledProportion(v, bounds);
      ScaledProportion(w, bounds);
      ProportionsOrdered(Scaled(v, bounds), Scaled(w, bounds), v - bounds.0, w - bounds.0, bounds.1 - bounds.0);
    }
  }

  lemma ValueWithin(col: Column, fs: seq<Feature>, i: nat)
    requires i < |fs|
    ensures var bounds := MinMax(Values(col, fs));
            bounds.0 <= Read(col, fs[i]) <= bounds.1
  {
    var _, _ := RangeEnds(Values(col, fs));
    assert Values(col, fs)[i] == Read(col, fs[i]);
  }

  lemma PlacedWithin(col: Column, fs: seq<Feature>, i: nat)
    requires i < |fs|
    ensures 0.0 <= Placed(col, fs, i) <= 100.0
  {
    ValueWithin(col, fs, i);
    ScaledWithin(Read(col, fs[i]), MinMax(Values(col, fs)));
  }

  // ----- what the cross-section promises

  /**
   Every column ends as a percentage, in the strict order of its source; the lowest source is at 0 and the highest at
   100, and all are at 50 when the source is constant.
   */
  lemma ColumnsAreRanks(col: Column, fs: seq<Feature>, i: nat, j: nat)
    requires i < |fs| && j < |fs|
    ensures var out := CrossSectioned(fs);
            var bounds := MinMax(Values(col, fs));
            && 0.0 <= Result(col, out[i]) <= 100.0
            && (Read(col, fs[i]) < Read(col, fs[j]) <==> Result(col, out[i]) < Result(col, out[j]))
            && (bounds.0 == bounds.1 ==> Result(col, out[i]) == 50.0)
            && (bounds.0 < bounds.1 ==> (Read(col, fs[i]) == bounds.0 <==> Result(col, out[i]) == 0.0))
            && (bounds.0 < bounds.1 ==> (Read(col, fs[i]) == bounds.1 <==> Result(col, out[i]) == 100.0))
  {
    ValueWithin(col, fs, i);
    ValueWithin(col, fs, j);
    var bounds := MinMax(Values(col, fs));
    ScaledWithin(Read(col, fs[i]), bounds);
    ScaledOrdered(Read(col, fs[i]), Read(col, fs[j]), bounds);
    if bounds.0 < bounds.1 {
      ScaledOrdered(bounds.0, Read(col, fs[i]), bounds);
      ScaledOrdered(Read(col, fs[i]), bounds.1, bounds);
      ScaledEnds(bounds);
    }
  }

  /** Positions of a lowest and a highest value. */
  predicate Extremes(xs: seq<real>, lo: nat, hi: nat) {
    lo < |xs| && hi < |xs| && forall k | 0 <= k < |xs| :: xs[lo] <= xs[k] <= xs[hi]
  }

  predicate PlacedAt(p: real, v: real, lo: real, hi: real) {
    if lo == hi then p == 50.0 else Times(p, hi - lo) == 100.0 * (v - lo)
  }

  /** Every value is placed at its share of the way from the lowest to the highest, in percent; at 50 if all agree. */
  ghost predicate Places(source: seq<real>, placed: seq<real>) {
    && |placed| == |source|
    && forall lo: nat, hi: nat, i: nat | Extremes(source, lo, hi) && i < |source| ::
         PlacedAt(placed[i], source[i], source[lo], source[hi])
  }

  lemma ScaledPlaces(source: seq<real>, placed: seq<real>)
    requires |placed| == |source|
    requires forall i | 0 <= i < |source| :: placed[i] == Scaled(source[i], MinMax(source))
    ensures Places(source, placed)
  {
    hide Scaled, PlacedAt, MinMax;
    forall lo: nat, hi: nat, i: nat | Extremes(source, lo, hi) && i < |source|
      ensures PlacedAt(placed[i], source[i], source[lo], source[hi])
    {
      MinMaxUnique(source, lo, hi);
      ScaledPlace(source[i], source[lo], source[hi]);
    }
  }

  lemma ScaledPlace(v: real, lo: real, hi: real)
    requires lo <= v <= hi
    ensures PlacedAt(Scaled(v, (lo, hi)), v, lo, hi)
  {
    hide Scaled, Times;
    if lo < hi {
      ScaledProportion(v, (lo, hi));
    } else {
      ScaledLevel(v, lo);
    }
  }

  lemma ScaledLevel(v: real, level: real)
    ensures Scaled(v, (level, level)) == 50.0
  {
  }

  function DayReturns(fs: seq<Feature>): seq<real> {
    seq(|fs|, i requires 0 <= i < |fs| => fs[i].return24H)
  }

  function StrengthRanks(fs: seq<Feature>): seq<real> {
    seq(|fs|, i requires 0 <= i < |fs| => fs[i].relativeStrengthRank)
  }

  function LiquidityScores(fs: seq<Feature>): seq<real> {
    seq(|fs|, i requires 0 <= i < |fs| => fs[i].liquidityScore)
  }

  function InterestScores(fs: seq<Feature>): seq<real> {
    seq(|fs|, i requires 0 <= i < |fs| => fs[i].oiAnomalyScore)
  }

  function VolumeScores(fs: seq<Feature>): seq<real> {
    seq(|fs|, i requires 0 <= i < |fs| => fs[i].volumeAnomalyScore)
  }

  /**
   The cross-section field by field: the strength rank places the day's returns, the scores of liquidity, open interest
   and volume place themselves, the research score and the label are taken anew, and nothing else changes.
   */
  lemma CrossSectionExact(fs: seq<Feature>)
    ensures var out := CrossSectioned(fs);
            && Places(DayReturns(fs), StrengthRanks(out))
            && Places(LiquidityScores(fs), LiquidityScores(out))
            && Places(InterestScores(fs), InterestScores(out))
            && Places(VolumeScores(fs), VolumeScores(out))
            && forall i | 0 <= i < |fs| :: Rescores(fs[i], out[i])
  {
    hide Scaled, Classify;
    var out := CrossSectioned(fs);
    assert Values(Strength, fs) == DayReturns(fs) && Values(Liquidity, fs) == LiquidityScores(fs);
    assert Values(Interest, fs) == InterestScores(fs) && Values(Volume, fs) == VolumeScores(fs);
    ScaledPlaces(DayReturns(fs), StrengthRanks(out));
    ScaledPlaces(LiquidityScores(fs), LiquidityScores(out));
    ScaledPlaces(InterestScores(fs), InterestScores(out));
    ScaledPlaces(VolumeScores(fs), VolumeScores(out));
    forall i | 0 <= i < |fs| ensures Rescores(fs[i], out[i]) {
      ClassifiedAgain(Ranked(fs, i));
    }
  }

  /** Four columns, the research score and the label have changed, the score is the weighted mean of its parts. */
  predicate Rescores(before: Feature, after: Feature) {
    && after == before.(relativeStrengthRank := after.relativeStrengthRank, liquidityScore := after.liquidityScore,
                        oiAnomalyScore := after.oiAnomalyScore, volumeAnomalyScore := after.volumeAnomalyScore,
                        researchScore := after.researchScore, regimeLabel := after.regimeLabel)
    && ResearchIsMean(after)
    && LabelledByFirst(after)
  }

  lemma ClassifiedAgain(f: Feature)
    ensures LabelledByFirst(Scored(f)) && ResearchIsMean(Scored(f))
  {
    hide Conditions, Classify;
    LabelOfScored(f);
    ClassifyByFirst(Scored(f));
  }

  lemma ScaledEnds(bounds: (real, real))
    requires bounds.0 < bounds.1
    ensures Scaled(bounds.0, bounds) == 0.0 && Scaled(bounds.1, bounds) == 100.0
  {
    ScaledProportion(bounds.0, bounds);
    ScaledProportion(bounds.1, bounds);
    var width := bounds.1 - bounds.0;
    ProportionsOrdered(0.0, Scaled(bounds.0, bounds), 0.0, 0.0, width);
    ProportionsOrdered(Scaled(bounds.1, bounds), 100.0, width, width, width);
  }

  lemma MinMaxUnique(xs: seq<real>, lo: nat, hi: nat)
    requires lo < |xs| && hi < |xs| && forall i | 0 <= i < |xs| :: xs[lo] <= xs[i] <= xs[hi]
    ensures MinMax(xs) == (xs[lo], xs[hi])
  {
    var _, _ := RangeEnds(xs);
  }

  // ----- rescaling and reordering the input

  lemma ScaledAffine(v: real, bounds: (real, real), a: real, b: real)
    requires a > 0.0 && bounds.0 <= v <= bounds.1
    ensures Scaled(Times(a, v) + b, (Times(a, bounds.0) + b, Times(a, bounds.1) + b)) == Scaled(v, bounds)
  {
    var moved := (Times(a, bounds.0) + b, Times(a, bounds.1) + b);
    TimesOrdered(a, bounds.0, v);
    TimesOrdered(a, v, bounds.1);
    TimesOrdered(a, bounds.1, bounds.0);
    if bounds.0 < bounds.1 {
      ScaledProportion(v, bounds);
      ScaledProportion(Times(a, v) + b, moved);
      SameProportion(Scaled(v, bounds), Scaled(Times(a, v) + b, moved), v - bounds.0, bounds.1 - bounds.0, a,
                     Times(a, v) - Times(a, bounds.0), Times(a, bounds.1) - Times(a, bounds.0));
    }
  }

  lemma TimesOrdered(a: real, x: real, y: real)
    requires a > 0.0
    ensures Times(a, x) <= Times(a, y) <==> x <= y
  {
    CancelFactor(x, y, a);
  }

  lemma SameProportion(p: real, q: real, d: real, width: real, a: real, d': real, width': real)
    requires a > 0.0 && width > 0.0 && d' == Times(a, d) && width' == Times(a, width)
    requires Times(p, width) == 100.0 * d && Times(q, width') == 100.0 * d'
    ensures p == q
  {
    assert Times(q, width') == Times(a, Times(q, width));
    assert 100.0 * Times(a, d) == Times(a, 100.0 * d);
    TimesOrdered(a, Times(q, width), Times(p, width));
    TimesOrdered(a, Times(p, width), Times(q, width));
    CancelFactor(p, q, width);
    CancelFactor(q, p, width);
  }

  lemma AffineBounds(xs: seq<real>, ys: seq<real>, a: real, b: real)
    requires a > 0.0 && |ys| == |xs| > 0
    requires forall k | 0 <= k < |xs| :: ys[k] == Times(a, xs[k]) + b
    ensures MinMax(ys) == (Times(a, MinMax(xs).0) + b, Times(a, MinMax(xs).1) + b)
  {
    var lo, hi := RangeEnds(xs);
    forall k | 0 <= k < |ys| ensures ys[lo] <= ys[k] <= ys[hi] {
      TimesOrdered(a, xs[lo], xs[k]);
      TimesOrdered(a, xs[k], xs[hi]);
    }
    MinMaxUnique(ys, lo, hi);
  }

  lemma AffinePlaced(xs: seq<real>, ys: seq<real>, a: real, b: real, i: nat)
    requires a > 0.0 && |ys| == |xs| && i < |xs|
    requires forall k | 0 <= k < |xs| :: ys[k] == Times(a, xs[k]) + b
    ensures Scaled(ys[i], MinMax(ys)) == Scaled(xs[i], MinMax(xs))
  {
    AffineBounds(xs, ys, a, b);
    var _, _ := RangeEnds(xs);
    ScaledAffine(xs[i], MinMax(xs), a, b);
  }

  /** A column whose source is rescaled by a positive factor and shifted ends unchanged. */
  lemma AffineInvariance(col: Column, fs: seq<Feature>, gs: seq<Feature>, a: real, b: real, i: nat)
    requires a > 0.0 && |gs| == |fs| && i < |fs|
    requires forall k | 0 <= k < |fs| :: Read(col, gs[k]) == Times(a, Read(col, fs[k])) + b
    ensures Result(col, CrossSectioned(gs)[i]) == Result(col, CrossSectioned(fs)[i])
  {
    AffinePlaced(Values(col, fs), Values(col, gs), a, b, i);
  }

  /** The two index maps are inverse to each other on the first n numbers. */
  predicate Inverse(p: seq<nat>, q: seq<nat>, n: nat) {
    && |p| == |q| == n
    && (forall i | 0 <= i < n :: p[i] < n && q[i] < n)
    && (forall i | 0 <= i < n :: q[p[i]] == i && p[q[i]] == i)
  }

  lemma ReorderedBounds(xs: seq<real>, ys: seq<real>, p: seq<nat>, q: seq<nat>)
    requires |ys| == |xs| > 0 && Inverse(p, q, |xs|) && forall i | 0 <= i < |xs| :: ys[i] == xs[p[i]]
    ensures MinMax(ys) == MinMax(xs)
  {
    var lo, hi := RangeEnds(xs);
    forall i | 0 <= i < |ys| ensures ys[q[lo]] <= ys[i] <= ys[q[hi]] {
      assert xs[lo] <= xs[p[i]] <= xs[hi];
    }
    MinMaxUnique(ys, q[lo], q[hi]);
  }

  /** Reordering the markets reorders the result and changes nothing else. */
  lemma CommutesWithReordering(fs: seq<Feature>, gs: seq<Feature>, p: seq<nat>, q: seq<nat>, i: nat)
    requires |gs| == |fs| && Inverse(p, q, |fs|) && forall k | 0 <= k < |fs| :: gs[k] == fs[p[k]]
    requires i < |fs|
    ensures CrossSectioned(gs)[i] == CrossSectioned(fs)[p[i]]
  {
    forall col: Column ensures Placed(col, gs, i) == Placed(col, fs, p[i]) {
      ReorderedBounds(Values(col, fs), Values(col, gs), p, q);
    }
  }

  // ----- running it again

  lemma ScaledPercentage(v: real)
    requires 0.0 <= v <= 100.0
    ensures Scaled(v, (0.0, 100.0)) == v
  {
  }

  lemma RescaledAgain(xs: seq<real>, ys: seq<real>, i: nat)
    requires |ys| == |xs| && i < |xs|
    requires forall k | 0 <= k < |xs| :: ys[k] == Scaled(xs[k], MinMax(xs))
    ensures Scaled(ys[i], MinMax(ys)) == ys[i]
  {
    var bounds := MinMax(xs);
    var lo, hi := RangeEnds(xs);
    forall k | 0 <= k < |ys| ensures 0.0 <= ys[k] <= 100.0 {
      ScaledWithin(xs[k], bounds);
    }
    if bounds.0 == bounds.1 {
      assert forall k | 0 <= k < |ys| :: ys[k] == 50.0;
    } else {
      ScaledEnds(bounds);
      ScaledPercentage(ys[i]);
    }
    MinMaxUnique(ys, lo, hi);
  }

  lemma PlacedAgain(col: Column, fs: seq<Feature>, i: nat)
    requires i < |fs|
    ensures Placed(col, CrossSectioned(fs), i) == Result(col, CrossSectioned(fs)[i])
  {
    var out := CrossSectioned(fs);
    forall k | 0 <= k < |fs|
      ensures Result(col, out[k]) == Placed(col, fs, k)
      ensures out[k].return24H == fs[k].return24H
    {
    }
    if col == Strength {
      assert Values(col, out) == Values(col, fs);
    } else {
      RescaledAgain(Values(col, fs), Values(col, out), i);
    }
  }

  lemma ScoredTwice(f: Feature)
    ensures Scored(Scored(f)) == Scored(f)
  {
  }

  lemma RankedAgain(fs: seq<Feature>, i: nat)
    requires i < |fs|
    ensures Ranked(CrossSectioned(fs), i) == CrossSectioned(fs)[i]
  {
    hide Placed;
    PlacedAgain(Strength, fs, i);
    PlacedAgain(Liquidity, fs, i);
    PlacedAgain(Interest, fs, i);
    PlacedAgain(Volume, fs, i);
  }

  /** Running the whole cross-section twice is running it once, research scores and labels included. */
  lemma Idempotent(fs: seq<Feature>)
    ensures CrossSectioned(CrossSectioned(fs)) == CrossSectioned(fs)
  {
    forall i | 0 <= i < |fs| ensures CrossSectioned(CrossSectioned(fs))[i] == CrossSectioned(fs)[i] {
      RankedAgain(fs, i);
      ScoredTwice(Ranked(fs, i));
    }
  }

  // ----- scores and labels

  /** Research scores stay percentages. */
  lemma ScoresStayInRange(fs: seq<Feature>, i: nat)
    requires i < |fs| && ScoresInRange(fs[i])
    ensures ScoresInRange(CrossSectioned(fs)[i]) && 0.0 <= CrossSectioned(fs)[i].researchScore <= 100.0
  {
    ColumnsAreRanks(Liquidity, fs, i, i);
    ColumnsAreRanks(Interest, fs, i, i);
    ColumnsAreRanks(Volume, fs, i, i);
    ResearchScoreBounded(CrossSectioned(fs)[i]);
  }

  /** Unless all markets are equally liquid, the least liquid ones are labelled as such, whatever else holds of them. */
  lemma LeastLiquidIsIgnored(fs: seq<Feature>, i: nat)
    requires i < |fs| && Read(Liquidity, fs[i]) == MinMax(Values(Liquidity, fs)).0 < MinMax(Values(Liquidity, fs)).1
    ensures CrossSectioned(fs)[i].regimeLabel == "ignore_low_liquidity"
  {
    ColumnsAreRanks(Liquidity, fs, i, i);
  }
}
