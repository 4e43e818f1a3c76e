/**
 What the fields of a feature mean: equations between each measurement and the candles and snapshots behind it, the
 exact range of each score, and the first condition that decides the label.
 */
module FeatureMeaning {
  import opened Sequences
  import opened RealMath
  import opened Series
  import opened Indicators
  import opened Features

  // ----- measurements

  function OpenInterests(snapshots: seq<Snapshot>): seq<real> {
    seq(|snapshots|, i requires 0 <= i < |snapshots| => snapshots[i].openInterest)
  }

  function FundingRates(snapshots: seq<Snapshot>): seq<real> {
    seq(|snapshots|, i requires 0 <= i < |snapshots| => snapshots[i].funding)
  }

  function ClosePrices(candles: seq<Candle>): seq<real> {
    seq(|candles|, i requires 0 <= i < |candles| => candles[i].close)
  }

  function TradedVolumes(candles: seq<Candle>): seq<real> {
    seq(|candles|, i requires 0 <= i < |candles| => candles[i].volume)
  }

  /** z scores the last value of the window: z deviations above its mean, or zero if the window is constant. */
  predicate ScoresLast(math: Math, z: real, window: seq<real>) {
    if Variance(window) > 0.0 then Times(z, Std(math, window)) == Last(window) - Mean(window) else z == 0.0
  }

  /** The name, the time of the last candle, what is handed through, and no rank yet. */
  predicate Identified(f: Feature, input: Input, now: int) {
    && f.coin == input.coin && f.interval == input.interval && f.spreadBps == input.spreadBps && f.updatedAt == now
    && f.relativeStrengthRank == 0.0
    && f.time == if input.candles == [] then now else input.candles[|input.candles| - 1].time
  }

  /** Growth over one, four and twenty-four candles, and over as many snapshots of the open interest. */
  predicate Grown(f: Feature, input: Input) {
    var closes, interests := ClosePrices(input.candles), OpenInterests(input.snapshots);
    && GrowsBy(closes, 1, f.return1H) && GrowsBy(closes, 4, f.return4H) && GrowsBy(closes, 24, f.return24H)
    && GrowsBy(interests, 1, f.oiChange1H) && GrowsBy(interests, 4, f.oiChange4H)
    && GrowsBy(interests, 24, f.oiChange24H)
  }

  /** The last volume against the mean of its week and in its deviations, and the last funding in those of its 168. */
  predicate Weighed(math: Math, f: Feature, input: Input) {
    var volumes, rates := Tail(TradedVolumes(input.candles), 168), Tail(FundingRates(input.snapshots), 168);
    && (if volumes == [] || Sum(volumes) == 0.0 then f.volumeVs7DAvg == 0.0
        else Times(f.volumeVs7DAvg, Sum(volumes)) == Times(|volumes| as real, Last(volumes)))
    && (if volumes == [] then f.volumeZScore == 0.0 else ScoresLast(math, f.volumeZScore, volumes))
    && (if rates == [] then f.fundingZScore == 0.0 else ScoresLast(math, f.fundingZScore, rates))
  }

  /** The day's volatility, range and trend, two days of autocorrelation, four of persistence. */
  predicate Moving(math: Math, f: Feature, input: Input)
    requires math.Valid()
  {
    var closes, day := ClosePrices(input.candles), Tail(input.candles, 24);
    var two := Returns(Tail(closes, 48));
    var m, den := Mean(two), Spread(two, Mean(two));
    && f.realizedVol >= 0.0 && Square(f.realizedVol) == 24.0 * Variance(Returns(Tail(closes, 24)))
    && (if day == [] then f.atr == 0.0 else Times(f.atr, |day| as real) == Sum(Highs(day)) - Sum(Lows(day)))
    && IsShare(day, f.adx)
    && (if |two| < 3 || den == 0.0 then f.autocorr1 == 0.0
        else 2.0 * Times(f.autocorr1, den) == 2.0 * den - Square(two[0] - m) - Square(Last(two) - m) - Steps(two))
    && f.hurstEstimate == Hurst(math, Tail(closes, 96))
  }

  lemma SameSeries(input: Input)
    ensures Closes(input.candles) == ClosePrices(input.candles)
    ensures Volumes(input.candles) == TradedVolumes(input.candles)
    ensures Interests(input.snapshots) == OpenInterests(input.snapshots)
    ensures Fundings(Tail(input.snapshots, WEEK)) == Tail(FundingRates(input.snapshots), 168)
  {
  }

  lemma IdentifiedAndGrown(math: Math, input: Input, now: int)
    requires math.Valid()
    ensures var f := FeatureOf(math, input, now); Identified(f, input, now) && Grown(f, input)
  {
    hide GrowsBy, Closes, Interests, ClosePrices, OpenInterests, Zscore, Ratio, PricesOf, FundingZscore, ReturnN;
    SameSeries(input);
    var closes, interests := Closes(input.candles), Interests(input.snapshots);
    ReturnExact(closes, 1);
    ReturnExact(closes, 4);
    ReturnExact(closes, 24);
    ReturnExact(interests, 1);
    ReturnExact(interests, 4);
    ReturnExact(interests, 24);
  }

  lemma RatioToMean(xs: seq<real>)
    requires xs != []
    ensures if Sum(xs) == 0.0 then Ratio(Last(xs), Mean(xs)) == 0.0
            else Times(Ratio(Last(xs), Mean(xs)), Sum(xs)) == Times(|xs| as real, Last(xs))
  {
    MeanTotal(xs);
    MeanZero(xs);
    if Sum(xs) != 0.0 {
      var r, n := Ratio(Last(xs), Mean(xs)), |xs| as real;
      QuotientTimes(Last(xs), Mean(xs));
      Reassociate(r, n, Mean(xs));
    }
  }

  lemma MeanZero(xs: seq<real>)
    requires xs != []
    ensures Mean(xs) == 0.0 <==> Sum(xs) == 0.0
  {
    MeanTotal(xs);
    if Sum(xs) == 0.0 {
      assert Times(|xs| as real, 0.0) == 0.0;
      SameFactor(|xs| as real, Mean(xs), 0.0);
    }
  }

  lemma Reassociate(r: real, n: real, m: real)
    ensures Times(r, Times(n, m)) == Times(n, Times(r, m))
  {
  }

  lemma WeighedWell(math: Math, input: Input, now: int)
    requires math.Valid()
    ensures Weighed(math, FeatureOf(math, input, now), input)
  {
    hide Zscore, Ratio, Closes, Volumes, Interests, Fundings, TradedVolumes, FundingRates, PricesOf, ReturnN;
    SameSeries(input);
    var volumes, rates := Tail(Volumes(input.candles), WEEK), Fundings(Tail(input.snapshots, WEEK));
    LastOfTail(Volumes(input.candles), WEEK);
    LastFunding(input.snapshots);
    if volumes != [] {
      RatioToMean(volumes);
      ZscoreExact(math, Last(volumes), volumes);
    } else {
      EmptyWindow(math);
    }
    if rates != [] {
      ZscoreExact(math, Last(rates), rates);
    }
  }

  lemma LastOfTail(xs: seq<real>, n: nat)
    requires n > 0
    ensures Tail(xs, n) == [] <==> xs == []
    ensures xs != [] ==> Last(Tail(xs, n)) == LastOrZero(xs)
    ensures xs == [] ==> LastOrZero(xs) == 0.0
  {
  }

  lemma LastFunding(snapshots: seq<Snapshot>)
    ensures Fundings(Tail(snapshots, WEEK)) == [] <==> snapshots == []
    ensures snapshots != [] ==> Last(Fundings(Tail(snapshots, WEEK))) == Last(snapshots).funding
  {
  }

  lemma EmptyWindow(math: Math)
    ensures Ratio(0.0, Mean([])) == 0.0 && Zscore(math, 0.0, []) == 0.0
  {
  }

  lemma VolatilityExact(math: Math, rs: seq<real>)
    requires math.Valid()
    ensures var v := Std(math, rs) * math.sqrt(24.0);
            v >= 0.0 && Square(v) == 24.0 * Variance(rs)
  {
    StdSign(math, rs);
    assert math.Root(24.0);
    var s, r := Std(math, rs), math.sqrt(24.0);
    TimesNonNegative(s, r);
    SquareOfProduct(s, r);
    assert Times(Square(s), 24.0) == 24.0 * Square(s);
  }

  lemma MovingWell(math: Math, input: Input, now: int)
    requires math.Valid()
    ensures Moving(math, FeatureOf(math, input, now), input)
  {
    hide Zscore, Ratio, Closes, Volumes, Interests, Fundings, ClosePrices, ReturnN, Tail;
    hide Adx, Atr, Autocorr, Hurst, Std;
    SameSeries(input);
    var closes, day := Closes(input.candles), Tail(input.candles, 24);
    VolatilityExact(math, Returns(Tail(closes, 24)));
    AtrExact(day);
    AdxExact(day);
    AutocorrExact(Returns(Tail(closes, 48)));
  }

  /** Every measurement of every feature, as an equation with the input. */
  lemma MeasurementsExact(math: Math, input: Input, now: int)
    requires math.Valid()
    ensures var f := FeatureOf(math, input, now);
            Identified(f, input, now) && Grown(f, input) && Weighed(math, f, input) && Moving(math, f, input)
  {
    hide FeatureOf, Identified, Grown, Weighed, Moving;
    IdentifiedAndGrown(math, input, now);
    WeighedWell(math, input, now);
    MovingWell(math, input, now);
  }

  // ----- scores

  /** A score that rises with its signal: none up to zero, full from the given signal on, in proportion between. */
  predicate Proportional(score: real, signal: real, full: real) {
    && (score == 0.0 <==> signal <= 0.0)
    && (score == 100.0 <==> signal >= full)
    && (0.0 <= signal <= full ==> Times(score, full) == 100.0 * signal)
  }

  /**
   Four scores are proportional to the size of their signals and full at a third of open interest gained or lost, four
   deviations of volume, a fifth of price, and five deviations of funding; execution is full without a spread and none
   from 12.5 basis points; liquidity loses five points a basis point and gains eight for each tenfold volume.
   */
  lemma ScoresExact(math: Math, input: Input, now: int)
    requires math.Valid()
    ensures var f := FeatureOf(math, input, now);
            && Proportional(f.oiAnomalyScore, Abs(f.oiChange24H), 1.0 / 3.0)
            && Proportional(f.volumeAnomalyScore, f.volumeZScore, 4.0)
            && Proportional(f.momentumScore, Abs(f.return24H), 0.2)
            && Proportional(f.fundingAnomalyScore, Abs(f.fundingZScore), 5.0)
            && Proportional(f.executionQualityScore, 12.5 - f.spreadBps, 12.5)
            && Proportional(f.liquidityScore,
                            100.0 - 5.0 * f.spreadBps
                            + 8.0 * math.log10(1.0 + Mean(Tail(TradedVolumes(input.candles), 24))), 100.0)
            && ResearchIsMean(f)
  {
    hide Zscore, Ratio, Mean, Volumes, TradedVolumes, Tail, PricesOf, FundingZscore, ReturnN;
    SameSeries(input);
  }

  /** The research score is the mean of the six scores, weighted 25, 20, 20, 15, 10 and 10 of a hundred. */
  predicate ResearchIsMean(f: Feature) {
    100.0 * f.researchScore
    == 25.0 * f.liquidityScore + 20.0 * (f.oiAnomalyScore + f.volumeAnomalyScore) + 15.0 * f.momentumScore
       + 10.0 * (f.fundingAnomalyScore + f.executionQualityScore)
  }

  /**
   A market scores as a volume anomaly exactly if its last volume is above the mean of its week, and then that week is
   not constant.
   */
  lemma VolumeScorePositiveIff(math: Math, input: Input, now: int)
    requires math.Valid()
    ensures var f, week := FeatureOf(math, input, now), Tail(TradedVolumes(input.candles), 168);
            && (f.volumeAnomalyScore > 0.0 <==> week != [] && Last(week) > Mean(week))
            && (f.volumeAnomalyScore > 0.0 ==> Variance(week) > 0.0)
            && (week != [] && Last(week) < Mean(week) ==> f.volumeZScore < 0.0)
  {
    hide FeatureOf, Grown, Moving, Tail, Proportional;
    var f, week := FeatureOf(math, input, now), Tail(TradedVolumes(input.candles), 168);
    MeasurementsExact(math, input, now);
    ScoresExact(math, input, now);
    FeatureBounds(math, input, now);
    ProportionalSign(f.volumeAnomalyScore, f.volumeZScore, 4.0);
    if week != [] {
      StdSign(math, week);
      if Variance(week) > 0.0 {
        ProductSign(f.volumeZScore, Std(math, week), Last(week) - Mean(week));
      } else {
        AboveConstant(week);
      }
    }
  }

  lemma ProportionalSign(score: real, signal: real, full: real)
    requires Proportional(score, signal, full) && score >= 0.0
    ensures score > 0.0 <==> signal > 0.0
  {
  }

  lemma ProductSign(z: real, s: real, d: real)
    requires s > 0.0 && Times(z, s) == d
    ensures (z > 0.0 <==> d > 0.0) && (z < 0.0 <==> d < 0.0)
  {
    var zero := 0.0;
    assert Times(zero, s) == zero;
    CancelFactor(z, zero, s);
    CancelFactor(zero, z, s);
  }

  /** In a constant window the last value is the mean. */
  lemma AboveConstant(xs: seq<real>)
    requires xs != [] && Variance(xs) <= 0.0
    ensures Last(xs) == Mean(xs)
  {
    VarianceNonNegative(xs);
    SpreadTotal(xs);
    TermWithinSpread(xs, Mean(xs), |xs| - 1);
    SquareZero(Last(xs) - Mean(xs));
  }

  // ----- the label

  /** The labels in the order of their conditions, with the condition of each. */
  function Conditions(f: Feature): (cs: seq<(string, bool)>)
    ensures |cs| == 7
  {
    [("ignore_low_liquidity", f.executionQualityScore < 25.0 || f.liquidityScore < 20.0),
     ("volatility_breakout_candidate", f.realizedVol < 0.02 && f.volumeZScore > 0.8),
     ("trend_candidate", f.adx > 20.0 && (f.return24H > 0.05 || f.return24H < -0.05)),
     ("momentum_candidate", f.return4H > 0.03 && f.relativeStrengthRank > 70.0),
     ("mean_reversion_candidate",
      f.fundingZScore > 2.0 || f.fundingZScore < -2.0 || f.return24H > 0.12 || f.return24H < -0.12),
     ("squeeze_candidate", f.realizedVol < 0.015),
     ("ignore_choppy", true)]
  }

  /** A market gets the label of the first condition that holds of it. */
  lemma LabelIsFirst(f: Feature, k: nat)
    requires k < 7 && Conditions(f)[k].1 && forall i | 0 <= i < k :: !Conditions(f)[i].1
    ensures Classify(f) == Conditions(f)[k].0
  {
    assert k == 0 || !Conditions(f)[0].1;
    assert k <= 1 || !Conditions(f)[1].1;
    assert k <= 2 || !Conditions(f)[2].1;
    assert k <= 3 || !Conditions(f)[3].1;
    assert k <= 4 || !Conditions(f)[4].1;
    assert k <= 5 || !Conditions(f)[5].1;
  }

  predicate LabelledByFirst(f: Feature) {
    forall k: nat | k < 7 && Conditions(f)[k].1 && (forall i: nat | i < k :: !Conditions(f)[i].1) ::
      f.regimeLabel == Conditions(f)[k].0
  }

  lemma ClassifyByFirst(f: Feature)
    requires f.regimeLabel == Classify(f)
    ensures LabelledByFirst(f)
  {
    hide Classify, Conditions;
    forall k: nat | k < 7 && Conditions(f)[k].1 && (forall i: nat | i < k :: !Conditions(f)[i].1)
      ensures f.regimeLabel == Conditions(f)[k].0
    {
      LabelIsFirst(f, k);
    }
  }

  /** The label of a calculated feature is that of its own fields. */
  lemma CalculatedLabel(math: Math, input: Input, now: int)
    requires math.Valid()
    ensures LabelledByFirst(FeatureOf(math, input, now))
  {
    hide Classify, Conditions, WithScores, Measured;
    var unlabelled := WithScores(math, Measured(math, input, now), Mean(Tail(Volumes(input.candles), 24)));
    LabelOfScored(unlabelled);
    ClassifyByFirst(FeatureOf(math, input, now));
  }

  lemma LabelOfScored(f: Feature)
    ensures Scored(f).regimeLabel == Classify(Scored(f))
  {
  }

  // ----- the flags

  /** When each kind of flag is raised. */
  lemma FlagConditions(f: Feature)
    ensures Triggered(f, VolumeAnomaly) <==> f.volumeVs7DAvg >= 2.0
    ensures Triggered(f, OiAnomaly) <==> f.oiChange24H >= 0.18
    ensures Triggered(f, Funding) <==> f.fundingZScore >= 2.0
    ensures Triggered(f, Squeeze) <==> f.fundingZScore < -1.0 && f.oiChange24H > 0.05
    ensures Triggered(f, Execution) <==> f.spreadBps > 12.0
    ensures Triggered(f, RelativeStrength) <==> f.return24H > 0.05 && -1.0 < f.fundingZScore < 1.0
    ensures Triggered(f, Volatility) <==> f.realizedVol < 0.02 && f.volumeZScore > 1.0
  {
  }

  /** Of the funding, squeeze and strength flags a market can have only one: they ask for different funding. */
  lemma FlagsExclude(f: Feature)
    ensures !(Triggered(f, Funding) && Triggered(f, Squeeze))
    ensures !(Triggered(f, Funding) && Triggered(f, RelativeStrength))
    ensures !(Triggered(f, Squeeze) && Triggered(f, RelativeStrength))
  {
  }

  /** A volume flag of a week with trade says that the last candle carries twice its share of the week's volume. */
  lemma VolumeFlagIff(math: Math, input: Input, now: int)
    requires math.Valid() && Sum(Tail(TradedVolumes(input.candles), 168)) > 0.0
    ensures var week := Tail(TradedVolumes(input.candles), 168);
            && week != []
            && (Triggered(FeatureOf(math, input, now), VolumeAnomaly)
                <==> Times(|week| as real, Last(week)) >= 2.0 * Sum(week))
  {
    hide FeatureOf, Identified, Grown, Moving, Tail, Zscore, ScoresLast;
    var f, week := FeatureOf(math, input, now), Tail(TradedVolumes(input.candles), 168);
    MeasurementsExact(math, input, now);
    assert week != [];
    CancelFactor(2.0, f.volumeVs7DAvg, Sum(week));
  }
}
