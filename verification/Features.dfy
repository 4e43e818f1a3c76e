/**
 The features of one market: indicators, scores, regime label and flags.
 */
module Features {
  import opened Sequences
  import opened RealMath
  import opened Series
  import opened Indicators

  datatype Snapshot = Snapshot(openInterest: real, funding: real)

  datatype Input = Input(coin: string, interval: string, candles: seq<Candle>, snapshots: seq<Snapshot>,
                         spreadBps: real)

  datatype Feature = Feature(
    time: int, coin: string, interval: string,
    return1H: real, return4H: real, return24H: real,
    volumeVs7DAvg: real, volumeZScore: real,
    oiChange1H: real, oiChange4H: real, oiChange24H: real, fundingZScore: real,
    realizedVol: real, atr: real, adx: real, relativeStrengthRank: real, autocorr1: real, hurstEstimate: real,
    spreadBps: real,
    liquidityScore: real, oiAnomalyScore: real, volumeAnomalyScore: real, momentumScore: real,
    fundingAnomalyScore: real, executionQualityScore: real,
    researchScore: real, regimeLabel: string, updatedAt: int)

  datatype FlagType = VolumeAnomaly | OiAnomaly | Funding | Squeeze | Execution | RelativeStrength | Volatility

  datatype Severity = High | Medium

  datatype Flag = Flag(time: int, coin: string, flagType: FlagType, severity: Severity)

  const WEEK := 168

  // ----- scores and labels

  function ResearchScore(f: Feature): real {
    0.25 * f.liquidityScore + 0.20 * f.oiAnomalyScore + 0.20 * f.volumeAnomalyScore
    + 0.15 * f.momentumScore + 0.10 * f.fundingAnomalyScore + 0.10 * f.executionQualityScore
  }

  function Classify(f: Feature): string {
    if f.executionQualityScore < 25.0 || f.liquidityScore < 20.0 then "ignore_low_liquidity"
    else if f.realizedVol < 0.02 && f.volumeZScore > 0.8 then "volatility_breakout_candidate"
    else if Abs(f.return24H) > 0.05 && f.adx > 20.0 then "trend_candidate"
    else if f.return4H > 0.03 && f.relativeStrengthRank > 70.0 then "momentum_candidate"
    else if Abs(f.fundingZScore) > 2.0 || Abs(f.return24H) > 0.12 then "mean_reversion_candidate"
    else if f.realizedVol < 0.015 then "squeeze_candidate"
    else "ignore_choppy"
  }

  /** The closing step of both Calculate and the cross-section: the weighted score, then the label. */
  function Scored(f: Feature): Feature {
    var scored := f.(researchScore := ResearchScore(f));
    scored.(regimeLabel := Classify(scored))
  }

  // ----- one market

  function Closes(candles: seq<Candle>): seq<real> {
    seq(|candles|, i requires 0 <= i < |candles| => candles[i].close)
  }

  function Volumes(candles: seq<Candle>): seq<real> {
    seq(|candles|, i requires 0 <= i < |candles| => candles[i].volume)
  }

  function Interests(snapshots: seq<Snapshot>): seq<real> {
    seq(|snapshots|, i requires 0 <= i < |snapshots| => snapshots[i].openInterest)
  }

  function Fundings(snapshots: seq<Snapshot>): seq<real> {
    seq(|snapshots|, i requires 0 <= i < |snapshots| => snapshots[i].funding)
  }

  function FundingZscore(math: Math, snapshots: seq<Snapshot>): real {
    if snapshots == [] then 0.0 else Zscore(math, Last(snapshots).funding, Fundings(Tail(snapshots, WEEK)))
  }

  datatype PriceMeasures = PriceMeasures(realizedVol: real, atr: real, adx: real, autocorr: real, hurst: real)

  datatype InterestMeasures = InterestMeasures(oi1: real, oi4: real, oi24: real, fundingZ: real)

  function PricesOf(math: Math, candles: seq<Candle>, closes: seq<real>): PriceMeasures
    requires math.Valid()
  {
    PriceMeasures(
      Std(math, Returns(Tail(closes, 24))) * math.sqrt(24.0), Atr(Tail(candles, 24)), Adx(Tail(candles, 24)),
      Autocorr(Returns(Tail(closes, 48))), Hurst(math, Tail(closes, 96)))
  }

  function InterestOf(math: Math, snapshots: seq<Snapshot>): InterestMeasures {
    var interests := Interests(snapshots);
    InterestMeasures(ReturnN(interests, 1), ReturnN(interests, 4), ReturnN(interests, 24),
                     FundingZscore(math, snapshots))
  }

  /** A feature with its measurements and no score yet. */
  function Unscored(input: Input, now: int, closes: seq<real>, relativeVolume: real, volumeZ: real,
                    prices: PriceMeasures, interest: InterestMeasures): Feature {
    Feature(
      if input.candles == [] then now else Last(input.candles).time, input.coin, input.interval,
      ReturnN(closes, 1), ReturnN(closes, 4), ReturnN(closes, 24), relativeVolume, volumeZ,
      interest.oi1, interest.oi4, interest.oi24, interest.fundingZ,
      prices.realizedVol, prices.atr, prices.adx, 0.0, prices.autocorr, prices.hurst,
      input.spreadBps, 0.0, 0.0, 0.0, 0.0, 0.0, 0.0, 0.0, "ignore_choppy", now)
  }

  /** What is measured, before any score. */
  function Measured(math: Math, input: Input, now: int): Feature
    requires math.Valid()
  {
    var closes, volumes := Closes(input.candles), Volumes(input.candles);
    Unscored(input, now, closes,
             Ratio(LastOrZero(volumes), Mean(Tail(volumes, WEEK))),
             Zscore(math, LastOrZero(volumes), Tail(volumes, WEEK)),
             PricesOf(math, input.candles, closes), InterestOf(math, input.snapshots))
  }

  function WithScores(math: Math, f: Feature, dayVolume: real): Feature {
    f.(liquidityScore := Clamp(100.0 - f.spreadBps * 5.0 + math.log10(1.0 + dayVolume) * 8.0),
       oiAnomalyScore := Clamp(Abs(f.oiChange24H) * 300.0),
       volumeAnomalyScore := Clamp(Max(0.0, f.volumeZScore) * 25.0),
       momentumScore := Clamp(Abs(f.return24H) * 500.0),
       fundingAnomalyScore := Clamp(Abs(f.fundingZScore) * 20.0),
       executionQualityScore := Clamp(100.0 - f.spreadBps * 8.0))
  }

  function FeatureOf(math: Math, input: Input, now: int): Feature
    requires math.Valid()
  {
    Scored(WithScores(math, Measured(math, input, now), Mean(Tail(Volumes(input.candles), 24))))
  }

  /** The two series that the loop at the head of Calculate collects. */
  method Collect(candles: seq<Candle>) returns (closes: seq<real>, volumes: seq<real>)
    ensures closes == Closes(candles) && volumes == Volumes(candles)
  {
    closes, volumes := [], [];
    for i := 0 to |candles|
      invariant closes == Closes(candles[..i]) && volumes == Volumes(candles[..i])
    {
      closes := closes + [candles[i].close];
      volumes := volumes + [candles[i].volume];
    }
    assert candles[..|candles|] == candles;
  }

  method ComputeZscore(math: Math, value: real, values: seq<real>) returns (z: real)
    ensures z == Zscore(math, value, values)
  {
    var s := ComputeStd(math, values);
    if s == 0.0 {
      return 0.0;
    }
    var m := ComputeAvg(values);
    z := (value - m) / s;
  }

  method MeasurePrices(math: Math, candles: seq<Candle>, closes: seq<real>) returns (prices: PriceMeasures)
    requires math.Valid()
    ensures prices == PricesOf(math, candles, closes)
  {
    var dayReturns := ComputeReturns(Tail(closes, 24));
    var deviation := ComputeStd(math, dayReturns);
    var atr := ComputeAtr(Tail(candles, 24));
    var adx := ComputeAdx(Tail(candles, 24));
    var twoDayReturns := ComputeReturns(Tail(closes, 48));
    var autocorr := ComputeAutocorr(twoDayReturns);
    prices := PriceMeasures(deviation * math.sqrt(24.0), atr, adx, autocorr, Hurst(math, Tail(closes, 96)));
  }

  method MeasureInterest(math: Math, snapshots: seq<Snapshot>) returns (interest: InterestMeasures)
    ensures interest == InterestOf(math, snapshots)
  {
    interest := InterestMeasures(0.0, 0.0, 0.0, 0.0);
    if |snapshots| > 0 {
      var interests := Interests(snapshots);
      var fundingZ := ComputeZscore(math, Last(snapshots).funding, Fundings(Tail(snapshots, WEEK)));
      interest := InterestMeasures(ReturnN(interests, 1), ReturnN(interests, 4), ReturnN(interests, 24), fundingZ);
    }
  }

  method Calculate(math: Math, input: Input, now: int) returns (f: Feature)
    requires math.Valid()
    ensures f == FeatureOf(math, input, now)
  {
    var closes, volumes := Collect(input.candles);
    var weekVolume := ComputeAvg(Tail(volumes, WEEK));
    var volumeZ := ComputeZscore(math, LastOrZero(volumes), Tail(volumes, WEEK));
    var prices := MeasurePrices(math, input.candles, closes);
    var interest := MeasureInterest(math, input.snapshots);
    f := Unscored(input, now, closes, Ratio(LastOrZero(volumes), weekVolume), volumeZ, prices, interest);
    var dayVolume := ComputeAvg(Tail(volumes, 24));
    f := WithScores(math, f, dayVolume);
    f := f.(researchScore := ResearchScore(f));
    f := f.(regimeLabel := Classify(f));
  }

  predicate ScoresInRange(f: Feature) {
    && 0.0 <= f.liquidityScore <= 100.0 && 0.0 <= f.oiAnomalyScore <= 100.0 && 0.0 <= f.volumeAnomalyScore <= 100.0
    && 0.0 <= f.momentumScore <= 100.0 && 0.0 <= f.fundingAnomalyScore <= 100.0
    && 0.0 <= f.executionQualityScore <= 100.0
  }

  /** The number of candles or snapshots behind a z-score. */
  function WindowLength(n: nat): nat {
    if n <= WEEK then n else WEEK
  }

  lemma ScoresBounded(math: Math, f: Feature, dayVolume: real)
    ensures ScoresInRange(WithScores(math, f, dayVolume))
  {
  }

  lemma ResearchScoreBounded(f: Feature)
    requires ScoresInRange(f)
    ensures 0.0 <= ResearchScore(f) <= 100.0
  {
  }

  lemma WeeklyZscoreBounded(math: Math, xs: seq<real>)
    requires math.Valid()
    ensures xs == [] ==> Zscore(math, LastOrZero(xs), Tail(xs, WEEK)) == 0.0
    ensures xs != [] ==> Square(Zscore(math, LastOrZero(xs), Tail(xs, WEEK))) <= WindowLength(|xs|) as real - 1.0
  {
    if xs != [] {
      assert Last(Tail(xs, WEEK)) == LastOrZero(xs);
      LatestZscoreBounded(math, Tail(xs, WEEK));
    }
  }

  lemma FundingZscoreBounded(math: Math, snapshots: seq<Snapshot>)
    requires math.Valid() && snapshots != []
    ensures Square(FundingZscore(math, snapshots)) <= WindowLength(|snapshots|) as real - 1.0
  {
    var fundings := Fundings(Tail(snapshots, WEEK));
    assert Last(fundings) == Last(snapshots).funding;
    LatestZscoreBounded(math, fundings);
  }

  lemma DailyHurstBounded(math: Math, xs: seq<real>)
    requires math.Valid()
    ensures 0.0 <= Hurst(math, xs) < 0.725
  {
    if |xs| >= 20 {
      HurstEnvelope(math, xs);
    }
  }

  /**
   For every input: the scores and the research score are percentages, the z-scores are bounded by their windows, and
   the autocorrelation and the Hurst estimate stay within their envelopes.
   */
  lemma FeatureBounds(math: Math, input: Input, now: int)
    requires math.Valid()
    ensures var f := FeatureOf(math, input, now);
            && ScoresInRange(f) && 0.0 <= f.researchScore <= 100.0
            && (input.candles == [] ==> f.volumeZScore == 0.0)
            && (input.candles != [] ==> Square(f.volumeZScore) <= WindowLength(|input.candles|) as real - 1.0)
            && (input.snapshots != [] ==> Square(f.fundingZScore) <= WindowLength(|input.snapshots|) as real - 1.0)
            && -1.0 < f.autocorr1 < 1.0
            && 0.0 <= f.hurstEstimate < 0.725
  {
    var measured, dayVolume := Measured(math, input, now), Mean(Tail(Volumes(input.candles), 24));
    ScoresBounded(math, measured, dayVolume);
    ResearchScoreBounded(WithScores(math, measured, dayVolume));
    WeeklyZscoreBounded(math, Volumes(input.candles));
    if input.snapshots != [] {
      FundingZscoreBounded(math, input.snapshots);
    }
    AutocorrBounded(Returns(Tail(Closes(input.candles), 48)));
    DailyHurstBounded(math, Tail(Closes(input.candles), 96));
  }

  /** A full volume score needs a z-score of four, and so at least seventeen candles. */
  lemma FullVolumeScoreNeeds17(math: Math, input: Input, now: int)
    requires math.Valid() && FeatureOf(math, input, now).volumeAnomalyScore == 100.0
    ensures |input.candles| >= 17
  {
    FeatureBounds(math, input, now);
    var z := FeatureOf(math, input, now).volumeZScore;
    assert z >= 4.0;
    SquareAtLeast(4.0, z);
    assert Square(4.0) == 16.0;
  }

  lemma SquareAtLeast(r: real, x: real)
    requires 0.0 <= r <= x
    ensures Square(r) <= Square(x)
  {
    if r < x { SquareIncreases(r, x); }
  }

  lemma SpikeTail(n: nat)
    requires n > 0
    ensures Tail(Spike(n), WEEK) == Spike(WindowLength(n))
  {
  }

  /** Seventeen are enough: for every longer history some volumes give the full score. */
  lemma FullVolumeScoreReached(math: Math, n: nat, now: int) returns (input: Input)
    requires math.Valid() && n >= 17
    ensures |input.candles| == n && FeatureOf(math, input, now).volumeAnomalyScore == 100.0
  {
    var xs, m := Spike(n), WindowLength(n);
    var candles := seq(n, i requires 0 <= i < n => Candle(i, 1.0, 1.0, 1.0, 1.0, xs[i]));
    input := Input("BTC", "1h", candles, [], 1.0);
    SpikeTail(n);
    assert Volumes(candles) == xs && LastOrZero(xs) == Last(xs) == Last(Spike(m));
    LatestZscoreReached(math, m);
    var z := Zscore(math, Last(Spike(m)), Spike(m));
    assert Square(4.0) == 16.0;
    SquareOrder(4.0, z);
  }

  // ----- flags

  predicate Triggered(f: Feature, flagType: FlagType) {
    match flagType
    case VolumeAnomaly => f.volumeVs7DAvg >= 2.0
    case OiAnomaly => f.oiChange24H >= 0.18
    case Funding => f.fundingZScore >= 2.0
    case Squeeze => f.fundingZScore < -1.0 && f.oiChange24H > 0.05
    case Execution => f.spreadBps > 12.0
    case RelativeStrength => f.return24H > 0.05 && Abs(f.fundingZScore) < 1.0
    case Volatility => f.realizedVol < 0.02 && f.volumeZScore > 1.0
  }

  function SeverityOf(flagType: FlagType): Severity {
    if flagType.VolumeAnomaly? || flagType.OiAnomaly? || flagType.Execution? then High else Medium
  }

  function Raised(flags: seq<Flag>): set<FlagType> {
    set flag | flag in flags :: flag.flagType
  }

  /** The place of a kind in the order in which the conditions are checked. */
  function Rank(flagType: FlagType): nat {
    match flagType
    case VolumeAnomaly => 0
    case OiAnomaly => 1
    case Funding => 2
    case Squeeze => 3
    case Execution => 4
    case RelativeStrength => 5
    case Volatility => 6
  }

  /** Flags of one market in the order of their kinds, each kind at most once and with its own severity. */
  predicate Proper(f: Feature, flags: seq<Flag>) {
    && (forall i, j | 0 <= i < j < |flags| :: Rank(flags[i].flagType) < Rank(flags[j].flagType))
    && (forall i | 0 <= i < |flags| ::
          flags[i] == Flag(f.time, f.coin, flags[i].flagType, SeverityOf(flags[i].flagType)))
  }

  /** Raise a flag if its condition holds. */
  method AddIf(condition: bool, f: Feature, flags: seq<Flag>, flagType: FlagType, severity: Severity)
    returns (more: seq<Flag>)
    requires Proper(f, flags) && severity == SeverityOf(flagType)
    requires forall t | t in Raised(flags) :: Rank(t) < Rank(flagType)
    ensures Proper(f, more)
    ensures Raised(more) == if condition then Raised(flags) + {flagType} else Raised(flags)
  {
    more := flags;
    if condition {
      more := flags + [Flag(f.time, f.coin, flagType, severity)];
      assert forall i | 0 <= i < |flags| :: more[i] == flags[i];
      assert more[|flags|] in more;
      forall t | t in Raised(flags) ensures t in Raised(more) {
        var flag :| flag in flags && flag.flagType == t;
        assert flag in more;
      }
    }
  }

  /** The triggered ones among some kinds of flags. */
  function TriggeredOf(f: Feature, kinds: set<FlagType>): set<FlagType> {
    set kind | kind in kinds && Triggered(f, kind)
  }

  method VolumeAndInterestFlags(f: Feature) returns (flags: seq<Flag>)
    ensures Proper(f, flags)
    ensures Raised(flags) == TriggeredOf(f, {VolumeAnomaly, OiAnomaly, Funding, Squeeze})
  {
    flags := [];
    flags := AddIf(f.volumeVs7DAvg >= 2.0, f, flags, VolumeAnomaly, High);
    flags := AddIf(f.oiChange24H >= 0.18, f, flags, OiAnomaly, High);
    flags := AddIf(f.fundingZScore >= 2.0, f, flags, Funding, Medium);
    flags := AddIf(f.fundingZScore < -1.0 && f.oiChange24H > 0.05, f, flags, Squeeze, Medium);
  }

  /** The flags of a market are exactly the triggered ones. */
  method GenerateFlags(f: Feature) returns (flags: seq<Flag>)
    ensures Proper(f, flags)
    ensures forall flagType :: flagType in Raised(flags) <==> Triggered(f, flagType)
    ensures forall flag | flag in flags ::
              && flag.time == f.time && flag.coin == f.coin
              && (flag.severity == High <==> flag.flagType in {VolumeAnomaly, OiAnomaly, Execution})
  {
    flags := VolumeAndInterestFlags(f);
    flags := AddIf(f.spreadBps > 12.0, f, flags, Execution, High);
    flags := AddIf(f.return24H > 0.05 && Abs(f.fundingZScore) < 1.0, f, flags, RelativeStrength, Medium);
    flags := AddIf(f.realizedVol < 0.02 && f.volumeZScore > 1.0, f, flags, Volatility, Medium);
  }
}
