/**
 The features job: every market with enough candles is calculated, the cross-section is normalised, flags are raised.
 */
module FeatureJob {
  import opened Sequences
  import opened RealMath
  import opened Indicators
  import opened Features
  import opened FeatureMeaning
  import opened CrossSection

  /** The job passes no snapshots and a fixed spread. */
  function InputFor(coin: string, candles: seq<Candle>): Input {
    Input(coin, "1h", candles, [], 2.0)
  }

  function Calculated(math: Math, coins: seq<string>, candlesOf: string -> seq<Candle>, now: int): seq<Feature>
    requires math.Valid()
  {
    if coins == [] then []
    else
      var earlier, coin := Calculated(math, Front(coins), candlesOf, now), Last(coins);
      if |candlesOf(coin)| < 2 then earlier else earlier + [FeatureOf(math, InputFor(coin, candlesOf(coin)), now)]
  }

  /** The positions of the coins that the job calculates: those with two candles or more, in their order. */
  predicate Selected(coins: seq<string>, candlesOf: string -> seq<Candle>, kept: seq<nat>) {
    && (forall k, l | 0 <= k < l < |kept| :: kept[k] < kept[l])
    && (forall k | 0 <= k < |kept| :: kept[k] < |coins|)
    && (forall c: nat | c < |coins| :: c in kept <==> |candlesOf(coins[c])| >= 2)
  }

  /** Feature k is that of the coin at position kept[k], with its name, its last time and the growth of its candles. */
  predicate CalculatedFor(coins: seq<string>, candlesOf: string -> seq<Candle>, kept: seq<nat>, out: seq<Feature>) {
    && |out| == |kept|
    && forall k | 0 <= k < |kept| && kept[k] < |coins| ::
         && out[k].coin == coins[kept[k]] && out[k].interval == "1h" && out[k].spreadBps == 2.0
         && (|candlesOf(coins[kept[k]])| > 0 ==> out[k].time == Last(candlesOf(coins[kept[k]])).time)
         && Grown(out[k], InputFor(coins[kept[k]], candlesOf(coins[kept[k]])))
  }

  lemma {:induction false} SelectedByJob(math: Math, coins: seq<string>, candlesOf: string -> seq<Candle>, now: int)
    returns (kept: seq<nat>)
    requires math.Valid()
    ensures var out := Calculated(math, coins, candlesOf, now);
            && Selected(coins, candlesOf, kept) && CalculatedFor(coins, candlesOf, kept, out)
            && forall k | 0 <= k < |kept| ::
                 out[k] == FeatureOf(math, InputFor(coins[kept[k]], candlesOf(coins[kept[k]])), now)
  {
    hide FeatureOf;
    kept := [];
    if coins != [] {
      var earlier := SelectedByJob(math, Front(coins), candlesOf, now);
      kept := earlier;
      if |candlesOf(Last(coins))| >= 2 {
        kept := earlier + [|coins| - 1];
        assert kept[|earlier|] == |coins| - 1;
        NamedAfterInput(math, Last(coins), candlesOf(Last(coins)), now);
      }
    }
  }

  lemma NamedAfterInput(math: Math, coin: string, candles: seq<Candle>, now: int)
    requires math.Valid()
    ensures var f := FeatureOf(math, InputFor(coin, candles), now);
            && f.coin == coin && f.interval == "1h" && f.spreadBps == 2.0
            && (|candles| > 0 ==> f.time == Last(candles).time) && Grown(f, InputFor(coin, candles))
  {
    IdentifiedAndGrown(math, InputFor(coin, candles), now);
  }

  /** The cross-section leaves names, times and spreads as they are. */
  lemma CrossSectionKeepsCoins(coins: seq<string>, candlesOf: string -> seq<Candle>, kept: seq<nat>, fs: seq<Feature>)
    requires CalculatedFor(coins, candlesOf, kept, fs)
    ensures CalculatedFor(coins, candlesOf, kept, CrossSectioned(fs))
  {
    hide CrossSectioned, GrowsBy, ResearchIsMean, LabelledByFirst, Places;
    CrossSectionExact(fs);
    assert |CrossSectioned(fs)| == |fs|;
    forall k | 0 <= k < |kept| && kept[k] < |coins|
      ensures Grown(CrossSectioned(fs)[k], InputFor(coins[kept[k]], candlesOf(coins[kept[k]])))
    {
      assert Rescores(fs[k], CrossSectioned(fs)[k]);
    }
  }

  method CalculateAll(math: Math, coins: seq<string>, candlesOf: string -> seq<Candle>, now: int)
    returns (out: seq<Feature>)
    requires math.Valid()
    ensures out == Calculated(math, coins, candlesOf, now)
  {
    out := [];
    for c := 0 to |coins|
      invariant out == Calculated(math, coins[..c], candlesOf, now)
    {
      assert Front(coins[..c + 1]) == coins[..c];
      var candles := candlesOf(coins[c]);
      if |candles| < 2 {
        continue;
      }
      var f := Calculate(math, InputFor(coins[c], candles), now);
      out := out + [f];
    }
    assert coins[..|coins|] == coins;
  }

  /** The flags are those of the feature and its triggered conditions. */
  predicate FlaggedBy(f: Feature, flags: seq<Flag>) {
    Proper(f, flags) && forall flagType :: flagType in Raised(flags) <==> Triggered(f, flagType)
  }

  method FlagAll(out: seq<Feature>) returns (flags: seq<seq<Flag>>)
    ensures |flags| == |out| && forall i | 0 <= i < |out| :: FlaggedBy(out[i], flags[i])
  {
    flags := [];
    for i := 0 to |out|
      invariant |flags| == i && forall k | 0 <= k < i :: FlaggedBy(out[k], flags[k])
    {
      var raised := GenerateFlags(out[i]);
      flags := flags + [raised];
    }
  }

  /** The features and flags of one run; reading the candles is a parameter, storing the result is left out. */
  method ComputeFeatures(math: Math, coins: seq<string>, candlesOf: string -> seq<Candle>, now: int)
    returns (out: seq<Feature>, flags: seq<seq<Flag>>, ghost kept: seq<nat>)
    requires math.Valid()
    ensures Selected(coins, candlesOf, kept) && CalculatedFor(coins, candlesOf, kept, out)
    ensures out == CrossSectioned(Calculated(math, coins, candlesOf, now))
    ensures |flags| == |out| && forall i | 0 <= i < |out| :: FlaggedBy(out[i], flags[i])
  {
    var calculated := CalculateAll(math, coins, candlesOf, now);
    var slice := new Feature[|calculated|](i requires 0 <= i < |calculated| => calculated[i]);
    assert slice[..] == calculated;
    NormalizeCrossSection(slice);
    out := slice[..];
    kept := SelectedByJob(math, coins, candlesOf, now);
    CrossSectionKeepsCoins(coins, candlesOf, kept, calculated);
    flags := FlagAll(out);
  }

  /** What the wiring of the job fixes in every feature before the cross-section. */
  predicate Wired(f: Feature) {
    && f.spreadBps == 2.0 && f.oiChange24H == 0.0 && f.fundingZScore == 0.0
    && f.oiAnomalyScore == 0.0 && f.fundingAnomalyScore == 0.0 && f.executionQualityScore == 84.0
    && ScoresInRange(f)
  }

  lemma WiredOne(math: Math, coin: string, candles: seq<Candle>, now: int)
    requires math.Valid()
    ensures Wired(FeatureOf(math, InputFor(coin, candles), now))
  {
    FeatureBounds(math, InputFor(coin, candles), now);
  }

  lemma {:induction false} WiredAll(math: Math, coins: seq<string>, candlesOf: string -> seq<Candle>, now: int)
    requires math.Valid()
    ensures forall f | f in Calculated(math, coins, candlesOf, now) :: Wired(f)
  {
    if coins != [] {
      WiredAll(math, Front(coins), candlesOf, now);
      WiredOne(math, Last(coins), candlesOf(Last(coins)), now);
    }
  }

  /**
   Open interest scores 50, execution 84 and funding 0; the research score lies between 18.4 and 78.4 and depends on
   three columns alone; and only volume, strength and volatility flags can be raised.
   */
  predicate InEnvelope(f: Feature) {
    && f.oiAnomalyScore == 50.0 && f.executionQualityScore == 84.0 && f.fundingAnomalyScore == 0.0
    && 18.4 <= f.researchScore <= 78.4
    && f.researchScore == 18.4 + 0.25 * f.liquidityScore + 0.20 * f.volumeAnomalyScore + 0.15 * f.momentumScore
    && !Triggered(f, OiAnomaly) && !Triggered(f, Funding) && !Triggered(f, Squeeze) && !Triggered(f, Execution)
  }

  lemma InterestPlaced(fs: seq<Feature>, i: nat)
    requires i < |fs| && forall f | f in fs :: Wired(f)
    ensures Placed(Interest, fs, i) == 50.0
  {
    var xs := Values(Interest, fs);
    forall k | 0 <= k < |xs| ensures xs[k] == 0.0 {
      assert fs[k] in fs;
    }
    MinMaxUnique(xs, i, i);
  }

  lemma WiredEnvelope(fs: seq<Feature>, i: nat)
    requires i < |fs| && forall f | f in fs :: Wired(f)
    ensures InEnvelope(CrossSectioned(fs)[i])
  {
    hide Placed;
    InterestPlaced(fs, i);
    PlacedWithin(Liquidity, fs, i);
    PlacedWithin(Volume, fs, i);
    assert fs[i] in fs;
  }

  /** Every feature of every run of the job, whatever the coins and candles, is in the envelope. */
  lemma JobEnvelope(math: Math, coins: seq<string>, candlesOf: string -> seq<Candle>, now: int, i: nat)
    requires math.Valid() && i < |CrossSectioned(Calculated(math, coins, candlesOf, now))|
    ensures InEnvelope(CrossSectioned(Calculated(math, coins, candlesOf, now))[i])
  {
    WiredAll(math, coins, candlesOf, now);
    WiredEnvelope(Calculated(math, coins, candlesOf, now), i);
  }

  /** How many coins have two candles or more. */
  function Eligible(coins: seq<string>, candlesOf: string -> seq<Candle>): nat {
    if coins == [] then 0 else Eligible(Front(coins), candlesOf) + if |candlesOf(Last(coins))| >= 2 then 1 else 0
  }

  /**
   Of distinct coins exactly those with two candles or more have a feature, one each, and the features stand in the
   order of the coins.
   */
  lemma JobSelectsExactly(math: Math, coins: seq<string>, candlesOf: string -> seq<Candle>, now: int)
    requires math.Valid() && forall c, d | 0 <= c < d < |coins| :: coins[c] != coins[d]
    ensures var out := CrossSectioned(Calculated(math, coins, candlesOf, now));
            && |out| == Eligible(coins, candlesOf)
            && (forall c | 0 <= c < |coins| ::
                  (exists k :: 0 <= k < |out| && out[k].coin == coins[c]) <==> |candlesOf(coins[c])| >= 2)
            && (forall c, d, k, l | 0 <= c < |coins| && 0 <= d < |coins| && 0 <= k < l < |out|
                                    && out[k].coin == coins[c] && out[l].coin == coins[d] :: c < d)
  {
    hide CrossSectioned, Calculated, CalculatedFor;
    var out := CrossSectioned(Calculated(math, coins, candlesOf, now));
    var kept := SelectedByJob(math, coins, candlesOf, now);
    CrossSectionKeepsCoins(coins, candlesOf, kept, Calculated(math, coins, candlesOf, now));
    CountEligible(math, coins, candlesOf, now);
    NamesOf(coins, candlesOf, kept, out);
    forall c | 0 <= c < |coins|
      ensures (exists k :: 0 <= k < |out| && out[k].coin == coins[c]) <==> |candlesOf(coins[c])| >= 2
    {
      OneFeaturePerCoin(coins, candlesOf, kept, out, c);
    }
  }

  lemma NamesOf(coins: seq<string>, candlesOf: string -> seq<Candle>, kept: seq<nat>, out: seq<Feature>)
    requires Selected(coins, candlesOf, kept) && CalculatedFor(coins, candlesOf, kept, out)
    ensures |out| == |kept| && forall k | 0 <= k < |kept| :: kept[k] < |coins| && out[k].coin == coins[kept[k]]
  {
    hide Grown, GrowsBy;
  }

  lemma OneFeaturePerCoin(coins: seq<string>, candlesOf: string -> seq<Candle>, kept: seq<nat>, out: seq<Feature>,
                          c: nat)
    requires c < |coins| && forall c, d | 0 <= c < d < |coins| :: coins[c] != coins[d]
    requires Selected(coins, candlesOf, kept) && CalculatedFor(coins, candlesOf, kept, out)
    ensures (exists k :: 0 <= k < |out| && out[k].coin == coins[c]) <==> |candlesOf(coins[c])| >= 2
  {
    NamesOf(coins, candlesOf, kept, out);
    hide CalculatedFor;
    if |candlesOf(coins[c])| >= 2 {
      assert c in kept;
      var k :| 0 <= k < |kept| && kept[k] == c;
      assert out[k].coin == coins[c];
    }
    if k :| 0 <= k < |out| && out[k].coin == coins[c] {
      assert kept[k] == c && kept[k] in kept;
    }
  }

  lemma {:induction false} CountEligible(math: Math, coins: seq<string>, candlesOf: string -> seq<Candle>, now: int)
    requires math.Valid()
    ensures |Calculated(math, coins, candlesOf, now)| == Eligible(coins, candlesOf)
  {
    if coins != [] { CountEligible(math, Front(coins), candlesOf, now); }
  }
}
