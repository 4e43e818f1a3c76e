/**
 The order-book snapshot: best prices, spread, depth within a band around the mid price, and imbalance.
 */
module OrderBook {
  import opened Sequences
  import opened RealMath

  datatype Level = Level(px: real, sz: real)

  datatype Snapshot = Snapshot(
    bestBid: real, bestAsk: real, spreadBps: real,
    bidDepth10: real, askDepth10: real, bidDepth50: real, askDepth50: real, bidDepth100: real, askDepth100: real,
    imbalance50: real)

  const BPS := 10000.0

  // ----- depth

  /** Distance from the mid price in basis points, positive away from it on the level's own side. */
  function Distance(level: Level, mid: real, bid: bool): real
    requires mid > 0.0
  {
    var distance := (level.px - mid) / mid * BPS;
    if bid then -distance else distance
  }

  predicate InBand(level: Level, mid: real, bps: real, bid: bool)
    requires mid > 0.0
  {
    0.0 <= Distance(level, mid, bid) <= bps
  }

  function Notional(levels: seq<Level>): real {
    if levels == [] then 0.0 else Notional(Front(levels)) + Times(Last(levels).px, Last(levels).sz)
  }

  /** The notional of the levels inside the band, wherever they stand. */
  function Depth(levels: seq<Level>, mid: real, bps: real, bid: bool): real {
    if mid <= 0.0 || levels == [] then 0.0
    else
      Depth(Front(levels), mid, bps, bid)
      + if InBand(Last(levels), mid, bps, bid) then Times(Last(levels).px, Last(levels).sz) else 0.0
  }

  method DepthWithin(levels: seq<Level>, mid: real, bps: real, bid: bool) returns (total: real)
    ensures total == Depth(levels, mid, bps, bid)
  {
    if mid <= 0.0 {
      return 0.0;
    }
    total := 0.0;
    for i := 0 to |levels|
      invariant total == Depth(levels[..i], mid, bps, bid)
    {
      assert Front(levels[..i + 1]) == levels[..i];
      var px := levels[i].px;
      var distance := (px - mid) / mid * BPS;
      if bid {
        distance := -distance;
      }
      if distance >= 0.0 && distance <= bps {
        total := total + px * levels[i].sz;
      }
    }
    assert levels[..|levels|] == levels;
  }

  // ----- the snapshot

  function BestPrice(levels: seq<Level>): real {
    if levels == [] then 0.0 else levels[0].px
  }

  function Mid(bids: seq<Level>, asks: seq<Level>): real {
    (BestPrice(bids) + BestPrice(asks)) / 2.0
  }

  function SpreadBps(bids: seq<Level>, asks: seq<Level>): real {
    var mid := Mid(bids, asks);
    if mid > 0.0 then (BestPrice(asks) - BestPrice(bids)) / mid * BPS else 0.0
  }

  function Imbalance(bid: real, ask: real): real {
    if bid + ask > 0.0 then (bid - ask) / (bid + ask) else 0.0
  }

  /** A book holds up to two sides that are used; a missing side is empty. */
  function Side(book: seq<seq<Level>>, i: nat): seq<Level> {
    if i < |book| then book[i] else []
  }

  function SnapshotOf(bids: seq<Level>, asks: seq<Level>): Snapshot {
    var mid := Mid(bids, asks);
    var bid50, ask50 := Depth(bids, mid, 50.0, true), Depth(asks, mid, 50.0, false);
    Snapshot(BestPrice(bids), BestPrice(asks), SpreadBps(bids, asks),
             Depth(bids, mid, 10.0, true), Depth(asks, mid, 10.0, false), bid50, ask50,
             Depth(bids, mid, 100.0, true), Depth(asks, mid, 100.0, false), Imbalance(bid50, ask50))
  }

  method TakeSnapshot(book: seq<seq<Level>>) returns (s: Snapshot)
    ensures s == SnapshotOf(Side(book, 0), Side(book, 1))
    ensures Describes(s, if |book| > 0 then book[0] else [], if |book| > 1 then book[1] else [])
    ensures TwoSided(Side(book, 0), Side(book, 1)) ==> Consistent(s)
  {
    var bids, asks := [], [];
    if |book| > 0 {
      bids := book[0];
    }
    if |book| > 1 {
      asks := book[1];
    }
    var bestBid, bestAsk := 0.0, 0.0;
    if |bids| > 0 {
      bestBid := bids[0].px;
    }
    if |asks| > 0 {
      bestAsk := asks[0].px;
    }
    var mid := (bestBid + bestAsk) / 2.0;
    var spread := 0.0;
    if mid > 0.0 {
      spread := (bestAsk - bestBid) / mid * BPS;
    }
    var bid50 := DepthWithin(bids, mid, 50.0, true);
    var ask50 := DepthWithin(asks, mid, 50.0, false);
    var imbalance := 0.0;
    if bid50 + ask50 > 0.0 {
      imbalance := (bid50 - ask50) / (bid50 + ask50);
    }
    var bid10 := DepthWithin(bids, mid, 10.0, true);
    var ask10 := DepthWithin(asks, mid, 10.0, false);
    var bid100 := DepthWithin(bids, mid, 100.0, true);
    var ask100 := DepthWithin(asks, mid, 100.0, false);
    s := Snapshot(bestBid, bestAsk, spread, bid10, ask10, bid50, ask50, bid100, ask100, imbalance);
    SnapshotExact(bids, asks);
    if TwoSided(bids, asks) {
      SnapshotConsistent(bids, asks);
    }
  }

  // ----- what a snapshot holds

  /** The price is on its own side of the mid price and no further from it than the given share. */
  predicate WithinBand(px: real, mid: real, bps: real, bid: bool) {
    var away := if bid then mid - px else px - mid;
    0.0 <= BPS * away <= Times(bps, mid)
  }

  lemma InBandExact(level: Level, mid: real, bps: real, bid: bool)
    requires mid > 0.0
    ensures InBand(level, mid, bps, bid) <==> WithinBand(level.px, mid, bps, bid)
  {
    var away := if bid then mid - level.px else level.px - mid;
    var d := Distance(level, mid, bid);
    AwayFrom(level.px, mid);
    assert d * mid == BPS * away;
    CancelFactor(0.0, d, mid);
    CancelFactor(d, bps, mid);
    assert 0.0 * mid == 0.0;
  }

  lemma AwayFrom(px: real, mid: real)
    requires mid > 0.0
    ensures (px - mid) / mid * BPS * mid == BPS * (px - mid)
    ensures -((px - mid) / mid * BPS) * mid == BPS * (mid - px)
  {
    assert (px - mid) / mid * mid == px - mid;
  }

  /** The levels within the band, in their order. */
  function BandLevels(levels: seq<Level>, mid: real, bps: real, bid: bool): seq<Level> {
    if levels == [] then []
    else
      var earlier := BandLevels(Front(levels), mid, bps, bid);
      if WithinBand(Last(levels).px, mid, bps, bid) then earlier + [Last(levels)] else earlier
  }

  lemma {:induction false} NotionalAppend(levels: seq<Level>, more: seq<Level>)
    ensures Notional(levels + more) == Notional(levels) + Notional(more)
  {
    if more == [] {
      assert levels + more == levels;
    } else {
      assert Front(levels + more) == levels + Front(more);
      NotionalAppend(levels, Front(more));
    }
  }

  lemma NotionalOne(level: Level)
    ensures Notional([level]) == Times(level.px, level.sz)
  {
    assert Front([level]) == [];
  }

  /** The depth of any levels, sorted or not, is the notional of those within the band. */
  lemma {:induction false} DepthExact(levels: seq<Level>, mid: real, bps: real, bid: bool)
    requires mid > 0.0
    ensures Depth(levels, mid, bps, bid) == Notional(BandLevels(levels, mid, bps, bid))
  {
    hide WithinBand, InBand;
    if levels != [] {
      DepthExact(Front(levels), mid, bps, bid);
      InBandExact(Last(levels), mid, bps, bid);
      NotionalOne(Last(levels));
      NotionalAppend(BandLevels(Front(levels), mid, bps, bid), [Last(levels)]);
    }
  }

  predicate IsDepth(depth: real, levels: seq<Level>, mid: real, bps: real, bid: bool) {
    depth == if mid > 0.0 then Notional(BandLevels(levels, mid, bps, bid)) else 0.0
  }

  /**
   The snapshot of any book: the best prices are the first of their sides, the spread is their difference in shares of
   the mid price, each depth is the notional of its own side's levels in its own band, and the imbalance is the share by
   which the bids outweigh the asks.
   */
  predicate Describes(s: Snapshot, bids: seq<Level>, asks: seq<Level>) {
    var mid := (s.bestBid + s.bestAsk) / 2.0;
    && s.bestBid == (if bids == [] then 0.0 else bids[0].px) && s.bestAsk == (if asks == [] then 0.0 else asks[0].px)
    && (if mid > 0.0 then Times(s.spreadBps, mid) == BPS * (s.bestAsk - s.bestBid) else s.spreadBps == 0.0)
    && IsDepth(s.bidDepth10, bids, mid, 10.0, true) && IsDepth(s.askDepth10, asks, mid, 10.0, false)
    && IsDepth(s.bidDepth50, bids, mid, 50.0, true) && IsDepth(s.askDepth50, asks, mid, 50.0, false)
    && IsDepth(s.bidDepth100, bids, mid, 100.0, true) && IsDepth(s.askDepth100, asks, mid, 100.0, false)
    && (if s.bidDepth50 + s.askDepth50 > 0.0
        then Times(s.imbalance50, s.bidDepth50 + s.askDepth50) == s.bidDepth50 - s.askDepth50
        else s.imbalance50 == 0.0)
  }

  lemma DepthDescribed(levels: seq<Level>, mid: real, bps: real, bid: bool)
    ensures IsDepth(Depth(levels, mid, bps, bid), levels, mid, bps, bid)
  {
    if mid > 0.0 { DepthExact(levels, mid, bps, bid); }
  }

  lemma SpreadDescribed(bids: seq<Level>, asks: seq<Level>)
    ensures var mid := Mid(bids, asks);
            if mid > 0.0 then Times(SpreadBps(bids, asks), mid) == BPS * (BestPrice(asks) - BestPrice(bids))
            else SpreadBps(bids, asks) == 0.0
  {
    var mid, d := Mid(bids, asks), BestPrice(asks) - BestPrice(bids);
    if mid > 0.0 {
      assert d / mid * mid == d;
      assert Times(d / mid * BPS, mid) == BPS * (d / mid * mid);
    }
  }

  lemma ShareDescribed(bid: real, ask: real)
    ensures if bid + ask > 0.0 then Times(Imbalance(bid, ask), bid + ask) == bid - ask else Imbalance(bid, ask) == 0.0
  {
    if bid + ask > 0.0 {
      assert (bid - ask) / (bid + ask) * (bid + ask) == bid - ask;
    }
  }

  lemma SnapshotExact(bids: seq<Level>, asks: seq<Level>)
    ensures Describes(SnapshotOf(bids, asks), bids, asks)
  {
    hide Depth, SpreadBps, Imbalance, IsDepth, BandLevels;
    var mid := Mid(bids, asks);
    SpreadDescribed(bids, asks);
    DepthDescribed(bids, mid, 10.0, true);
    DepthDescribed(asks, mid, 10.0, false);
    DepthDescribed(bids, mid, 50.0, true);
    DepthDescribed(asks, mid, 50.0, false);
    DepthDescribed(bids, mid, 100.0, true);
    DepthDescribed(asks, mid, 100.0, false);
    ShareDescribed(Depth(bids, mid, 50.0, true), Depth(asks, mid, 50.0, false));
  }

  /** On a sorted side the levels within the band are the prefix that BandIsPrefix speaks of. */
  lemma BandLevelsArePrefix(levels: seq<Level>, mid: real, bps: real, bid: bool)
    requires mid > 0.0 && Sorted(levels, bid) && OnItsSide(levels, mid, bid)
    ensures Notional(BandLevels(levels, mid, bps, bid)) == Notional(levels[..BandLength(levels, mid, bps, bid)])
  {
    DepthExact(levels, mid, bps, bid);
    BandIsPrefix(levels, mid, bps, bid);
  }

  // ----- bands are prefixes

  /** Prices get no better from one level to the next, are positive, and sizes are not negative. */
  predicate Sorted(levels: seq<Level>, bid: bool) {
    && (forall i | 0 <= i < |levels| :: levels[i].px > 0.0 && levels[i].sz >= 0.0)
    && (forall i, j | 0 <= i < j < |levels| ::
          if bid then levels[i].px >= levels[j].px else levels[i].px <= levels[j].px)
  }

  /** The best level is on its own side of the mid price. */
  predicate OnItsSide(levels: seq<Level>, mid: real, bid: bool) {
    levels != [] ==> if bid then levels[0].px <= mid else levels[0].px >= mid
  }

  /** How many of the leading levels are in the band. */
  function BandLength(levels: seq<Level>, mid: real, bps: real, bid: bool): (n: nat)
    requires mid > 0.0
    ensures n <= |levels|
  {
    if levels != [] && InBand(levels[0], mid, bps, bid) then 1 + BandLength(levels[1..], mid, bps, bid) else 0
  }

  lemma {:induction false} BandLengthExact(levels: seq<Level>, mid: real, bps: real, bid: bool)
    requires mid > 0.0
    ensures var n := BandLength(levels, mid, bps, bid);
            && (forall k | 0 <= k < n :: InBand(levels[k], mid, bps, bid))
            && (n < |levels| ==> !InBand(levels[n], mid, bps, bid))
  {
    if levels != [] && InBand(levels[0], mid, bps, bid) {
      var rest := levels[1..];
      BandLengthExact(rest, mid, bps, bid);
      forall k | 0 <= k < BandLength(levels, mid, bps, bid) ensures InBand(levels[k], mid, bps, bid) {
        if k > 0 { assert levels[k] == rest[k - 1]; }
      }
    }
  }

  lemma DistanceOrdered(near: Level, far: Level, mid: real, bid: bool)
    requires mid > 0.0 && if bid then near.px >= far.px else near.px <= far.px
    ensures Distance(near, mid, bid) <= Distance(far, mid, bid)
  {
    CancelFactor((near.px - mid) / mid, (far.px - mid) / mid, mid);
    CancelFactor((far.px - mid) / mid, (near.px - mid) / mid, mid);
  }

  lemma DistanceOnSide(level: Level, mid: real, bid: bool)
    requires mid > 0.0 && if bid then level.px <= mid else level.px >= mid
    ensures Distance(level, mid, bid) >= 0.0
  {
    CancelFactor((level.px - mid) / mid, 0.0, mid);
    CancelFactor(0.0, (level.px - mid) / mid, mid);
  }

  lemma {:induction false} DepthOfPrefix(levels: seq<Level>, mid: real, bps: real, bid: bool, n: nat)
    requires mid > 0.0 && n <= |levels|
    requires forall k | 0 <= k < |levels| :: InBand(levels[k], mid, bps, bid) <==> k < n
    ensures Depth(levels, mid, bps, bid) == Notional(levels[..n])
  {
    if levels != [] {
      if n == |levels| {
        DepthOfPrefix(Front(levels), mid, bps, bid, n - 1);
        assert levels[..n] == levels && Front(levels)[..n - 1] == Front(levels);
      } else {
        DepthOfPrefix(Front(levels), mid, bps, bid, n);
        assert Front(levels)[..n] == levels[..n];
      }
    }
  }

  /** On a sorted side of an uncrossed book the depth at any band is the notional of the band's leading levels. */
  lemma BandIsPrefix(levels: seq<Level>, mid: real, bps: real, bid: bool)
    requires mid > 0.0 && Sorted(levels, bid) && OnItsSide(levels, mid, bid)
    ensures Depth(levels, mid, bps, bid) == Notional(levels[..BandLength(levels, mid, bps, bid)])
  {
    var n := BandLength(levels, mid, bps, bid);
    BandLengthExact(levels, mid, bps, bid);
    forall k | 0 <= k < |levels| ensures InBand(levels[k], mid, bps, bid) <==> k < n {
      DistanceOnSide(levels[0], mid, bid);
      DistanceOrdered(levels[0], levels[k], mid, bid);
      if k >= n {
        DistanceOrdered(levels[0], levels[n], mid, bid);
        DistanceOrdered(levels[n], levels[k], mid, bid);
      }
    }
    DepthOfPrefix(levels, mid, bps, bid, n);
  }

  lemma {:induction false} NotionalGrows(levels: seq<Level>, bid: bool, m: nat, n: nat)
    requires Sorted(levels, bid) && m <= n <= |levels|
    ensures 0.0 <= Notional(levels[..m]) <= Notional(levels[..n])
  {
    if n > 0 {
      assert Front(levels[..n]) == levels[..n - 1];
      TimesNonNegative(levels[n - 1].px, levels[n - 1].sz);
      if m < n {
        NotionalGrows(levels, bid, m, n - 1);
      } else {
        NotionalGrows(levels, bid, m - 1, n - 1);
      }
    }
  }

  lemma {:induction false} BandsNested(levels: seq<Level>, mid: real, narrow: real, wide: real, bid: bool)
    requires mid > 0.0 && narrow <= wide
    ensures BandLength(levels, mid, narrow, bid) <= BandLength(levels, mid, wide, bid)
  {
    if levels != [] {
      BandsNested(levels[1..], mid, narrow, wide, bid);
    }
  }

  /** A wider band holds a longer prefix and at least the depth. */
  lemma DepthGrowsWithBand(levels: seq<Level>, mid: real, narrow: real, wide: real, bid: bool)
    requires mid > 0.0 && Sorted(levels, bid) && OnItsSide(levels, mid, bid) && narrow <= wide
    ensures BandLength(levels, mid, narrow, bid) <= BandLength(levels, mid, wide, bid)
    ensures 0.0 <= Depth(levels, mid, narrow, bid) <= Depth(levels, mid, wide, bid)
  {
    BandIsPrefix(levels, mid, narrow, bid);
    BandIsPrefix(levels, mid, wide, bid);
    BandsNested(levels, mid, narrow, wide, bid);
    NotionalGrows(levels, bid, BandLength(levels, mid, narrow, bid), BandLength(levels, mid, wide, bid));
  }

  // ----- spread, bands and imbalance

  /** Both sides present, each sorted, best bid no higher than best ask. */
  predicate TwoSided(bids: seq<Level>, asks: seq<Level>) {
    && bids != [] && asks != [] && Sorted(bids, true) && Sorted(asks, false)
    && bids[0].px <= asks[0].px
  }

  lemma MidBetween(bids: seq<Level>, asks: seq<Level>)
    requires TwoSided(bids, asks)
    ensures Mid(bids, asks) > 0.0
    ensures OnItsSide(bids, Mid(bids, asks), true) && OnItsSide(asks, Mid(bids, asks), false)
  {
  }

  lemma BestDistance(bids: seq<Level>, asks: seq<Level>)
    requires TwoSided(bids, asks)
    ensures var mid := Mid(bids, asks);
            && mid > 0.0
            && Distance(bids[0], mid, true) == Distance(asks[0], mid, false) == SpreadBps(bids, asks) / 2.0
            && 0.0 <= SpreadBps(bids, asks) < 2.0 * BPS
  {
    var mid, b, a := Mid(bids, asks), bids[0].px, asks[0].px;
    assert b > 0.0 && a > 0.0;
    var p, q, r := (b - mid) / mid, (a - mid) / mid, (a - b) / mid;
    assert p * mid == b - mid && q * mid == a - mid && r * mid == a - b;
    HalfSpread(p, q, r, a, b, mid);
  }

  lemma HalfSpread(p: real, q: real, r: real, a: real, b: real, mid: real)
    requires 0.0 < b <= a && mid == (a + b) / 2.0
    requires p * mid == b - mid && q * mid == a - mid && r * mid == a - b
    ensures -p == q && r == 2.0 * q && 0.0 <= r < 2.0
  {
    CancelFactor(-p, q, mid);
    CancelFactor(q, -p, mid);
    CancelFactor(r, 2.0 * q, mid);
    CancelFactor(2.0 * q, r, mid);
    CancelFactor(0.0, r, mid);
    CancelFactor(2.0, r, mid);
  }

  /**
   On a two-sided uncrossed book a band of any width holds levels on both sides if the spread is at most twice the
   width, and on neither side otherwise; so the imbalance is zero whenever the spread exceeds 100 basis points.
   */
  lemma BandsOpenTogether(bids: seq<Level>, asks: seq<Level>, bps: real)
    requires TwoSided(bids, asks)
    ensures var mid := Mid(bids, asks);
            && mid > 0.0
            && (SpreadBps(bids, asks) <= 2.0 * bps <==> BandLength(bids, mid, bps, true) > 0)
            && (SpreadBps(bids, asks) <= 2.0 * bps <==> BandLength(asks, mid, bps, false) > 0)
            && (SpreadBps(bids, asks) > 2.0 * bps ==>
                  Depth(bids, mid, bps, true) == 0.0 && Depth(asks, mid, bps, false) == 0.0)
  {
    var mid := Mid(bids, asks);
    MidBetween(bids, asks);
    BestDistance(bids, asks);
    BandIsPrefix(bids, mid, bps, true);
    BandIsPrefix(asks, mid, bps, false);
  }

  lemma ImbalanceBounded(bid: real, ask: real)
    requires bid >= 0.0 && ask >= 0.0
    ensures -1.0 <= Imbalance(bid, ask) <= 1.0
    ensures Imbalance(ask, bid) == -Imbalance(bid, ask)
    ensures Imbalance(bid, ask) == 1.0 <==> ask == 0.0 < bid
  {
    var total := bid + ask;
    if total > 0.0 {
      var q, q' := (bid - ask) / total, (ask - bid) / total;
      assert q * total == bid - ask && q' * total == ask - bid;
      CancelFactor(q, 1.0, total);
      CancelFactor(1.0, q, total);
      CancelFactor(-1.0, q, total);
      CancelFactor(q', -q, total);
      CancelFactor(-q, q', total);
    }
  }

  /** What a snapshot of a two-sided uncrossed book looks like. */
  predicate Consistent(s: Snapshot) {
    && 0.0 < s.bestBid <= s.bestAsk && 0.0 <= s.spreadBps < 2.0 * BPS
    && 0.0 <= s.bidDepth10 <= s.bidDepth50 <= s.bidDepth100
    && 0.0 <= s.askDepth10 <= s.askDepth50 <= s.askDepth100
    && -1.0 <= s.imbalance50 <= 1.0
    && Times(s.imbalance50, s.bidDepth50 + s.askDepth50) == s.bidDepth50 - s.askDepth50
    && (s.imbalance50 > 0.0 <==> s.bidDepth50 > s.askDepth50)
    && (s.imbalance50 < 0.0 <==> s.bidDepth50 < s.askDepth50)
    && (s.spreadBps > 20.0 ==> s.bidDepth10 == 0.0 == s.askDepth10)
    && (s.spreadBps > 100.0 ==> s.bidDepth50 == 0.0 == s.askDepth50 && s.imbalance50 == 0.0)
    && (s.spreadBps > 200.0 ==> s.bidDepth100 == 0.0 == s.askDepth100)
  }

  /** The snapshot of a two-sided uncrossed book: nested depths on both sides and an imbalance between -1 and 1. */
  lemma SnapshotConsistent(bids: seq<Level>, asks: seq<Level>)
    requires TwoSided(bids, asks)
    ensures Consistent(SnapshotOf(bids, asks))
  {
    hide Depth, SpreadBps, Imbalance;
    var mid := Mid(bids, asks);
    MidBetween(bids, asks);
    BestDistance(bids, asks);
    DepthGrowsWithBand(bids, mid, 10.0, 50.0, true);
    DepthGrowsWithBand(bids, mid, 50.0, 100.0, true);
    DepthGrowsWithBand(asks, mid, 10.0, 50.0, false);
    DepthGrowsWithBand(asks, mid, 50.0, 100.0, false);
    ImbalanceBounded(Depth(bids, mid, 50.0, true), Depth(asks, mid, 50.0, false));
    ImbalanceExact(Depth(bids, mid, 50.0, true), Depth(asks, mid, 50.0, false));
    NoImbalance();
    BandsOpenTogether(bids, asks, 10.0);
    BandsOpenTogether(bids, asks, 50.0);
    BandsOpenTogether(bids, asks, 100.0);
  }

  /** The imbalance is the share by which the bids outweigh the asks. */
  lemma ImbalanceExact(bid: real, ask: real)
    requires bid >= 0.0 && ask >= 0.0
    ensures Times(Imbalance(bid, ask), bid + ask) == bid - ask
    ensures Imbalance(bid, ask) > 0.0 <==> bid > ask
    ensures Imbalance(bid, ask) < 0.0 <==> bid < ask
  {
    if bid + ask > 0.0 {
      var zero, q := 0.0, Imbalance(bid, ask);
      assert q * (bid + ask) == bid - ask && zero * (bid + ask) == zero;
      CancelFactor(q, zero, bid + ask);
      CancelFactor(zero, q, bid + ask);
    }
  }

  lemma NoImbalance()
    ensures Imbalance(0.0, 0.0) == 0.0
  {
  }

  /** A book with one side only has half the best price for its mid: the spread is 20000 basis points, signed. */
  lemma OneSidedSpread(levels: seq<Level>)
    requires levels != [] && levels[0].px > 0.0
    ensures SpreadBps(levels, []) == -2.0 * BPS && SpreadBps([], levels) == 2.0 * BPS
  {
    var px := levels[0].px;
    var mid := px / 2.0;
    var r, r' := (0.0 - px) / mid, px / mid;
    assert r * mid == 0.0 - px && r' * mid == px;
    CancelFactor(r, -2.0, mid);
    CancelFactor(-2.0, r, mid);
    CancelFactor(r', 2.0, mid);
    CancelFactor(2.0, r', mid);
  }

  /**
   Of a book with sorted sides the spread is at least 0 and below 20000 basis points if and only if both sides are
   there and uncrossed, or both are missing.
   */
  lemma SpreadInRangeIff(bids: seq<Level>, asks: seq<Level>)
    requires Sorted(bids, true) && Sorted(asks, false)
    ensures 0.0 <= SpreadBps(bids, asks) < 2.0 * BPS <==> TwoSided(bids, asks) || (bids == [] && asks == [])
  {
    if bids != [] && asks != [] {
      if bids[0].px <= asks[0].px {
        BestDistance(bids, asks);
      } else {
        CrossedSpread(bids[0].px, asks[0].px);
      }
    } else if bids != [] {
      OneSidedSpread(bids);
    } else if asks != [] {
      OneSidedSpread(asks);
    }
  }

  lemma CrossedSpread(bid: real, ask: real)
    requires bid > ask > 0.0
    ensures (ask - bid) / ((bid + ask) / 2.0) * BPS < 0.0
  {
    var mid := (bid + ask) / 2.0;
    var r := (ask - bid) / mid;
    assert r * mid == ask - bid;
    CancelFactor(0.0, r, mid);
  }
}
