/** `priceStrategie01`: an experimental adjustment of the live price. The
    newest history rows are decay-weighted, MAD outliers are dropped, and the
    live price is mixed with their weighted median, pulled towards the
    on-chain price when the two disagree by more than 15 basis points, and
    finally jittered by a tiny random amount. `Math.exp` and `Math.random()`
    are parameters. */
module Strategie01 {
  import opened Common
  import opened Market
  import Statistics

  const MAX_HISTORY: nat := 10
  const DECAY_LAMBDA: real := 0.075
  const ONCHAIN_BLEND: real := 0.25
  const THRESHOLD_BPS: real := 15.0
  const JITTER_BPS: real := 0.05

  /** The share of the live price in the mix; the history median gets the rest. */
  const LIVE_SHARE: real := 0.6

  /** The outlier cut-off, in MADs, and the MAD used when the MAD is 0. */
  const OUTLIER_K: real := 3.0
  const MAD_FLOOR: real := 0.000000001

  /** `history.slice(0, MAX_HISTORY)`: the newest rows. */
  function RecentRows(history: seq<HistoryRow>): (r: seq<HistoryRow>)
    ensures |r| == if |history| < MAX_HISTORY then |history| else MAX_HISTORY
    ensures r == history[..|r|]
  {
    if |history| <= MAX_HISTORY then history else history[..MAX_HISTORY]
  }

  /** Each row's ccxt price, weighted `exp(-DECAY_LAMBDA * i)` for the row's
      position `i`, so that newer rows weigh more. */
  function RowWeights(rows: seq<HistoryRow>, exp: real -> real): (r: seq<Weighted>)
    ensures |r| == |rows|
    ensures forall i :: 0 <= i < |rows| ==> r[i] == Weighted(rows[i].ccxtPrice, exp(-DECAY_LAMBDA * i as real))
  {
    seq(|rows|, i requires 0 <= i < |rows| => Weighted(rows[i].ccxtPrice, exp(-DECAY_LAMBDA * i as real)))
  }

  /** `mad || 1e-9`: the MAD of the prices, or the floor when it is 0 or NaN. */
  function Spread(prices: seq<real>): (r: real)
    ensures r > 0.0
    ensures var m := Statistics.Mad(prices); m.Real? && m.r != 0.0 ==> r == m.r
    ensures var m := Statistics.Mad(prices); m.NaN? || m.r == 0.0 ==> r == MAD_FLOOR
  {
    var m := Statistics.Mad(prices);
    if m.Real? && m.r != 0.0 then m.r else MAD_FLOOR
  }

  function IsInlier(med: real, spread: real): Weighted -> bool
    requires spread > 0.0
  {
    (w: Weighted) => Abs(w.price - med) / spread < OUTLIER_K
  }

  /** For a positive divisor the quotient test is the product test. */
  lemma InlierByProduct(med: real, spread: real, w: Weighted)
    requires spread > 0.0
    ensures IsInlier(med, spread)(w) <==> Abs(w.price - med) < OUTLIER_K * spread
  {
    var d := Abs(w.price - med);
    assert d / spread * spread == d;
    if d / spread < OUTLIER_K {
      assert d < OUTLIER_K * spread;
    } else {
      assert d >= OUTLIER_K * spread;
    }
  }

  /** The MAD filter. Median and MAD are taken over all the rows' prices
      (the filter callback's `arr`), so one threshold applies to every row;
      the rows kept stay in order. */
  function TrimOutliers(ws: seq<Weighted>): (r: seq<Weighted>)
    ensures |r| <= |ws|
    ensures |ws| == 0 ==> r == []
    ensures |ws| > 0 ==>
      var med := Statistics.Median(Prices(ws));
      med.Real? &&
      forall i :: 0 <= i < |r| ==> r[i] in ws && Abs(r[i].price - med.r) < OUTLIER_K * Spread(Prices(ws))
  {
    if |ws| == 0 then []
    else
      var prices := Prices(ws);
      KeepInliers(ws, Statistics.Median(prices).r, Spread(prices))
  }

  /** The rows within `OUTLIER_K` spreads of `med`, in order. */
  function KeepInliers(ws: seq<Weighted>, med: real, spread: real): (r: seq<Weighted>)
    requires spread > 0.0
    ensures |r| <= |ws|
    ensures forall i :: 0 <= i < |r| ==> r[i] in ws && Abs(r[i].price - med) < OUTLIER_K * spread
  {
    var kept := Filter(ws, IsInlier(med, spread));
    assert forall i :: 0 <= i < |kept| ==> kept[i] in ws && Abs(kept[i].price - med) < OUTLIER_K * spread by {
      forall i | 0 <= i < |kept| ensures kept[i] in ws && Abs(kept[i].price - med) < OUTLIER_K * spread {
        InlierByProduct(med, spread, kept[i]);
      }
    }
    kept
  }

  /** The filter never drops every row: the row closest to the median lies
      within one MAD of it, and within 0 of it when the MAD is 0. */
  lemma TrimKeepsOne(ws: seq<Weighted>)
    requires |ws| > 0
    ensures |TrimOutliers(ws)| > 0
  {
    var prices := Prices(ws);
    var med := Statistics.Median(prices).r;
    var spread := Spread(prices);
    var i := ClosestWithinMad(prices);
    assert Abs(ws[i].price - med) < OUTLIER_K * spread;
    InlierByProduct(med, spread, ws[i]);
    FilterKeeps(ws, IsInlier(med, spread), i);
  }

  /** Some price lies no further from the median than the MAD. */
  lemma ClosestWithinMad(prices: seq<real>) returns (i: nat)
    requires |prices| > 0
    ensures i < |prices|
    ensures Abs(prices[i] - Statistics.Median(prices).r) <= Statistics.Mad(prices).r
  {
    var med := Statistics.Median(prices).r;
    var d := Statistics.AbsDeviations(prices, med);
    assert Statistics.Mad(prices) == Statistics.Median(d);
    i := PositionOf(d, Min(d));
  }

  /** Position `j` of the price-sorted list is where the running weight
      first reaches half the total, or the last position when it never
      does. */
  ghost predicate HalfPoint(s: seq<Weighted>, j: nat)
  {
    j < |s| &&
    (forall k :: 0 < k <= j ==> Statistics.CumWeight(s, k) < Statistics.CumWeight(s, |s|) / 2.0) &&
    (Statistics.CumWeight(s, j + 1) >= Statistics.CumWeight(s, |s|) / 2.0 || j == |s| - 1)
  }

  /** Local `weightedMedian(data)`: in ascending price order, the first price
      at which the running weight reaches half the total, else the last
      price; NaN for no data. */
  function WeightedMedian(data: seq<Weighted>): (r: Num)
    ensures r.NaN? <==> |data| == 0
    ensures r.Real? ==> exists i :: 0 <= i < |data| && data[i].price == r.r
    ensures r.Real? ==> exists j: nat :: HalfPoint(Statistics.SortByPrice(data), j) && Statistics.SortByPrice(data)[j].price == r.r
  {
    if |data| == 0 then NaN
    else
      var s := Statistics.SortByPrice(data);
      var j := Statistics.IndexReaching(s, Statistics.CumWeight(s, |s|) / 2.0);
      assert HalfPoint(s, j);
      assert s[j] in multiset(data);
      Real(s[j].price)
  }

  /** With non-negative weights the half-total is always reached, so the
      "last price" fallback only ever returns the price at which it is. */
  lemma WeightedMedianReachesHalf(data: seq<Weighted>, j: nat)
    requires forall i :: 0 <= i < |data| ==> data[i].weight >= 0.0
    requires HalfPoint(Statistics.SortByPrice(data), j)
    ensures var s := Statistics.SortByPrice(data);
      Statistics.CumWeight(s, j + 1) >= Statistics.CumWeight(s, |s|) / 2.0
  {
    var s := Statistics.SortByPrice(data);
    forall i | 0 <= i < |s| ensures s[i].weight >= 0.0 {
      assert s[i] in multiset(data);
    }
    assert s[..|s|] == s;
    SumNonNegative(WeightsOf(s));
  }

  /** The weighted median of the recent rows that survive the MAD filter. */
  function HistoricalMedian(history: seq<HistoryRow>, exp: real -> real): (r: Num)
    ensures r.NaN? <==> |history| == 0
    ensures r.Real? ==> exists i :: 0 <= i < |history| && i < MAX_HISTORY && history[i].ccxtPrice == r.r
  {
    var ws := RowWeights(RecentRows(history), exp);
    var kept := TrimOutliers(ws);
    if |ws| > 0 then
      TrimKeepsOne(ws);
      KeptMedianRow(history, exp);
      WeightedMedian(kept)
    else WeightedMedian(kept)
  }

  /** The weighted median of the kept rows is the price of one of the
      newest rows. */
  lemma KeptMedianRow(history: seq<HistoryRow>, exp: real -> real)
    requires |history| > 0
    ensures var kept := TrimOutliers(RowWeights(RecentRows(history), exp));
      WeightedMedian(kept).Real? ==>
        exists i :: 0 <= i < |history| && i < MAX_HISTORY && history[i].ccxtPrice == WeightedMedian(kept).r
  {
    var rows := RecentRows(history);
    var kept := TrimOutliers(RowWeights(rows, exp));
    var r := WeightedMedian(kept);
    if r.Real? {
      var k :| 0 <= k < |kept| && kept[k].price == r.r;
      assert kept[k] in RowWeights(rows, exp);
      var i := WeightedRow(rows, exp, kept[k]);
      assert history[i] == rows[i];
    }
  }

  /** Every weighted entry carries the price of one of the rows. */
  lemma WeightedRow(rows: seq<HistoryRow>, exp: real -> real, w: Weighted) returns (i: nat)
    requires w in RowWeights(rows, exp)
    ensures i < |rows| && rows[i].ccxtPrice == w.price
  {
    var ws := RowWeights(rows, exp);
    i :| 0 <= i < |ws| && ws[i] == w;
  }

  /** `Math.abs((adjusted - onchainLive) / adjusted) * 1e4 > THRESHOLD_BPS`.
      For `adjusted == 0` the quotient is infinite (the test holds) unless
      the on-chain price is 0 too, when it is NaN (the test fails). */
  function ExceedsThreshold(adjusted: real, onchain: real): (b: bool)
    ensures adjusted == 0.0 ==> (b <==> onchain != 0.0)
    ensures adjusted != 0.0 ==> (b <==> Abs(adjusted - onchain) * 10000.0 > THRESHOLD_BPS * Abs(adjusted))
  {
    if adjusted == 0.0 then onchain != 0.0
    else
      var q := (adjusted - onchain) / adjusted;
      AbsQuotient(adjusted - onchain, adjusted);
      Abs(q) * 10000.0 > THRESHOLD_BPS
  }

  lemma AbsQuotient(a: real, b: real)
    requires b != 0.0
    ensures Abs(a / b) * 10000.0 > THRESHOLD_BPS <==> Abs(a) * 10000.0 > THRESHOLD_BPS * Abs(b)
  {
    var q, bb := Abs(a / b), Abs(b);
    assert (a / b) * b == a;
    assert Abs((a / b) * b) == q * bb by {
      var c := a / b;
      if c < 0.0 && b < 0.0 {
        assert c * b == (-c) * (-b);
      } else if c < 0.0 {
        assert -(c * b) == (-c) * b;
      } else if b < 0.0 {
        assert -(c * b) == c * (-b);
      }
    }
    var x := q * 10000.0;
    var scaled := Abs(a) * 10000.0;
    assert scaled == x * bb;
    assert scaled - THRESHOLD_BPS * bb == (x - THRESHOLD_BPS) * bb;
  }

  /** The on-chain correction: a 75/25 blend with the on-chain price when
      the mix is more than 15 basis points away from it. */
  function Corrected(adjusted: real, onchain: real): real
  {
    if ExceedsThreshold(adjusted, onchain) then (1.0 - ONCHAIN_BLEND) * adjusted + ONCHAIN_BLEND * onchain
    else adjusted
  }

  /** The correction never moves the price away from the on-chain price,
      and a price it leaves alone (other than 0) is within 15 basis points. */
  lemma CorrectedTowardsOnchain(adjusted: real, onchain: real)
    ensures Abs(Corrected(adjusted, onchain) - onchain) <= Abs(adjusted - onchain)
    ensures ExceedsThreshold(adjusted, onchain) ==>
      Abs(Corrected(adjusted, onchain) - onchain) == (1.0 - ONCHAIN_BLEND) * Abs(adjusted - onchain)
    ensures !ExceedsThreshold(adjusted, onchain) && adjusted != 0.0 ==>
      Abs(adjusted - onchain) * 10000.0 <= THRESHOLD_BPS * Abs(adjusted)
  {
    var c := (1.0 - ONCHAIN_BLEND) * adjusted + ONCHAIN_BLEND * onchain;
    assert c - onchain == (1.0 - ONCHAIN_BLEND) * (adjusted - onchain);
  }

  /** `(Math.random() - 0.5) * JITTER_BPS * 1e-4 * adjusted`. */
  function Jitter(rand: real, adjusted: real): real
  {
    (rand - 0.5) * JITTER_BPS * 0.0001 * adjusted
  }

  /** For a draw in `[0, 1)` the jitter is at most half of 0.05 basis
      points of the price. */
  lemma JitterBound(rand: real, adjusted: real)
    requires 0.0 <= rand < 1.0
    ensures Abs(Jitter(rand, adjusted)) <= 0.5 * JITTER_BPS * 0.0001 * Abs(adjusted)
  {
    var m := JITTER_BPS * 0.0001 * adjusted;
    assert Jitter(rand, adjusted) == m * (rand - 0.5);
    AbsProduct(m, rand - 0.5, 0.5);
  }

  /** The price adjustment once the history median is known: the 60/40 mix
      of the live price and the median, corrected towards the on-chain
      price, plus its jitter. */
  function Adjust(ccxtLive: real, onchainLive: real, histMedian: real, rand: real): real
  {
    var c := Corrected(LIVE_SHARE * ccxtLive + (1.0 - LIVE_SHARE) * histMedian, onchainLive);
    c + Jitter(rand, c)
  }

  /** The adjusted price is within the mix's distance of the on-chain price,
      plus the jitter bound. */
  lemma AdjustNearOnchain(ccxtLive: real, onchainLive: real, histMedian: real, rand: real)
    requires 0.0 <= rand < 1.0
    ensures var mix := LIVE_SHARE * ccxtLive + (1.0 - LIVE_SHARE) * histMedian;
      var c := Corrected(mix, onchainLive);
      Abs(Adjust(ccxtLive, onchainLive, histMedian, rand) - onchainLive) <=
        Abs(mix - onchainLive) + 0.5 * JITTER_BPS * 0.0001 * Abs(c)
  {
    var mix := LIVE_SHARE * ccxtLive + (1.0 - LIVE_SHARE) * histMedian;
    var c := Corrected(mix, onchainLive);
    CorrectedTowardsOnchain(mix, onchainLive);
    JitterBound(rand, c);
  }

  /** `priceStrategie01(feed, ccxtLive, onchainLive, ..., history)` with
      `rand` the value of `Math.random()`: NaN exactly when there is no
      history (the weighted median of nothing), otherwise the adjustment of
      the live price by the history's weighted median. */
  function PriceStrategie01(ccxtLive: real, onchainLive: real, history: seq<HistoryRow>,
                            exp: real -> real, rand: real): (r: Num)
    ensures r.NaN? <==> |history| == 0
    ensures r.Real? ==> r.r == Adjust(ccxtLive, onchainLive, HistoricalMedian(history, exp).r, rand)
  {
    match HistoricalMedian(history, exp)
    case NaN => NaN
    case Real(histMedian) => Real(Adjust(ccxtLive, onchainLive, histMedian, rand))
  }
}
