/** Time-decay weighting of trades, the capped variant with per-exchange
    statistics, normalisation with price sorting, and the weighted mean with
    its standard deviation. `Math.exp` and `Math.sqrt` are parameters. */
module Weighting {
  import opened Common
  import opened Sorting
  import opened Market

  /** `Math.exp(-decayRate * (now - timestamp))`. */
  function Decay(exp: real -> real, decayRate: real, now: int, ts: int): real
  {
    exp(-decayRate * (now - ts) as real)
  }

  /** The range facts of `Math.exp` the weighting relies on: positive, and at
      most 1 for non-positive arguments. */
  ghost predicate ExpLike(exp: real -> real)
  {
    forall x :: 0.0 < exp(x) && (x <= 0.0 ==> exp(x) <= 1.0)
  }

  /** The range fact of `Math.sqrt` the deviation relies on: non-negative on
      non-negative arguments. */
  ghost predicate SqrtLike(sqrt: real -> real)
  {
    forall x :: x >= 0.0 ==> sqrt(x) >= 0.0
  }

  function DecayWeighted(exp: real -> real, decayRate: real, now: int): TradeInfo -> Weighted
  {
    (t: TradeInfo) => Weighted(t.price, t.amount * Decay(exp, decayRate, now, t.timestamp))
  }

  /** `applyDecayWeighting(trades, decayRate, now)`: one entry per trade, same
      order, same price, weight `amount * exp(-decayRate * age)`. */
  function ApplyDecayWeighting(trades: seq<TradeInfo>, decayRate: real, now: int, exp: real -> real): (r: seq<Weighted>)
    ensures |r| == |trades|
    ensures forall i :: 0 <= i < |trades| ==> r[i].price == trades[i].price
  {
    MapSeq(trades, DecayWeighted(exp, decayRate, now))
  }

  /** With a non-negative decay rate, no future trades and non-negative
      amounts, every decayed weight lies between 0 and the trade's amount. */
  lemma DecayWeightBounds(trades: seq<TradeInfo>, decayRate: real, now: int, exp: real -> real)
    requires ExpLike(exp) && decayRate >= 0.0
    requires forall i :: 0 <= i < |trades| ==> trades[i].timestamp <= now && trades[i].amount >= 0.0
    ensures var r := ApplyDecayWeighting(trades, decayRate, now, exp);
      forall i :: 0 <= i < |trades| ==> 0.0 <= r[i].weight <= trades[i].amount
  {
    var r := ApplyDecayWeighting(trades, decayRate, now, exp);
    forall i | 0 <= i < |trades|
      ensures 0.0 <= r[i].weight <= trades[i].amount
    {
      var t := trades[i];
      var d := Decay(exp, decayRate, now, t.timestamp);
      assert -decayRate * (now - t.timestamp) as real <= 0.0;
      assert 0.0 < d <= 1.0;
      assert r[i].weight == t.amount * d;
    }
  }

  // ---------------------------------------------------------------- capped weighting

  /** The weight of one trade: its USD notional capped at `maxTradeUsd`, decayed. */
  function CappedWeight(t: TradeInfo, decayRate: real, maxTradeUsd: real, now: int, exp: real -> real): real
  {
    var usd := t.amount * t.price;
    var capped := if usd < maxTradeUsd then usd else maxTradeUsd;
    capped * Decay(exp, decayRate, now, t.timestamp)
  }

  function CappedEntry(decayRate: real, maxTradeUsd: real, now: int, exp: real -> real): TradeInfo -> WeightedTrade
  {
    (t: TradeInfo) => WeightedTrade(t.price, CappedWeight(t, decayRate, maxTradeUsd, now, exp), t.exchange)
  }

  predicate PositiveWeight(w: WeightedTrade)
  {
    w.weight > 0.0
  }

  /** Per-exchange accumulated weight and trade count. */
  datatype ExchangeStat = ExchangeStat(weight: real, count: nat)

  /** Folds one weighted trade into the per-exchange statistics, creating
      the exchange entry `{ weight: 0, count: 0 }` on first sight. */
  function AddStat(stats: OMap<string, ExchangeStat>, w: WeightedTrade): OMap<string, ExchangeStat>
  {
    var cur := GetOr(stats, w.exchange, ExchangeStat(0.0, 0));
    Put(stats, w.exchange, ExchangeStat(cur.weight + w.weight, cur.count + 1))
  }

  function StatsOf(entries: seq<WeightedTrade>): (r: OMap<string, ExchangeStat>)
    ensures DistinctKeys(r)
    decreases |entries|
  {
    if |entries| == 0 then []
    else AddStat(StatsOf(entries[..|entries| - 1]), entries[|entries| - 1])
  }

  datatype CapResult = CapResult(weighted: seq<WeightedTrade>, exchangeStats: OMap<string, ExchangeStat>)

  /** `applyDecayWithCapAndStats`: `weighted` holds the trades of positive
      weight, in input order; the statistics see every trade. */
  function ApplyDecayWithCapAndStats(trades: seq<TradeInfo>, decayRate: real, maxTradeUsd: real, now: int, exp: real -> real): (r: CapResult)
    ensures |r.weighted| <= |trades|
    ensures forall i :: 0 <= i < |r.weighted| ==> r.weighted[i].weight > 0.0
    ensures forall i :: 0 <= i < |r.weighted| ==>
      exists j :: 0 <= j < |trades| && r.weighted[i] == CappedEntry(decayRate, maxTradeUsd, now, exp)(trades[j])
    ensures DistinctKeys(r.exchangeStats)
  {
    var all := MapSeq(trades, CappedEntry(decayRate, maxTradeUsd, now, exp));
    var weighted := Filter(all, PositiveWeight);
    assert forall i :: 0 <= i < |weighted| ==> weighted[i] in all;
    CapResult(weighted, StatsOf(all))
  }

  /** Every trade of positive capped weight is among the weighted entries. */
  lemma CappedKeepsPositive(trades: seq<TradeInfo>, decayRate: real, maxTradeUsd: real, now: int, exp: real -> real, i: nat)
    requires i < |trades| && CappedWeight(trades[i], decayRate, maxTradeUsd, now, exp) > 0.0
    ensures CappedEntry(decayRate, maxTradeUsd, now, exp)(trades[i]) in ApplyDecayWithCapAndStats(trades, decayRate, maxTradeUsd, now, exp).weighted
  {
    var all := MapSeq(trades, CappedEntry(decayRate, maxTradeUsd, now, exp));
    FilterKeeps(all, PositiveWeight, i);
  }

  /** With `exp` at most 1 for past trades and a non-negative cap, no weight
      exceeds the cap. */
  lemma CappedWeightAtMostCap(t: TradeInfo, decayRate: real, maxTradeUsd: real, now: int, exp: real -> real)
    requires ExpLike(exp) && decayRate >= 0.0 && maxTradeUsd >= 0.0 && t.timestamp <= now
    ensures CappedWeight(t, decayRate, maxTradeUsd, now, exp) <= maxTradeUsd
  {
    var usd := t.amount * t.price;
    var capped := if usd < maxTradeUsd then usd else maxTradeUsd;
    var d := Decay(exp, decayRate, now, t.timestamp);
    assert -decayRate * (now - t.timestamp) as real <= 0.0;
    assert 0.0 < d <= 1.0;
    if capped >= 0.0 {
      assert capped * (1.0 - d) >= 0.0;
    } else {
      assert capped * d <= 0.0;
    }
  }

  /** The sum of the per-exchange counts. */
  function TotalCount(stats: OMap<string, ExchangeStat>): nat
  {
    if |stats| == 0 then 0 else TotalCount(stats[..|stats| - 1]) + stats[|stats| - 1].1.count
  }

  lemma {:induction false} TotalCountAppend(a: OMap<string, ExchangeStat>, b: OMap<string, ExchangeStat>)
    ensures TotalCount(a + b) == TotalCount(a) + TotalCount(b)
    decreases |b|
  {
    if |b| == 0 {
      assert a + b == a;
    } else {
      assert (a + b)[..|a + b| - 1] == a + b[..|b| - 1];
      TotalCountAppend(a, b[..|b| - 1]);
    }
  }

  /** Replacing one entry's count changes the total by the difference. */
  lemma TotalCountUpdate(stats: OMap<string, ExchangeStat>, i: nat, e: (string, ExchangeStat))
    requires i < |stats|
    ensures TotalCount(stats[i := e]) + stats[i].1.count == TotalCount(stats) + e.1.count
  {
    var a, b := stats[..i], stats[i + 1..];
    assert stats == a + [stats[i]] + b;
    assert stats[i := e] == a + [e] + b;
    TotalCountAppend(a + [stats[i]], b);
    TotalCountAppend(a, [stats[i]]);
    TotalCountAppend(a + [e], b);
    TotalCountAppend(a, [e]);
    assert TotalCount([e]) == e.1.count by { assert [e][..0] == []; }
    assert TotalCount([stats[i]]) == stats[i].1.count by { assert [stats[i]][..0] == []; }
  }

  lemma AddStatCount(stats: OMap<string, ExchangeStat>, w: WeightedTrade)
    ensures TotalCount(AddStat(stats, w)) == TotalCount(stats) + 1
  {
    var cur := GetOr(stats, w.exchange, ExchangeStat(0.0, 0));
    var e := ExchangeStat(cur.weight + w.weight, cur.count + 1);
    match Find(stats, w.exchange)
    case Some(i) =>
      assert cur == stats[i].1;
      assert Put(stats, w.exchange, e) == stats[i := (w.exchange, e)];
      assert AddStat(stats, w) == stats[i := (w.exchange, e)];
      TotalCountUpdate(stats, i, (w.exchange, e));
    case None =>
      assert AddStat(stats, w) == stats + [(w.exchange, e)];
      TotalCountAppend(stats, [(w.exchange, e)]);
      assert TotalCount([(w.exchange, e)]) == 1 by { assert [(w.exchange, e)][..0] == []; }
  }

  /** Every trade is counted once, zero-weight trades included. */
  lemma {:induction false} StatsCountAll(entries: seq<WeightedTrade>)
    ensures TotalCount(StatsOf(entries)) == |entries|
    decreases |entries|
  {
    if |entries| > 0 {
      StatsCountAll(entries[..|entries| - 1]);
      AddStatCount(StatsOf(entries[..|entries| - 1]), entries[|entries| - 1]);
    }
  }

  lemma CapStatsCountAll(trades: seq<TradeInfo>, decayRate: real, maxTradeUsd: real, now: int, exp: real -> real)
    ensures TotalCount(ApplyDecayWithCapAndStats(trades, decayRate, maxTradeUsd, now, exp).exchangeStats) == |trades|
  {
    StatsCountAll(MapSeq(trades, CappedEntry(decayRate, maxTradeUsd, now, exp)));
  }

  /** The plain weighted prices of the capped output. */
  function Unlabel(w: WeightedTrade): Weighted
  {
    Weighted(w.price, w.weight)
  }

  // ---------------------------------------------------------------- normalisation

  function TotalWeight(ws: seq<Weighted>): real
  {
    Sum(WeightsOf(ws))
  }

  function Scale(total: real): Weighted -> Weighted
    requires total != 0.0
  {
    (w: Weighted) => Weighted(w.price, w.weight / total)
  }

  /** `normalizeAndSort(weighted)`: nothing when the weights sum to zero;
      otherwise every weight divided by the total and the entries sorted by
      ascending price (stably), so that the weights sum to 1. */
  function NormalizeAndSort(ws: seq<Weighted>): (r: seq<Weighted>)
    ensures TotalWeight(ws) == 0.0 ==> r == []
    ensures TotalWeight(ws) != 0.0 ==> |r| == |ws| && SortedBy(r, PriceOf) && TotalWeight(r) == 1.0
    ensures TotalWeight(ws) != 0.0 ==> multiset(Prices(r)) == multiset(Prices(ws))
  {
    var total := TotalWeight(ws);
    if total == 0.0 then []
    else
      NormalizedSorted(ws);
      SortBy(MapSeq(ws, Scale(total)), PriceOf)
  }

  /** The scaled, sorted entries have weights summing to 1 and the input's
      prices. */
  lemma NormalizedSorted(ws: seq<Weighted>)
    requires TotalWeight(ws) != 0.0
    ensures var r := SortBy(MapSeq(ws, Scale(TotalWeight(ws))), PriceOf);
      TotalWeight(r) == 1.0 && multiset(Prices(r)) == multiset(Prices(ws))
  {
    var total := TotalWeight(ws);
    var scaled := MapSeq(ws, Scale(total));
    var r := SortBy(scaled, PriceOf);
    SumScaled(WeightsOf(ws), total);
    assert WeightsOf(scaled) == MapSeq(WeightsOf(ws), (x: real) => x / total);
    MapPermutation(r, scaled, WeightOf);
    SumPermutation(WeightsOf(r), WeightsOf(scaled));
    assert TotalWeight(r) == total / total == 1.0;
    MapPermutation(r, scaled, PriceOf);
    assert Prices(scaled) == Prices(ws);
  }

  /** Dividing every term by `t` divides the sum by `t`. */
  lemma {:induction false} SumScaled(xs: seq<real>, t: real)
    requires t != 0.0
    ensures Sum(MapSeq(xs, (x: real) => x / t)) == Sum(xs) / t
    decreases |xs|
  {
    if |xs| > 0 {
      var init, last := xs[..|xs| - 1], xs[|xs| - 1];
      var ys := MapSeq(xs, (x: real) => x / t);
      SumScaled(init, t);
      assert ys[..|xs| - 1] == MapSeq(init, (x: real) => x / t);
      assert Sum(ys) == Sum(init) / t + last / t;
      assert Sum(xs) == Sum(init) + last;
      assert (Sum(init) + last) / t == Sum(init) / t + last / t;
    }
  }

  /** The zero-total test of `normalizeAndSort` can only succeed on an empty
      list when all weights are positive. */
  lemma PositiveWeightsNormalize(ws: seq<Weighted>)
    requires |ws| > 0
    requires forall i :: 0 <= i < |ws| ==> ws[i].weight > 0.0
    ensures TotalWeight(ws) > 0.0
    ensures |NormalizeAndSort(ws)| == |ws|
  {
    PositiveSum(WeightsOf(ws));
  }

  lemma {:induction false} PositiveSum(xs: seq<real>)
    requires |xs| > 0
    requires forall i :: 0 <= i < |xs| ==> xs[i] > 0.0
    ensures Sum(xs) > 0.0
    decreases |xs|
  {
    if |xs| > 1 {
      PositiveSum(xs[..|xs| - 1]);
    } else {
      assert xs[..0] == [];
    }
  }

  // ---------------------------------------------------------------- weighted mean and deviation

  function SquaredDeviation(avg: real): Weighted -> real
  {
    (w: Weighted) => w.weight * (w.price - avg) * (w.price - avg)
  }

  /** `Σ weight * (price - avg)^2`. */
  function Variance(ws: seq<Weighted>, avg: real): real
  {
    Sum(MapSeq(ws, SquaredDeviation(avg)))
  }

  datatype AvgStd = AvgStd(avg: real, stdDev: real)

  ghost predicate NonNegativeWeights(ws: seq<Weighted>)
  {
    forall i :: 0 <= i < |ws| ==> ws[i].weight >= 0.0
  }

  /** With non-negative weights every squared deviation is non-negative,
      and so is their sum. */
  lemma VarianceNonNegative(ws: seq<Weighted>, avg: real)
    ensures NonNegativeWeights(ws) ==> Variance(ws, avg) >= 0.0
  {
    if NonNegativeWeights(ws) {
      var d := MapSeq(ws, SquaredDeviation(avg));
      forall i | 0 <= i < |d| ensures d[i] >= 0.0 {
        var w := ws[i];
        assert d[i] == w.weight * ((w.price - avg) * (w.price - avg));
        assert (w.price - avg) * (w.price - avg) >= 0.0;
      }
      SumNonNegative(d);
    }
  }

  /** `computeWeightedAverageAndStdDev(entries)`: `avg = Σ price * weight`
      (the weights are expected to be normalised) and `stdDev` the square root
      of the weighted squared deviations from it. `StdDevNonNegative` and
      `WeightedAverageBounds` state what the two results mean. */
  function ComputeWeightedAverageAndStdDev(ws: seq<Weighted>, sqrt: real -> real): AvgStd
  {
    var avg := Sum(Products(ws));
    AvgStd(avg, sqrt(Variance(ws, avg)))
  }

  /** With non-negative weights and a square root that is non-negative on
      non-negative inputs, the deviation is non-negative. */
  lemma StdDevNonNegative(ws: seq<Weighted>, sqrt: real -> real)
    requires NonNegativeWeights(ws) && SqrtLike(sqrt)
    ensures ComputeWeightedAverageAndStdDev(ws, sqrt).stdDev >= 0.0
  {
    VarianceNonNegative(ws, Sum(Products(ws)));
  }

  /** `Σ price * weight` with non-negative weights lies between
      `lo * Σ weight` and `hi * Σ weight` when every price is in `[lo, hi]`. */
  lemma WeightedSumBounds(ws: seq<Weighted>, lo: real, hi: real)
    requires forall i :: 0 <= i < |ws| ==> ws[i].weight >= 0.0 && lo <= ws[i].price <= hi
    ensures lo * TotalWeight(ws) <= Sum(Products(ws)) <= hi * TotalWeight(ws)
  {
    WeightedSumLower(ws, lo);
    WeightedSumUpper(ws, hi);
  }

  lemma {:induction false} WeightedSumLower(ws: seq<Weighted>, lo: real)
    requires forall i :: 0 <= i < |ws| ==> ws[i].weight >= 0.0 && lo <= ws[i].price
    ensures lo * TotalWeight(ws) <= Sum(Products(ws))
    decreases |ws|
  {
    if |ws| > 0 {
      var init := ws[..|ws| - 1];
      var w := ws[|ws| - 1];
      forall i | 0 <= i < |init| ensures init[i].weight >= 0.0 && lo <= init[i].price {
        assert init[i] == ws[i];
      }
      WeightedSumLower(init, lo);
      var t, p := TotalWeight(init), Sum(Products(init));
      WeightedStep(ws);
      assert lo * (t + w.weight) <= p + w.price * w.weight by {
        assert (w.price - lo) * w.weight >= 0.0;
      }
    } else {
      assert Products(ws) == [] && WeightsOf(ws) == [];
    }
  }

  lemma {:induction false} WeightedSumUpper(ws: seq<Weighted>, hi: real)
    requires forall i :: 0 <= i < |ws| ==> ws[i].weight >= 0.0 && ws[i].price <= hi
    ensures Sum(Products(ws)) <= hi * TotalWeight(ws)
    decreases |ws|
  {
    if |ws| > 0 {
      var init := ws[..|ws| - 1];
      var w := ws[|ws| - 1];
      forall i | 0 <= i < |init| ensures init[i].weight >= 0.0 && init[i].price <= hi {
        assert init[i] == ws[i];
      }
      WeightedSumUpper(init, hi);
      var t, p := TotalWeight(init), Sum(Products(init));
      WeightedStep(ws);
      assert p + w.price * w.weight <= hi * (t + w.weight) by {
        assert (hi - w.price) * w.weight >= 0.0;
      }
    } else {
      assert Products(ws) == [] && WeightsOf(ws) == [];
    }
  }

  /** `Σ price·weight / Σ weight`: the price that, carrying the whole weight,
      balances the weighted prices. */
  function WeightedAverage(ws: seq<Weighted>): (r: real)
    requires TotalWeight(ws) != 0.0
    ensures r * TotalWeight(ws) == Sum(Products(ws))
  {
    var p, t := Sum(Products(ws)), TotalWeight(ws);
    assert (p / t) * t == p;
    p / t
  }

  /** The ratio `Σ price·weight / Σ weight` of non-negative weights lies
      between any bounds of the prices. */
  lemma RatioBounds(ws: seq<Weighted>, lo: real, hi: real)
    requires forall i :: 0 <= i < |ws| ==> ws[i].weight >= 0.0 && lo <= ws[i].price <= hi
    ensures TotalWeight(ws) >= 0.0
    ensures TotalWeight(ws) != 0.0 ==> lo <= Sum(Products(ws)) / TotalWeight(ws) <= hi
  {
    WeightedSumBounds(ws, lo, hi);
    SumNonNegative(WeightsOf(ws));
    var v, p := TotalWeight(ws), Sum(Products(ws));
    if v != 0.0 {
      DivideBounds(lo, hi, v, p);
    }
  }

  lemma DivideBounds(lo: real, hi: real, v: real, p: real)
    requires v > 0.0 && lo * v <= p <= hi * v
    ensures lo <= p / v <= hi
  {
    assert lo == lo * v / v && hi == hi * v / v;
  }

  lemma WeightedStep(ws: seq<Weighted>)
    requires |ws| > 0
    ensures TotalWeight(ws) == TotalWeight(ws[..|ws| - 1]) + ws[|ws| - 1].weight
    ensures Sum(Products(ws)) == Sum(Products(ws[..|ws| - 1])) + ws[|ws| - 1].price * ws[|ws| - 1].weight
  {
    assert Products(ws)[..|ws| - 1] == Products(ws[..|ws| - 1]);
    assert WeightsOf(ws)[..|ws| - 1] == WeightsOf(ws[..|ws| - 1]);
  }

  /** With normalised non-negative weights, the weighted mean lies between
      the lowest and highest price. */
  lemma WeightedAverageBounds(ws: seq<Weighted>, sqrt: real -> real, lo: real, hi: real)
    requires forall i :: 0 <= i < |ws| ==> ws[i].weight >= 0.0 && lo <= ws[i].price <= hi
    requires TotalWeight(ws) == 1.0
    ensures lo <= ComputeWeightedAverageAndStdDev(ws, sqrt).avg <= hi
  {
    WeightedSumBounds(ws, lo, hi);
  }
  /** Every normalised entry is an input entry with its weight divided by
      the total. */
  lemma NormalizedEntry(ws: seq<Weighted>, i: nat)
    requires TotalWeight(ws) != 0.0 && i < |NormalizeAndSort(ws)|
    ensures exists j :: 0 <= j < |ws| && NormalizeAndSort(ws)[i] == Weighted(ws[j].price, ws[j].weight / TotalWeight(ws))
  {
    var scaled := MapSeq(ws, Scale(TotalWeight(ws)));
    assert NormalizeAndSort(ws) == SortBy(scaled, PriceOf);
    assert NormalizeAndSort(ws)[i] in multiset(scaled);
  }

  /** Normalising non-negative weights keeps them non-negative, and every
      normalised price lies within any bounds of the input prices. */
  lemma NormalizedWithin(ws: seq<Weighted>, lo: real, hi: real)
    requires forall i :: 0 <= i < |ws| ==> ws[i].weight >= 0.0 && lo <= ws[i].price <= hi
    ensures var r := NormalizeAndSort(ws);
      forall i :: 0 <= i < |r| ==> r[i].weight >= 0.0 && lo <= r[i].price <= hi
  {
    SumNonNegative(WeightsOf(ws));
    var r := NormalizeAndSort(ws);
    forall i | 0 <= i < |r| ensures r[i].weight >= 0.0 && lo <= r[i].price <= hi {
      NormalizedEntryWithin(ws, lo, hi, i);
    }
  }

  lemma NormalizedEntryWithin(ws: seq<Weighted>, lo: real, hi: real, i: nat)
    requires forall i :: 0 <= i < |ws| ==> ws[i].weight >= 0.0 && lo <= ws[i].price <= hi
    requires TotalWeight(ws) > 0.0 && i < |NormalizeAndSort(ws)|
    ensures NormalizeAndSort(ws)[i].weight >= 0.0 && lo <= NormalizeAndSort(ws)[i].price <= hi
  {
    var total := TotalWeight(ws);
    NormalizedEntry(ws, i);
    var j :| 0 <= j < |ws| && NormalizeAndSort(ws)[i] == Weighted(ws[j].price, ws[j].weight / total);
    DivNonNegative(ws[j].weight, total);
  }

  lemma DivNonNegative(a: real, t: real)
    requires a >= 0.0 && t > 0.0
    ensures a / t >= 0.0
  {
  }

}
