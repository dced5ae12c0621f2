/** The strategies built on time-decayed trade weights: the default weighted
    median, the capped weighted VWAP, and the two "average minus a quarter
    standard deviation" strategies for thin and volatile markets. */
module WeightedStrategies {
  import opened Common
  import opened Market
  import opened Weighting
  import opened StrategyBase
  import Statistics

  /** The labels each strategy of this module can return. */
  const DEFAULT_NAMES: set<string> := {"Default", "Default-NoTrades", "Default-Gewichtung-0", "Default-Median-Error"}
  const WEIGHTED_VWAP_NAMES: set<string> := {"WeightedVWAP", "WeightedVWAP-NoTrades"}
  const LOW_TRADES_NAMES: set<string> := {"LowTrades", "LowTrades-NoTrades", "LowTrades-NoWeight"}
  const VOLATILITY_NAMES: set<string> := {"VolatilityWeighted", "VolatilityWeighted-NoTrades", "VolatilityWeighted-NoWeighted"}

  /** The trade windows of the four strategies, in milliseconds. */
  const DEFAULT_WINDOW_MS: int := 2 * 60000
  const WEIGHTED_VWAP_WINDOW_MS: int := 60000
  const LOW_TRADES_WINDOW_MS: int := 2 * 60000
  const VOLATILITY_WINDOW_MS: int := 2 * 60000

  /** A trade's capped weight is positive. */
  predicate Counts(env: Env, t: TradeInfo)
  {
    CappedWeight(t, env.decayRate, MAX_TRADE_USD, env.now, env.exp) > 0.0
  }

  /** The `weighted` output of `applyDecayWithCapAndStats`, as plain weighted
      prices: empty exactly when no trade has a positive capped weight, and
      every entry priced like some trade. */
  function CappedWeights(env: Env, trades: seq<TradeInfo>): (r: seq<Weighted>)
    ensures |r| <= |trades|
    ensures |r| == 0 <==> forall i :: 0 <= i < |trades| ==> !Counts(env, trades[i])
    ensures forall i :: 0 <= i < |r| ==> r[i].weight > 0.0
    ensures forall i :: 0 <= i < |r| ==> exists j :: 0 <= j < |trades| && r[i].price == trades[j].price
  {
    var cap := ApplyDecayWithCapAndStats(trades, env.decayRate, MAX_TRADE_USD, env.now, env.exp);
    FirstCappedCounts(env, trades);
    MapSeq(cap.weighted, Unlabel)
  }

  /** The capped output is empty exactly when no trade counts. */
  lemma FirstCappedCounts(env: Env, trades: seq<TradeInfo>)
    ensures var cap := ApplyDecayWithCapAndStats(trades, env.decayRate, MAX_TRADE_USD, env.now, env.exp);
      |cap.weighted| > 0 <==> exists j :: 0 <= j < |trades| && Counts(env, trades[j])
  {
    var cap := ApplyDecayWithCapAndStats(trades, env.decayRate, MAX_TRADE_USD, env.now, env.exp);
    if |cap.weighted| > 0 {
      var j :| 0 <= j < |trades| && cap.weighted[0] == CappedEntry(env.decayRate, MAX_TRADE_USD, env.now, env.exp)(trades[j]);
      assert Counts(env, trades[j]);
    }
    if j :| 0 <= j < |trades| && Counts(env, trades[j]) {
      CappedKeepsPositive(trades, env.decayRate, MAX_TRADE_USD, env.now, env.exp, j);
    }
  }

  /** The sum of positive weights is zero only for no weights at all. */
  lemma CappedTotalZero(env: Env, trades: seq<TradeInfo>)
    ensures TotalWeight(CappedWeights(env, trades)) == 0.0 <==> |CappedWeights(env, trades)| == 0
  {
    var ws := CappedWeights(env, trades);
    if |ws| > 0 {
      PositiveSum(WeightsOf(ws));
    }
  }

  // ---------------------------------------------------------------- default

  /** The weighted median of the normalised capped weights. It is undefined
      exactly when no trade counts, and otherwise it is the price of a trade
      that counts, so the source's "Default-Median-Error" branch is only
      reached when the weights were already zero. */
  function DefaultMedian(env: Env, trades: seq<TradeInfo>): (m: Option<real>)
    ensures m.None? <==> |CappedWeights(env, trades)| == 0
    ensures m.Some? ==> exists j :: 0 <= j < |trades| && Counts(env, trades[j]) && trades[j].price == m.value
  {
    CappedTotalZero(env, trades);
    DefaultMedianFromTrades(env, trades);
    Statistics.GetWeightedMedian(NormalizeAndSort(CappedWeights(env, trades)))
  }

  /** The weighted median of the normalised capped weights, when there is
      one, is the price of a trade that counts. */
  lemma DefaultMedianFromTrades(env: Env, trades: seq<TradeInfo>)
    ensures var m := Statistics.GetWeightedMedian(NormalizeAndSort(CappedWeights(env, trades)));
      m.Some? ==> exists j :: 0 <= j < |trades| && Counts(env, trades[j]) && trades[j].price == m.value
  {
    var ws := CappedWeights(env, trades);
    var s := NormalizeAndSort(ws);
    var m := Statistics.GetWeightedMedian(s);
    if m.Some? {
      CappedTotalZero(env, trades);
      var i :| 0 <= i < |s| && s[i].price == m.value;
      NormalizedEntry(ws, i);
      var k :| 0 <= k < |ws| && s[i] == Weighted(ws[k].price, ws[k].weight / TotalWeight(ws));
      var cap := ApplyDecayWithCapAndStats(trades, env.decayRate, MAX_TRADE_USD, env.now, env.exp);
      var j :| 0 <= j < |trades| && cap.weighted[k] == CappedEntry(env.decayRate, MAX_TRADE_USD, env.now, env.exp)(trades[j]);
      assert Counts(env, trades[j]);
    }
  }

  /** The meta fields of a "Default" price: the total capped weight, the
      trade count, the decay rate, the fallback and the price's distance from
      the fallback. */
  function DefaultMeta(total: real, count: nat, decayRate: real, fallback: real, price: real): (r: seq<Num>)
    ensures |r| == 5 && r[1] == Real(count as real) && r[3] == Real(fallback)
    ensures r[4].Real? && r[4].r >= 0.0 && (r[4].r == 0.0 <==> price == fallback)
  {
    [Real(total), Real(count as real), Real(decayRate), Real(fallback), Real(Abs(price - fallback))]
  }

  /** `strategyDefault` on the trades it fetched: the weighted median of the
      capped, decayed trades; `fallback` when there are no trades or no
      positive weight. */
  function DefaultPrice(env: Env, trades: seq<TradeInfo>, fallback: real, onchain: real): (r: StrategyResult)
    ensures r.onchain == onchain
    ensures r.name == "Default-NoTrades" || r.name == "Default-Gewichtung-0" || r.name == "Default"
    ensures |trades| == 0 ==> r == FallbackResult(fallback, onchain, [0.0, 0.0, env.decayRate], "Default-NoTrades")
    ensures |trades| > 0 && |CappedWeights(env, trades)| == 0 ==>
      r == FallbackResult(fallback, onchain, [0.0, 0.0, env.decayRate], "Default-Gewichtung-0")
    ensures |CappedWeights(env, trades)| > 0 ==>
      r.name == "Default" && r.value.Real? && r.ccxt == Some(r.value) &&
      r.meta == DefaultMeta(TotalWeight(CappedWeights(env, trades)), |trades|, env.decayRate, fallback, r.value.r) &&
      exists j :: 0 <= j < |trades| && Counts(env, trades[j]) && trades[j].price == r.value.r
  {
    if |trades| == 0 then FallbackResult(fallback, onchain, [0.0, 0.0, env.decayRate], "Default-NoTrades")
    else
      var ws := CappedWeights(env, trades);
      var total := TotalWeight(ws);
      CappedTotalZero(env, trades);
      if total == 0.0 then FallbackResult(fallback, onchain, [0.0, 0.0, env.decayRate], "Default-Gewichtung-0")
      else
        match DefaultMedian(env, trades)
        case Some(m) => Plain(m, onchain, DefaultMeta(total, |trades|, env.decayRate, fallback, m), "Default")
        case None =>
          assert false;
          FallbackResult(fallback, onchain, [0.0, |trades| as real, env.decayRate], "Default-Median-Error")
  }

  /** `strategyDefault(feed, onchainPrice, lastFtsoPrice, lastUSDTFtsoPrice)`:
      the trades of the last two minutes and the on-chain-first fallback. A
      "Default" price is the price of one of those trades. */
  function StrategyDefault(env: Env, feed: FeedId, onchain: real, lastFtso: Option<real>, lastUsdtFtso: Option<real>): (r: StrategyResult)
    ensures r.onchain == onchain
    ensures r.name in DEFAULT_NAMES
    ensures r.name != "Default" ==> r.value == Real(OnchainFirst(onchain, lastFtso))
    ensures r.name == "Default" ==>
      var trades := TradeList(env, feed.name, DEFAULT_WINDOW_MS, lastUsdtFtso);
      r.value.Real? && |trades| > 0 && Min(TradePrices(trades)) <= r.value.r <= Max(TradePrices(trades)) &&
      exists t :: t in trades && t.price == r.value.r && env.now - t.timestamp < DEFAULT_WINDOW_MS
  {
    var trades := TradeList(env, feed.name, DEFAULT_WINDOW_MS, lastUsdtFtso);
    var r := DefaultPrice(env, trades, OnchainFirst(onchain, lastFtso), onchain);
    TradeListFresh(env, feed.name, DEFAULT_WINDOW_MS, lastUsdtFtso);
    DefaultWithinTrades(env, trades, r);
    r
  }

  lemma DefaultWithinTrades(env: Env, trades: seq<TradeInfo>, r: StrategyResult)
    requires r.name == "Default" ==> r.value.Real? && exists j :: 0 <= j < |trades| && Counts(env, trades[j]) && trades[j].price == r.value.r
    ensures r.name == "Default" ==>
      |trades| > 0 && Min(TradePrices(trades)) <= r.value.r <= Max(TradePrices(trades)) && exists t :: t in trades && t.price == r.value.r
  {
    if r.name == "Default" {
      var j :| 0 <= j < |trades| && trades[j].price == r.value.r;
      assert TradePrices(trades)[j] == r.value.r;
    }
  }

  // ---------------------------------------------------------------- weighted VWAP

  /** `strategyWeightedVWAP` on the trades it fetched: the capped-weight
      average price. Without trades `fallback` is labelled
      "WeightedVWAP-NoTrades"; without positive weight it is returned under
      the strategy's own name. */
  function WeightedVwapPrice(env: Env, trades: seq<TradeInfo>, fallback: real, onchain: real): (r: StrategyResult)
    ensures r.onchain == onchain
    ensures |trades| == 0 ==> r == FallbackResult(fallback, onchain, [0.0, 0.0, 0.0], "WeightedVWAP-NoTrades")
    ensures |trades| > 0 && |CappedWeights(env, trades)| == 0 ==>
      r == FallbackResult(fallback, onchain, [0.0, 0.0, 0.0], "WeightedVWAP")
    ensures |CappedWeights(env, trades)| > 0 ==>
      r.name == "WeightedVWAP" && r.value.Real? && r.ccxt == Some(r.value) &&
      r.meta == [r.value, Real(TotalWeight(CappedWeights(env, trades))), Real(|trades| as real)] &&
      TotalWeight(CappedWeights(env, trades)) != 0.0 && r.value.r == WeightedAverage(CappedWeights(env, trades))
  {
    if |trades| == 0 then FallbackResult(fallback, onchain, [0.0, 0.0, 0.0], "WeightedVWAP-NoTrades")
    else
      var ws := CappedWeights(env, trades);
      var total := TotalWeight(ws);
      CappedTotalZero(env, trades);
      if total == 0.0 then FallbackResult(fallback, onchain, [0.0, 0.0, 0.0], "WeightedVWAP")
      else
        var avg := WeightedAverage(ws);
        Plain(avg, onchain, [Real(avg), Real(total), Real(|trades| as real)], "WeightedVWAP")
  }

  /** The weighted VWAP lies between the lowest and the highest trade price. */
  lemma WeightedVwapWithinTrades(env: Env, trades: seq<TradeInfo>, fallback: real, onchain: real)
    ensures |CappedWeights(env, trades)| > 0 ==>
      Min(TradePrices(trades)) <= WeightedVwapPrice(env, trades, fallback, onchain).value.r <= Max(TradePrices(trades))
  {
    var ws := CappedWeights(env, trades);
    if |ws| > 0 {
      var lo, hi := Min(TradePrices(trades)), Max(TradePrices(trades));
      forall i | 0 <= i < |ws| ensures ws[i].weight >= 0.0 && lo <= ws[i].price <= hi {
        var j :| 0 <= j < |trades| && ws[i].price == trades[j].price;
        assert TradePrices(trades)[j] == ws[i].price;
      }
      CappedTotalZero(env, trades);
      RatioBounds(ws, lo, hi);
      assert WeightedAverage(ws) == Sum(Products(ws)) / TotalWeight(ws);
    }
  }

  /** `strategyWeightedVWAP(...)`: the last minute's trades and the
      on-chain-first fallback. */
  function StrategyWeightedVwap(env: Env, feed: FeedId, onchain: real, lastFtso: Option<real>, lastUsdtFtso: Option<real>): (r: StrategyResult)
    ensures r.onchain == onchain
    ensures r.name in WEIGHTED_VWAP_NAMES
    ensures var trades := TradeList(env, feed.name, WEIGHTED_VWAP_WINDOW_MS, lastUsdtFtso);
      |CappedWeights(env, trades)| == 0 ==> r.value == Real(OnchainFirst(onchain, lastFtso))
    ensures var trades := TradeList(env, feed.name, WEIGHTED_VWAP_WINDOW_MS, lastUsdtFtso);
      |CappedWeights(env, trades)| > 0 ==>
        r.value.Real? && Min(TradePrices(trades)) <= r.value.r <= Max(TradePrices(trades))
  {
    var trades := TradeList(env, feed.name, WEIGHTED_VWAP_WINDOW_MS, lastUsdtFtso);
    var fallback := OnchainFirst(onchain, lastFtso);
    WeightedVwapWithinTrades(env, trades, fallback, onchain);
    WeightedVwapPrice(env, trades, fallback, onchain)
  }

  // ---------------------------------------------------------------- average minus deviation

  /** The decayed, normalised trades' weighted mean and deviation, or `None`
      when `normalizeAndSort` returns nothing. */
  function DecayedStats(env: Env, trades: seq<TradeInfo>): (r: Option<AvgStd>)
    ensures r.None? <==> TotalWeight(ApplyDecayWeighting(trades, env.decayRate, env.now, env.exp)) == 0.0
  {
    var normalized := NormalizeAndSort(ApplyDecayWeighting(trades, env.decayRate, env.now, env.exp));
    if |normalized| == 0 then None
    else Some(ComputeWeightedAverageAndStdDev(normalized, env.sqrt))
  }

  /** What `Math.exp` and `Math.sqrt` guarantee and the stored trades are
      expected to satisfy: positive decay at most 1 for the past, square
      roots of non-negative numbers non-negative, a non-negative decay rate,
      and trades with non-negative amounts and no future timestamps. */
  ghost predicate Sane(env: Env, trades: seq<TradeInfo>)
  {
    ExpLike(env.exp) && env.decayRate >= 0.0 &&
    (forall x :: x >= 0.0 ==> env.sqrt(x) >= 0.0) &&
    forall i :: 0 <= i < |trades| ==> trades[i].amount >= 0.0 && trades[i].timestamp <= env.now
  }

  /** The decayed mean lies between the lowest and highest trade price and
      the deviation is non-negative. */
  lemma DecayedStatsBounds(env: Env, trades: seq<TradeInfo>)
    requires Sane(env, trades)
    ensures DecayedStats(env, trades).Some? ==>
      |trades| > 0 &&
      Min(TradePrices(trades)) <= DecayedStats(env, trades).value.avg <= Max(TradePrices(trades)) &&
      DecayedStats(env, trades).value.stdDev >= 0.0
  {
    var ws := ApplyDecayWeighting(trades, env.decayRate, env.now, env.exp);
    var normalized := NormalizeAndSort(ws);
    if |normalized| > 0 {
      var lo, hi := Min(TradePrices(trades)), Max(TradePrices(trades));
      DecayWeightBounds(trades, env.decayRate, env.now, env.exp);
      forall i | 0 <= i < |ws| ensures ws[i].weight >= 0.0 && lo <= ws[i].price <= hi {
        assert TradePrices(trades)[i] == ws[i].price;
      }
      NormalizedWithin(ws, lo, hi);
      WeightedAverageBounds(normalized, env.sqrt, lo, hi);
      StdDevNonNegative(normalized, env.sqrt);
    }
  }

  /** `avg - 0.25 * stdDev`. */
  function Adjusted(s: AvgStd): real
  {
    s.avg - 0.25 * s.stdDev
  }

  /** `strategyLowTrades` on the trades it fetched: the decayed mean minus a
      quarter of the deviation, with the mean as ccxt price; `fallback` when
      there are no trades or no weight. */
  function LowTradesPrice(env: Env, trades: seq<TradeInfo>, fallback: real, onchain: real): (r: StrategyResult)
    ensures r.onchain == onchain
    ensures |trades| == 0 ==> r == FallbackResult(fallback, onchain, [0.0, 0.0], "LowTrades-NoTrades")
    ensures |trades| > 0 && DecayedStats(env, trades).None? ==>
      r == FallbackResult(fallback, onchain, [0.0, 0.0], "LowTrades-NoWeight")
    ensures |trades| > 0 && DecayedStats(env, trades).Some? ==>
      var s := DecayedStats(env, trades).value;
      r.name == "LowTrades" && r.value == Real(s.avg - 0.25 * s.stdDev) && r.ccxt == Some(Real(s.avg)) &&
      r.meta == Nums([s.stdDev, |trades| as real])
  {
    if |trades| == 0 then FallbackResult(fallback, onchain, [0.0, 0.0], "LowTrades-NoTrades")
    else
      match DecayedStats(env, trades)
      case None => FallbackResult(fallback, onchain, [0.0, 0.0], "LowTrades-NoWeight")
      case Some(s) =>
        StrategyResult(Real(Adjusted(s)), Some(Real(s.avg)), onchain, Nums([s.stdDev, |trades| as real]), "LowTrades")
  }

  /** `strategyVolatilityWeighted` on the trades it fetched: the same price
      as the low-trades strategy, with its own labels and meta fields. */
  function VolatilityPrice(env: Env, trades: seq<TradeInfo>, fallback: real, onchain: real): (r: StrategyResult)
    ensures r.onchain == onchain
    ensures |trades| == 0 ==>
      r == FallbackResult(fallback, onchain, [0.0, 0.0, 0.0], "VolatilityWeighted-NoTrades")
    ensures |trades| > 0 && DecayedStats(env, trades).None? ==>
      r == FallbackResult(fallback, onchain, [0.0, 0.0, 0.0], "VolatilityWeighted-NoWeighted")
    ensures |trades| > 0 && DecayedStats(env, trades).Some? ==>
      var s := DecayedStats(env, trades).value;
      r.name == "VolatilityWeighted" && r.value == Real(s.avg - 0.25 * s.stdDev) && r.ccxt == Some(Real(s.avg)) &&
      r.meta == [Real(s.avg), Real(s.stdDev), r.value]
  {
    if |trades| == 0 then FallbackResult(fallback, onchain, [0.0, 0.0, 0.0], "VolatilityWeighted-NoTrades")
    else
      match DecayedStats(env, trades)
      case None => FallbackResult(fallback, onchain, [0.0, 0.0, 0.0], "VolatilityWeighted-NoWeighted")
      case Some(s) =>
        var adjusted := Adjusted(s);
        assert Nums([s.avg, s.stdDev, adjusted]) == [Real(s.avg), Real(s.stdDev), Real(adjusted)];
        StrategyResult(Real(adjusted), Some(Real(s.avg)), onchain, Nums([s.avg, s.stdDev, adjusted]), "VolatilityWeighted")
  }

  /** For sane trades, the low-trades price never exceeds its ccxt mean, and
      that mean lies between the lowest and highest trade price. */
  lemma LowTradesBelowMean(env: Env, trades: seq<TradeInfo>, fallback: real, onchain: real)
    requires Sane(env, trades)
    ensures var r := LowTradesPrice(env, trades, fallback, onchain);
      r.name == "LowTrades" ==>
        r.value.r <= r.ccxt.value.r && Min(TradePrices(trades)) <= r.ccxt.value.r <= Max(TradePrices(trades))
  {
    DecayedStatsBounds(env, trades);
  }

  /** `strategyLowTrades(...)`: the last two minutes' trades and the
      FTSO-first fallback. */
  function StrategyLowTrades(env: Env, feed: FeedId, onchain: real, lastFtso: Option<real>, lastUsdtFtso: Option<real>): (r: StrategyResult)
    ensures r.onchain == onchain
    ensures r.name in LOW_TRADES_NAMES
    ensures r.name != "LowTrades" ==> r.value == Real(FtsoFirst(onchain, lastFtso))
  {
    LowTradesPrice(env, TradeList(env, feed.name, LOW_TRADES_WINDOW_MS, lastUsdtFtso), FtsoFirst(onchain, lastFtso), onchain)
  }

  /** `strategyVolatilityWeighted(...)`: the last two minutes' trades and the
      on-chain-first fallback. */
  function StrategyVolatility(env: Env, feed: FeedId, onchain: real, lastFtso: Option<real>, lastUsdtFtso: Option<real>): (r: StrategyResult)
    ensures r.onchain == onchain
    ensures r.name in VOLATILITY_NAMES
    ensures r.name != "VolatilityWeighted" ==> r.value == Real(OnchainFirst(onchain, lastFtso))
  {
    VolatilityPrice(env, TradeList(env, feed.name, VOLATILITY_WINDOW_MS, lastUsdtFtso), OnchainFirst(onchain, lastFtso), onchain)
  }

  /** Both strategies read the same trades and compute the same price; they
      differ only in their labels, their meta fields and the order of their
      fallback chain, which matters only when both an on-chain and a last
      FTSO price are set. */
  lemma LowTradesMatchesVolatility(env: Env, feed: FeedId, onchain: real, lastFtso: Option<real>, lastUsdtFtso: Option<real>)
    ensures var low := StrategyLowTrades(env, feed, onchain, lastFtso, lastUsdtFtso);
      var vol := StrategyVolatility(env, feed, onchain, lastFtso, lastUsdtFtso);
      (low.name == "LowTrades" <==> vol.name == "VolatilityWeighted") &&
      (low.name == "LowTrades" ==> low.value == vol.value && low.ccxt == vol.ccxt) &&
      (low.value != vol.value ==> onchain != 0.0 && lastFtso.Some? && lastFtso.value != 0.0)
  {
    var trades := TradeList(env, feed.name, LOW_TRADES_WINDOW_MS, lastUsdtFtso);
    assert TradeList(env, feed.name, VOLATILITY_WINDOW_MS, lastUsdtFtso) == trades;
    FallbackChains(onchain, lastFtso);
  }
}
