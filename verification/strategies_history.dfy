/** The strategies that lean on the last FTSO prices or mix several
    estimates: the last epoch price for stablecoins, the on-chain-weighted
    blend for SGB, the trend momentum nudge and the smart blend. History rows
    come newest first, as the price database returns them. */
module HistoryStrategies {
  import opened Common
  import opened Market
  import opened StrategyBase
  import Statistics
  import Vwap

  /** The labels each strategy of this module can return. */
  const BJ_SGB_NAMES: set<string> := {"BjSgb", "BjSgb-NoTrades"}
  const TREND_MOMENTUM_NAMES: set<string> := {"TrendMomentum", "TrendMomentum-NoTrades"}
  const SMART_BLEND_NAMES: set<string> := {"SmartBlend", "SmartBlend-NoTrades"}

  /** The trade windows, in milliseconds. */
  const BJ_SGB_WINDOW_MS: int := 5 * 60000
  const SMART_BLEND_WINDOW_MS: int := 60000

  /** How many history rows the momentum and blend strategies ask for. */
  const HISTORY_ROWS: nat := 5

  /** The momentum factors for a rising and a falling FTSO price. */
  const BIAS_UP: real := 1.001
  const BIAS_DOWN: real := 0.999

  // ---------------------------------------------------------------- last epoch price

  /** `strategyLastEpochPrice(feed, onchainPrice, lastFtsoPrice)`: the last
      FTSO price, else the on-chain price, else 0.01, also as ccxt. */
  function LastEpochPrice(onchain: real, lastFtso: Option<real>): (r: StrategyResult)
    ensures r.onchain == onchain && r.name == "LastEpochPrice"
    ensures r.ccxt == Some(r.value)
    ensures lastFtso.Some? && lastFtso.value != 0.0 ==> r.value == Real(lastFtso.value)
    ensures (lastFtso.None? || lastFtso.value == 0.0) && onchain != 0.0 ==> r.value == Real(onchain)
    ensures (lastFtso.None? || lastFtso.value == 0.0) && onchain == 0.0 ==> r.value == Real(DEFAULT_PRICE)
    ensures r.meta == [Real(0.0), Real(if lastFtso.Some? then lastFtso.value else 0.0)]
  {
    var fallback := OrElse(onchain, DEFAULT_PRICE);
    var price := OptOrElse(lastFtso, fallback);
    StrategyResult(Real(price), Some(Real(price)), onchain,
      [Real(0.0), Real(if lastFtso.Some? then lastFtso.value else 0.0)], "LastEpochPrice")
  }

  /** The last epoch price is the FTSO-first fallback chain, so it is
      positive for non-negative inputs. */
  lemma LastEpochIsFtsoFirst(onchain: real, lastFtso: Option<real>)
    ensures LastEpochPrice(onchain, lastFtso).value == Real(FtsoFirst(onchain, lastFtso))
    ensures onchain >= 0.0 && (lastFtso.None? || lastFtso.value >= 0.0) ==>
      LastEpochPrice(onchain, lastFtso).value.r > 0.0
  {
    FallbackChains(onchain, lastFtso);
  }

  // ---------------------------------------------------------------- BjSgb

  /** `(avg + k * onchain + avg) / (k + 2)`: the trade average counted twice
      against `k` on-chain votes. */
  function Combo(avg: real, onchain: real, k: nat): real
  {
    (avg + k as real * onchain + avg) / (k as real + 2.0)
  }

  /** `combo4 || combo3 || combo2 || combo1 || averageTrades`. */
  function BjSgbAdjusted(avg: real, onchain: real): real
  {
    OrElse(Combo(avg, onchain, 4), OrElse(Combo(avg, onchain, 3), OrElse(Combo(avg, onchain, 2),
      OrElse(Combo(avg, onchain, 1), avg))))
  }

  /** Every combination lies between the trade average and the on-chain
      price. */
  lemma ComboBetween(avg: real, onchain: real, k: nat)
    ensures var c := Combo(avg, onchain, k);
      (avg <= onchain ==> avg <= c <= onchain) && (onchain <= avg ==> onchain <= c <= avg)
  {
    var w := k as real + 2.0;
    var c := Combo(avg, onchain, k);
    assert c * w == 2.0 * avg + k as real * onchain;
    if avg <= onchain {
      assert avg * w <= c * w <= onchain * w;
    } else {
      assert onchain * w <= c * w <= avg * w;
    }
  }

  /** The adjusted price lies between the trade average and the on-chain
      price, whichever link of the chain supplies it. */
  lemma BjSgbBetween(avg: real, onchain: real)
    ensures var a := BjSgbAdjusted(avg, onchain);
      (avg <= onchain ==> avg <= a <= onchain) && (onchain <= avg ==> onchain <= a <= avg)
  {
    ComboBetween(avg, onchain, 1);
    ComboBetween(avg, onchain, 2);
    ComboBetween(avg, onchain, 3);
    ComboBetween(avg, onchain, 4);
  }

  /** For non-negative prices the chain never moves past `combo4`: it is 0
      only when both prices are, and then every link is 0 too. */
  lemma BjSgbIsCombo4(avg: real, onchain: real)
    requires avg >= 0.0 && onchain >= 0.0
    ensures BjSgbAdjusted(avg, onchain) == Combo(avg, onchain, 4)
    ensures BjSgbAdjusted(avg, onchain) == 0.0 <==> avg == 0.0 && onchain == 0.0
  {
    var c4 := Combo(avg, onchain, 4);
    assert c4 * 6.0 == 2.0 * avg + 4.0 * onchain;
  }

  /** `strategyBjSgb` on the trades it fetched: the adjusted blend of the
      mean trade price and the on-chain price, with the mean as ccxt price;
      `fallback` without trades. The meta fields are the trade count, the
      rounded distance from the on-chain price and the first three
      combinations. */
  function BjSgbPrice(trades: seq<TradeInfo>, fallback: real, onchain: real, toFixed8: real -> real): (r: StrategyResult)
    ensures r.onchain == onchain
    ensures |trades| == 0 ==> r == FallbackResult(fallback, onchain, [0.0, 0.0], "BjSgb-NoTrades")
    ensures |trades| > 0 ==>
      var avg := Mean(TradePrices(trades));
      var adjusted := BjSgbAdjusted(avg, onchain);
      r.name == "BjSgb" && r.value == Real(adjusted) && r.ccxt == Some(Real(avg)) &&
      r.meta == Nums([|trades| as real, toFixed8(adjusted - onchain),
                      Combo(avg, onchain, 1), Combo(avg, onchain, 2), Combo(avg, onchain, 3)])
  {
    if |trades| == 0 then FallbackResult(fallback, onchain, [0.0, 0.0], "BjSgb-NoTrades")
    else
      var avg := Mean(TradePrices(trades));
      var adjusted := BjSgbAdjusted(avg, onchain);
      StrategyResult(Real(adjusted), Some(Real(avg)), onchain,
        Nums([|trades| as real, toFixed8(adjusted - onchain),
              Combo(avg, onchain, 1), Combo(avg, onchain, 2), Combo(avg, onchain, 3)]), "BjSgb")
  }

  /** The BjSgb price lies between the on-chain price and the mean trade
      price, and the mean lies between the lowest and highest trade price. */
  lemma BjSgbWithinInputs(trades: seq<TradeInfo>, fallback: real, onchain: real, toFixed8: real -> real)
    requires |trades| > 0
    ensures var r := BjSgbPrice(trades, fallback, onchain, toFixed8);
      var avg := r.ccxt.value.r;
      Min(TradePrices(trades)) <= avg <= Max(TradePrices(trades)) &&
      (avg <= onchain ==> avg <= r.value.r <= onchain) && (onchain <= avg ==> onchain <= r.value.r <= avg)
  {
    var prices := TradePrices(trades);
    MeanBounds(prices, Min(prices), Max(prices));
    BjSgbBetween(Mean(prices), onchain);
  }

  /** `strategyBjSgb(...)`: the last five minutes' trades and the
      on-chain-first fallback. */
  function StrategyBjSgb(env: Env, feed: FeedId, onchain: real, lastFtso: Option<real>, lastUsdtFtso: Option<real>): (r: StrategyResult)
    ensures r.onchain == onchain
    ensures r.name in BJ_SGB_NAMES
    ensures r.name != "BjSgb" ==> r.value == Real(OnchainFirst(onchain, lastFtso))
  {
    BjSgbPrice(TradeList(env, feed.name, BJ_SGB_WINDOW_MS, lastUsdtFtso), OnchainFirst(onchain, lastFtso), onchain, env.toFixed8)
  }

  // ---------------------------------------------------------------- trend momentum

  /** `trend > 0 ? 1.001 : trend < 0 ? 0.999 : 1`. */
  function MomentumBias(trend: real): (b: real)
    ensures trend > 0.0 <==> b == BIAS_UP
    ensures trend < 0.0 <==> b == BIAS_DOWN
    ensures trend == 0.0 <==> b == 1.0
  {
    if trend > 0.0 then BIAS_UP else if trend < 0.0 then BIAS_DOWN else 1.0
  }

  /** `strategyTrendMomentum` on the last rows of the feed's history: with
      five rows, the on-chain price nudged a tenth of a percent in the
      direction the FTSO price moved from the fifth-newest to the newest
      row; with fewer, `fallback`. */
  function TrendMomentumPrice(history: seq<HistoryRow>, fallback: real, onchain: real): (r: StrategyResult)
    ensures r.onchain == onchain
    ensures |history| < HISTORY_ROWS ==>
      r == FallbackResult(fallback, onchain, [0.0, 1.0, |history| as real], "TrendMomentum-NoTrades")
    ensures |history| >= HISTORY_ROWS ==>
      var trend := history[0].ftsoPrice - history[4].ftsoPrice;
      r.name == "TrendMomentum" && r.value.Real? && r.ccxt == Some(r.value) &&
      r.meta == Nums([trend, MomentumBias(trend), |history| as real]) &&
      r.value.r == onchain * MomentumBias(trend)
  {
    if |history| < HISTORY_ROWS then
      FallbackResult(fallback, onchain, [0.0, 1.0, |history| as real], "TrendMomentum-NoTrades")
    else
      var trend := history[0].ftsoPrice - history[4].ftsoPrice;
      var bias := MomentumBias(trend);
      Plain(onchain * bias, onchain, Nums([trend, bias, |history| as real]), "TrendMomentum")
  }

  /** The momentum price stays within a tenth of a percent of the on-chain
      price, and for a positive on-chain price moves with the trend. */
  lemma TrendMomentumNudge(history: seq<HistoryRow>, fallback: real, onchain: real)
    requires |history| >= HISTORY_ROWS
    ensures var v := TrendMomentumPrice(history, fallback, onchain).value.r;
      var trend := history[0].ftsoPrice - history[4].ftsoPrice;
      Abs(v - onchain) <= 0.001 * Abs(onchain) &&
      (onchain > 0.0 ==> (trend > 0.0 <==> v > onchain) && (trend < 0.0 <==> v < onchain))
  {
    var trend := history[0].ftsoPrice - history[4].ftsoPrice;
    var b := MomentumBias(trend);
    var v := onchain * b;
    assert v - onchain == onchain * (b - 1.0);
    assert -0.001 <= b - 1.0 <= 0.001;
    if onchain >= 0.0 {
      assert onchain * (b - 1.0) <= onchain * 0.001;
      assert -(onchain * 0.001) <= onchain * (b - 1.0);
    } else {
      assert onchain * (b - 1.0) <= -onchain * 0.001;
      assert onchain * 0.001 <= onchain * (b - 1.0);
    }
  }

  /** `strategyTrendMomentum(...)` on the feed's history rows and the
      on-chain-first fallback; the trade maps are not read. */
  function StrategyTrendMomentum(history: seq<HistoryRow>, onchain: real, lastFtso: Option<real>): (r: StrategyResult)
    ensures r.onchain == onchain
    ensures r.name in TREND_MOMENTUM_NAMES
    ensures r.name != "TrendMomentum" ==> r.value == Real(OnchainFirst(onchain, lastFtso))
  {
    TrendMomentumPrice(history, OnchainFirst(onchain, lastFtso), onchain)
  }

  // ---------------------------------------------------------------- smart blend

  function FtsoOf(h: HistoryRow): real
  {
    h.ftsoPrice
  }

  /** `history.reduce((sum, h) => sum + h.ftso_price, 0) / history.length`,
      NaN for no rows. */
  function HistoryAverage(history: seq<HistoryRow>): (r: Num)
    ensures r.NaN? <==> |history| == 0
    ensures r.Real? ==> Mean(MapSeq(history, FtsoOf)) == r.r
  {
    if |history| == 0 then NaN else Real(Mean(MapSeq(history, FtsoOf)))
  }

  /** `0.5 * vwap + 0.3 * med + 0.2 * historyAvg`, NaN when an input is
      undefined or NaN. */
  function Blend(vwap: Option<real>, med: Num, historyAvg: Num): (r: Num)
    ensures r.Real? <==> vwap.Some? && med.Real? && historyAvg.Real?
  {
    if vwap.Some? && med.Real? && historyAvg.Real? then Real(0.5 * vwap.value + 0.3 * med.r + 0.2 * historyAvg.r)
    else NaN
  }

  /** The blend is a convex combination: it lies within any bounds of its
      three inputs. */
  lemma BlendWithin(vwap: real, med: real, historyAvg: real, lo: real, hi: real)
    requires lo <= vwap <= hi && lo <= med <= hi && lo <= historyAvg <= hi
    ensures lo <= Blend(Some(vwap), Real(med), Real(historyAvg)).r <= hi
  {
  }

  /** `strategySmartBlend` on the trades it fetched and the feed's last
      history rows: the blend of the VWAP, the median trade price and the
      history average, with the VWAP (or `undefined`) as ccxt price;
      `fallback` without trades. The meta fields are the median, the
      history average and the trade count. */
  function SmartBlendPrice(trades: seq<TradeInfo>, history: seq<HistoryRow>, fallback: real, onchain: real, now: int): (r: StrategyResult)
    ensures r.onchain == onchain
    ensures |trades| == 0 ==> r == FallbackResult(fallback, onchain, [0.0, 0.0, 0.0], "SmartBlend-NoTrades")
    ensures |trades| > 0 ==>
      var vwap := Vwap.GetVWAP(trades, now);
      var med := Statistics.Median(TradePrices(trades));
      r.name == "SmartBlend" && med.Real? &&
      r.value == Blend(vwap, med, HistoryAverage(history)) &&
      (vwap.None? ==> r.ccxt.None?) && (vwap.Some? ==> r.ccxt == Some(Real(vwap.value))) &&
      r.meta == [med, HistoryAverage(history), Real(|trades| as real)]
  {
    if |trades| == 0 then FallbackResult(fallback, onchain, [0.0, 0.0, 0.0], "SmartBlend-NoTrades")
    else
      var vwap := Vwap.GetVWAP(trades, now);
      var med := Statistics.Median(TradePrices(trades));
      var historyAvg := HistoryAverage(history);
      StrategyResult(Blend(vwap, med, historyAvg), if vwap.Some? then Some(Real(vwap.value)) else None, onchain,
        [med, historyAvg, Real(|trades| as real)], "SmartBlend")
  }

  /** With non-negative amounts and a history average inside the trade price
      range, a defined smart blend lies inside that range too. */
  lemma SmartBlendWithinTrades(trades: seq<TradeInfo>, history: seq<HistoryRow>, fallback: real, onchain: real, now: int)
    requires |trades| > 0
    requires forall i :: 0 <= i < |trades| ==> trades[i].amount >= 0.0
    requires HistoryAverage(history).Real? ==>
      Min(TradePrices(trades)) <= HistoryAverage(history).r <= Max(TradePrices(trades))
    ensures var r := SmartBlendPrice(trades, history, fallback, onchain, now);
      r.value.Real? ==> Min(TradePrices(trades)) <= r.value.r <= Max(TradePrices(trades))
  {
    var prices := TradePrices(trades);
    var lo, hi := Min(prices), Max(prices);
    var vwap := Vwap.GetVWAP(trades, now);
    if vwap.Some? && HistoryAverage(history).Real? {
      forall i | 0 <= i < |trades| && now - trades[i].timestamp < Vwap.VWAP_WINDOW_MS
        ensures lo <= trades[i].price <= hi
      {
        assert prices[i] == trades[i].price;
      }
      Vwap.VWAPBounds(trades, now, lo, hi);
      BlendWithin(vwap.value, Statistics.Median(prices).r, HistoryAverage(history).r, lo, hi);
    }
  }

  /** `strategySmartBlend(...)`: the last minute's trades, the feed's
      history rows and the on-chain-first fallback. */
  function StrategySmartBlend(env: Env, feed: FeedId, history: seq<HistoryRow>, onchain: real,
                              lastFtso: Option<real>, lastUsdtFtso: Option<real>): (r: StrategyResult)
    ensures r.onchain == onchain
    ensures r.name in SMART_BLEND_NAMES
    ensures r.name != "SmartBlend" ==> r.value == Real(OnchainFirst(onchain, lastFtso))
  {
    SmartBlendPrice(TradeList(env, feed.name, SMART_BLEND_WINDOW_MS, lastUsdtFtso), history,
      OnchainFirst(onchain, lastFtso), onchain, env.now)
  }
}
