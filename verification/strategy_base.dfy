/** What every price strategy shares: its environment (the stored trades,
    the clock, the decay rate and the math functions), the two fallback
    chains, the USDT rate and the recent-trade list each strategy reads. */
module StrategyBase {
  import opened Common
  import opened Market
  import Data

  /** The default of `MEDIAN_DECAY`, the decay rate per millisecond. */
  const DEFAULT_LAMBDA: real := 0.00005

  /** The notional cap of one trade in the capped weighting, in USD. */
  const MAX_TRADE_USD: real := 1000000.0

  /** The strategies' view of the world: the trade and ticker maps of the
      context, `Date.now()`, the decay rate read from the environment,
      `Math.exp`, `Math.sqrt`, and `x => Number(x.toFixed(8))`. */
  datatype Env = Env(
    tradeMap: TradeMap,
    tickerMap: TickerMap,
    now: int,
    decayRate: real,
    exp: real -> real,
    sqrt: real -> real,
    toFixed8: real -> real)

  /** `onchainPrice || lastFtsoPrice || 0.01`. */
  function OnchainFirst(onchain: real, lastFtso: Option<real>): (r: real)
    ensures onchain != 0.0 ==> r == onchain
    ensures onchain == 0.0 && lastFtso.Some? && lastFtso.value != 0.0 ==> r == lastFtso.value
    ensures onchain == 0.0 && (lastFtso.None? || lastFtso.value == 0.0) ==> r == DEFAULT_PRICE
  {
    OrElse(onchain, OptOrElse(lastFtso, DEFAULT_PRICE))
  }

  /** `lastFtsoPrice || onchainPrice || 0.01`, the reversed chain. */
  function FtsoFirst(onchain: real, lastFtso: Option<real>): (r: real)
    ensures lastFtso.Some? && lastFtso.value != 0.0 ==> r == lastFtso.value
    ensures (lastFtso.None? || lastFtso.value == 0.0) && onchain != 0.0 ==> r == onchain
    ensures (lastFtso.None? || lastFtso.value == 0.0) && onchain == 0.0 ==> r == DEFAULT_PRICE
  {
    OptOrElse(lastFtso, OrElse(onchain, DEFAULT_PRICE))
  }

  /** Both chains end in a positive price when their inputs are not negative,
      and they differ only when both inputs are set. */
  lemma FallbackChains(onchain: real, lastFtso: Option<real>)
    ensures onchain >= 0.0 && (lastFtso.None? || lastFtso.value >= 0.0) ==>
      OnchainFirst(onchain, lastFtso) > 0.0 && FtsoFirst(onchain, lastFtso) > 0.0
    ensures OnchainFirst(onchain, lastFtso) != FtsoFirst(onchain, lastFtso) ==>
      onchain != 0.0 && lastFtso.Some? && lastFtso.value != 0.0
  {
  }

  /** `lastUSDTFtsoPrice || 1.0`. */
  function UsdtRate(lastUsdtFtso: Option<real>): (r: real)
    ensures lastUsdtFtso.Some? && lastUsdtFtso.value != 0.0 ==> r == lastUsdtFtso.value
    ensures lastUsdtFtso.None? || lastUsdtFtso.value == 0.0 ==> r == 1.0
  {
    OptOrElse(lastUsdtFtso, 1.0)
  }

  /** The options every trade-based strategy passes to `getTradesAndTickers`. */
  function TradeOptions(maxAgeMs: int, lastUsdtFtso: Option<real>): Data.FetchOptions
  {
    Data.FetchOptions(true, false, Some(maxAgeMs), Some(UsdtRate(lastUsdtFtso)))
  }

  /** `trades[feed.name.toLowerCase()]` after `getTradesAndTickers`, with an
      absent entry read as the empty list. */
  function TradeList(env: Env, name: string, maxAgeMs: int, lastUsdtFtso: Option<real>): seq<TradeInfo>
  {
    var fetched := Data.GetTradesAndTickers(env.tradeMap, env.tickerMap, name, TradeOptions(maxAgeMs, lastUsdtFtso), env.now);
    Data.OrEmpty(fetched.trades)
  }

  /** Every trade a strategy reads is younger than its window. */
  lemma TradeListFresh(env: Env, name: string, maxAgeMs: int, lastUsdtFtso: Option<real>)
    requires maxAgeMs != 0
    ensures forall t :: t in TradeList(env, name, maxAgeMs, lastUsdtFtso) ==> env.now - t.timestamp < maxAgeMs
  {
    Data.MergedTradesFresh(env.tradeMap, name, TradeOptions(maxAgeMs, lastUsdtFtso), env.now);
  }

  /** The result every strategy returns when it falls back: the fallback
      price as value and ccxt, the on-chain input echoed. */
  function FallbackResult(fallback: real, onchain: real, meta: seq<real>, name: string): (r: StrategyResult)
    ensures r.value == Real(fallback) && r.ccxt == Some(Real(fallback)) && r.onchain == onchain
    ensures r.meta == Nums(meta) && r.name == name
  {
    StrategyResult(Real(fallback), Some(Real(fallback)), onchain, Nums(meta), name)
  }

  /** A result whose value is also its ccxt price. */
  function Plain(value: real, onchain: real, meta: seq<Num>, name: string): (r: StrategyResult)
    ensures r.value == Real(value) && r.ccxt == Some(Real(value)) && r.onchain == onchain
    ensures r.meta == meta && r.name == name
  {
    StrategyResult(Real(value), Some(Real(value)), onchain, meta, name)
  }
}
