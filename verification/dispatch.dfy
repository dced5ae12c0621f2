/** `applyPriceStrategy`: the per-feed choice of price strategy. The feed's
    upper-cased name selects the strategy; stablecoins use the last epoch
    price only while the database holds one, and every feed not listed gets
    the default weighted median. */
module Dispatch {
  import opened Common
  import opened Market
  import opened StrategyBase
  import WeightedStrategies
  import OrderStrategies
  import HistoryStrategies

  /** The strategy a feed is routed to, in the order the dispatcher tests. */
  datatype Route =
    | LastEpoch
    | LowTrades
    | Volatility
    | Top3
    | WeightedVwap
    | TrimmedMean
    | TrendMomentum
    | RollingMad
    | SmartBlend
    | BjSgb
    | Default

  const STABLE_COINS: seq<string> := ["USDT/USD", "USDC/USD", "USDX/USD", "USDS/USD"]

  /** The one feed each single-feed strategy is reserved for. */
  function ReservedFeed(route: Route): Option<string>
  {
    match route
    case LowTrades => Some("JOULE/USD")
    case Volatility => Some("BTC/USD")
    case Top3 => Some("LTC/USD")
    case WeightedVwap => Some("BNB/USD")
    case TrimmedMean => Some("AVAX/USD")
    case TrendMomentum => Some("ADA/USD")
    case RollingMad => Some("XLM/USD")
    case SmartBlend => Some("ETH/USD")
    case BjSgb => Some("SGB/USD")
    case _ => None
  }

  /** The labels the route's strategy can return. */
  function StrategyNames(route: Route): set<string>
  {
    match route
    case LastEpoch => {"LastEpochPrice"}
    case LowTrades => WeightedStrategies.LOW_TRADES_NAMES
    case Volatility => WeightedStrategies.VOLATILITY_NAMES
    case Top3 => OrderStrategies.TOP3_NAMES
    case WeightedVwap => WeightedStrategies.WEIGHTED_VWAP_NAMES
    case TrimmedMean => OrderStrategies.TRIMMED_MEAN_NAMES
    case TrendMomentum => HistoryStrategies.TREND_MOMENTUM_NAMES
    case RollingMad => OrderStrategies.ROLLING_MAD_NAMES
    case SmartBlend => HistoryStrategies.SMART_BLEND_NAMES
    case BjSgb => HistoryStrategies.BJ_SGB_NAMES
    case Default => WeightedStrategies.DEFAULT_NAMES
  }

  /** The sequence of `includes` tests on the upper-cased feed name. */
  function RouteOf(name: string, hasLastFtso: bool): (r: Route)
    ensures r == LastEpoch <==> Upper(name) in STABLE_COINS && hasLastFtso
    ensures r != LastEpoch && r != Default ==> ReservedFeed(r) == Some(Upper(name))
    ensures r == Default ==> forall x: Route :: ReservedFeed(x) != Some(Upper(name))
  {
    var n := Upper(name);
    if n in STABLE_COINS && hasLastFtso then LastEpoch
    else if n == "JOULE/USD" then LowTrades
    else if n == "BTC/USD" then Volatility
    else if n == "LTC/USD" then Top3
    else if n == "BNB/USD" then WeightedVwap
    else if n == "AVAX/USD" then TrimmedMean
    else if n == "ADA/USD" then TrendMomentum
    else if n == "XLM/USD" then RollingMad
    else if n == "ETH/USD" then SmartBlend
    else if n == "SGB/USD" then BjSgb
    else Default
  }

  /** Every reserved feed reaches its strategy, whatever the case of its
      name and whether or not a last price is stored. */
  lemma ReservedFeedRouted(name: string, hasLastFtso: bool, route: Route)
    requires ReservedFeed(route) == Some(Upper(name))
    ensures RouteOf(name, hasLastFtso) == route
  {
  }

  /** A stablecoin without a stored price falls through to the default. */
  lemma StablecoinWithoutHistory(name: string)
    requires Upper(name) in STABLE_COINS
    ensures RouteOf(name, false) == Default
  {
    assert Upper(name) == "USDT/USD" || Upper(name) == "USDC/USD" || Upper(name) == "USDX/USD" || Upper(name) == "USDS/USD";
  }

  /** No two strategies share a label, so a result's name tells which
      strategy the feed was routed to. */
  lemma LabelIdentifiesRoute(a: Route, b: Route, name: string)
    requires name in StrategyNames(a) && name in StrategyNames(b)
    ensures a == b
  {
  }

  /** The route a result's label belongs to. */
  lemma ResultRevealsRoute(env: Env, feed: FeedId, onchain: real, feedHistory: seq<HistoryRow>,
                           usdtHistory: seq<HistoryRow>, recentHistory: seq<HistoryRow>, route: Route)
    requires ApplyPriceStrategy(env, feed, onchain, feedHistory, usdtHistory, recentHistory).name in StrategyNames(route)
    ensures RouteOf(feed.name, |feedHistory| > 0) == route
  {
    var r := ApplyPriceStrategy(env, feed, onchain, feedHistory, usdtHistory, recentHistory);
    LabelIdentifiesRoute(RouteOf(feed.name, |feedHistory| > 0), route, r.name);
  }

  /** `history?.[0]?.ftso_price` for a history query's rows, newest first. */
  function LastFtso(history: seq<HistoryRow>): (r: Option<real>)
    ensures r.Some? <==> |history| > 0
    ensures r.Some? ==> r.value == history[0].ftsoPrice
  {
    if |history| > 0 then Some(history[0].ftsoPrice) else None
  }

  /** `applyPriceStrategy(feed, onchainPrice, ..., context)`, given the
      one-row price histories of the feed and of USDT/USD and the five-row
      history the momentum and blend strategies read. */
  function ApplyPriceStrategy(env: Env, feed: FeedId, onchain: real, feedHistory: seq<HistoryRow>,
                              usdtHistory: seq<HistoryRow>, recentHistory: seq<HistoryRow>): (r: StrategyResult)
    ensures r.onchain == onchain
    ensures r.name in StrategyNames(RouteOf(feed.name, |feedHistory| > 0))
    ensures RouteOf(feed.name, |feedHistory| > 0) == LastEpoch ==>
      r.ccxt == Some(r.value) && r.value == Real(FtsoFirst(onchain, LastFtso(feedHistory)))
  {
    var lastFtso := LastFtso(feedHistory);
    var lastUsdt := LastFtso(usdtHistory);
    match RouteOf(feed.name, lastFtso.Some?)
    case LastEpoch =>
      HistoryStrategies.LastEpochIsFtsoFirst(onchain, lastFtso);
      HistoryStrategies.LastEpochPrice(onchain, lastFtso)
    case LowTrades => WeightedStrategies.StrategyLowTrades(env, feed, onchain, lastFtso, lastUsdt)
    case Volatility => WeightedStrategies.StrategyVolatility(env, feed, onchain, lastFtso, lastUsdt)
    case Top3 => OrderStrategies.StrategyTop3(env, feed, onchain, lastFtso, lastUsdt)
    case WeightedVwap => WeightedStrategies.StrategyWeightedVwap(env, feed, onchain, lastFtso, lastUsdt)
    case TrimmedMean => OrderStrategies.StrategyTrimmedMean(env, feed, onchain, lastFtso, lastUsdt)
    case TrendMomentum => HistoryStrategies.StrategyTrendMomentum(recentHistory, onchain, lastFtso)
    case RollingMad => OrderStrategies.StrategyRollingMad(env, feed, onchain, lastFtso, lastUsdt)
    case SmartBlend => HistoryStrategies.StrategySmartBlend(env, feed, recentHistory, onchain, lastFtso, lastUsdt)
    case BjSgb => HistoryStrategies.StrategyBjSgb(env, feed, onchain, lastFtso, lastUsdt)
    case Default => WeightedStrategies.StrategyDefault(env, feed, onchain, lastFtso, lastUsdt)
  }
}
