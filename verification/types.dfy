/** The records the providers exchange: trades and tickers as the exchange
    adapters store them, feed identifiers, history rows read back from the
    price database, and the result every price strategy returns. */
module Market {
  import opened Common

  datatype Side = Buy | Sell

  /** A stored trade (`TradeInfo`): price and amount are already numbers. */
  datatype TradeInfo = TradeInfo(price: real, amount: real, timestamp: int, side: Side, exchange: string)

  /** A ticker snapshot (`TickerInfo`). */
  datatype TickerInfo = TickerInfo(last: real, bid: real, ask: real, vol24h: real, timestamp: int, exchange: string)

  /** A raw exchange trade as the ccxt client delivers it; the timestamp may be missing. */
  datatype ExchangeTrade = ExchangeTrade(symbol: string, price: real, amount: real, timestamp: Option<int>)

  /** A price with a weight, the element type of every weighting step. */
  datatype Weighted = Weighted(price: real, weight: real)

  /** A weighted price that remembers which exchange it came from. */
  datatype WeightedTrade = WeightedTrade(price: real, weight: real, exchange: string)

  /** `{ category, name }` identifying a feed. */
  datatype FeedId = FeedId(category: int, name: string)

  /** A feed value as the providers report it. */
  datatype FeedValue = FeedValue(feed: FeedId, value: real)

  /** The direction a price series moved: `"up" | "down" | "flat"`. */
  datatype Trend = Up | Down | Flat

  /** A per-exchange volume entry of a feed. */
  datatype FeedVolume = FeedVolume(feed: FeedId, volumes: seq<(string, real)>)

  /** One row of the price history, newest first, prices already divided by 10^decimals. */
  datatype HistoryRow = HistoryRow(
    votingRound: int,
    timestamp: int,
    ccxtPrice: real,
    onchainPrice: real,
    submitted: real,
    ftsoPrice: real,
    decimals: nat)

  /** What a price strategy returns. `value` is a JavaScript number and may
      be NaN where the source computes NaN; `ccxt` is one too, or `None` where
      the source passes `undefined`; `meta` holds up to five diagnostic
      numbers and `name` is the `strategyName`. */
  datatype StrategyResult = StrategyResult(value: Num, ccxt: Option<Num>, onchain: real, meta: seq<Num>, name: string)

  /** `symbol -> exchange -> list` and `symbol -> exchange -> record` maps. */
  type TradeMap = OMap<string, OMap<string, seq<TradeInfo>>>
  type TickerMap = OMap<string, OMap<string, TickerInfo>>

  /** Wraps a sequence of reals as JavaScript numbers. */
  function Nums(xs: seq<real>): (r: seq<Num>)
    ensures |r| == |xs|
    ensures forall i :: 0 <= i < |xs| ==> r[i] == Real(xs[i])
  {
    seq(|xs|, i requires 0 <= i < |xs| => Real(xs[i]))
  }

  function PriceOf(w: Weighted): real
  {
    w.price
  }

  function WeightOf(w: Weighted): real
  {
    w.weight
  }

  function ProductOf(w: Weighted): real
  {
    w.price * w.weight
  }

  function Prices(ws: seq<Weighted>): (r: seq<real>)
    ensures |r| == |ws|
    ensures forall i :: 0 <= i < |ws| ==> r[i] == ws[i].price
  {
    MapSeq(ws, PriceOf)
  }

  function WeightsOf(ws: seq<Weighted>): (r: seq<real>)
    ensures |r| == |ws|
    ensures forall i :: 0 <= i < |ws| ==> r[i] == ws[i].weight
  {
    MapSeq(ws, WeightOf)
  }

  /** The terms `price * weight` of a weighted average. */
  function Products(ws: seq<Weighted>): (r: seq<real>)
    ensures |r| == |ws|
    ensures forall i :: 0 <= i < |ws| ==> r[i] == ws[i].price * ws[i].weight
  {
    MapSeq(ws, ProductOf)
  }

  function TradePrices(ts: seq<TradeInfo>): (r: seq<real>)
    ensures |r| == |ts|
    ensures forall i :: 0 <= i < |ts| ==> r[i] == ts[i].price
  {
    seq(|ts|, i requires 0 <= i < |ts| => ts[i].price)
  }
}
