/** `getTradesAndTickers`: the trades and the ticker of a USD feed, merged
    from the stored USD and USDT markets, with USDT prices converted to USD
    at a given rate. Everything ends up under the lower-cased USD symbol. */
module Data {
  import opened Common
  import opened Market

  /** The optional arguments of the call. A missing `maxAgeMs` and a zero one
      both switch the age filter off (the source tests it for truthiness). */
  datatype FetchOptions = FetchOptions(
    withTrades: bool,
    withTickers: bool,
    maxAgeMs: Option<int>,
    usdtToUsdRate: Option<real>)

  /** The returned records, both keyed by `symbol`; a missing key is `None`. */
  datatype Fetched = Fetched(symbol: string, trades: Option<seq<TradeInfo>>, ticker: Option<TickerInfo>)

  /** The USDT market of a lower-cased USD symbol: the first "/usd" becomes "/usdt". */
  function UsdtSymbol(symUsd: string): string
  {
    ReplaceFirst(symUsd, "/usd", "/usdt")
  }

  /** `options?.usdtToUsdRate ?? 1.0`. */
  function Rate(o: FetchOptions): (r: real)
    ensures o.usdtToUsdRate.None? ==> r == 1.0
    ensures o.usdtToUsdRate.Some? ==> r == o.usdtToUsdRate.value
  {
    match o.usdtToUsdRate
    case None => 1.0
    case Some(x) => x
  }

  predicate AgeFilterOn(o: FetchOptions)
  {
    o.maxAgeMs.Some? && o.maxAgeMs.value != 0
  }

  function Keep(o: FetchOptions, now: int): TradeInfo -> bool
  {
    (t: TradeInfo) => !AgeFilterOn(o) || now - t.timestamp < o.maxAgeMs.value
  }

  /** `{ ...t, price: t.price * rate }`. */
  function ScaleTrade(t: TradeInfo, rate: real): TradeInfo
  {
    t.(price := t.price * rate)
  }

  /** USDT trades are scaled, the others returned as they are. */
  function ConvertTrade(convert: bool, rate: real): TradeInfo -> TradeInfo
  {
    (t: TradeInfo) => if convert then ScaleTrade(t, rate) else t
  }

  function OrEmpty(acc: Option<seq<TradeInfo>>): seq<TradeInfo>
  {
    if acc.Some? then acc.value else []
  }

  /** The loop over one symbol's exchanges: each visit creates the output
      list if needed and appends the kept, converted trades. */
  function AppendExchanges(acc: Option<seq<TradeInfo>>, m: OMap<string, seq<TradeInfo>>, keep: TradeInfo -> bool, conv: TradeInfo -> TradeInfo): (r: Option<seq<TradeInfo>>)
    ensures |m| == 0 ==> r == acc
    ensures |m| > 0 ==> r.Some?
    decreases |m|
  {
    if |m| == 0 then acc
    else AppendExchanges(Some(OrEmpty(acc) + MapSeq(Filter(m[0].1, keep), conv)), m[1..], keep, conv)
  }

  /** What the exchange loop appends: exactly the converted images of the
      kept trades of every exchange, after what was already there. */
  lemma {:induction false} AppendExchangesContents(acc: Option<seq<TradeInfo>>, m: OMap<string, seq<TradeInfo>>, keep: TradeInfo -> bool, conv: TradeInfo -> TradeInfo)
    ensures var out := OrEmpty(AppendExchanges(acc, m, keep, conv));
      && OrEmpty(acc) <= out
      && (forall e, u :: e in m && u in e.1 && keep(u) ==> conv(u) in out)
      && (forall x :: x in out ==> (x in OrEmpty(acc) || exists e, u :: e in m && u in e.1 && keep(u) && x == conv(u)))
    decreases |m|
  {
    if |m| > 0 {
      var step := MapSeq(Filter(m[0].1, keep), conv);
      var acc' := Some(OrEmpty(acc) + step);
      AppendExchangesContents(acc', m[1..], keep, conv);
      var out := OrEmpty(AppendExchanges(acc, m, keep, conv));
      assert out == OrEmpty(AppendExchanges(acc', m[1..], keep, conv));
      forall e, u | e in m && u in e.1 && keep(u) ensures conv(u) in out {
        if e == m[0] {
          assert conv(u) in step by {
            var ts := m[0].1;
            var k0 :| 0 <= k0 < |ts| && ts[k0] == u;
            FilterKeeps(ts, keep, k0);
            var f := Filter(ts, keep);
            var k :| 0 <= k < |f| && f[k] == u;
            assert step[k] == conv(u);
          }
          assert conv(u) in OrEmpty(acc');
        } else {
          assert e in m[1..];
        }
      }
      forall x | x in out
        ensures x in OrEmpty(acc) || exists e, u :: e in m && u in e.1 && keep(u) && x == conv(u)
      {
        if x !in OrEmpty(acc) {
          if x in step {
            var f := Filter(m[0].1, keep);
            var k :| 0 <= k < |step| && step[k] == x;
            var u := f[k];
            assert m[0] in m;
          } else {
            assert x !in OrEmpty(acc');
            var e, u :| e in m[1..] && u in e.1 && keep(u) && x == conv(u);
            assert e in m;
          }
        }
      }
    }
  }

  /** One pass of the outer loop: a symbol with no stored map is skipped. */
  function SymbolTrades(acc: Option<seq<TradeInfo>>, tradeMap: TradeMap, sym: string, keep: TradeInfo -> bool, conv: TradeInfo -> TradeInfo): Option<seq<TradeInfo>>
  {
    match Get(tradeMap, sym)
    case None => acc
    case Some(m) => AppendExchanges(acc, m, keep, conv)
  }

  /** The trades part of `getTradesAndTickers`: the USD symbol's exchanges
      first, then the USDT symbol's. A symbol counts as the USDT one (and is
      converted) exactly when it equals the computed USDT symbol. */
  function MergedTrades(tradeMap: TradeMap, symbolBase: string, o: FetchOptions, now: int): (r: Option<seq<TradeInfo>>)
    ensures !o.withTrades ==> r.None?
  {
    if !o.withTrades then None
    else
      var usd := Lower(symbolBase);
      var usdt := UsdtSymbol(usd);
      var keep := Keep(o, now);
      var first := SymbolTrades(None, tradeMap, usd, keep, ConvertTrade(usd == usdt, Rate(o)));
      SymbolTrades(first, tradeMap, usdt, keep, ConvertTrade(true, Rate(o)))
  }

  /** Scales the four price fields of a USDT ticker by the rate. */
  function ScaleTicker(rate: real): TickerInfo -> TickerInfo
  {
    (k: TickerInfo) => k.(last := k.last * rate, bid := k.bid * rate, ask := k.ask * rate, vol24h := k.vol24h * rate)
  }

  function ConvertTicker(convert: bool, rate: real): TickerInfo -> TickerInfo
  {
    (k: TickerInfo) => if convert then ScaleTicker(rate)(k) else k
  }

  /** The ticker loop over one symbol's exchanges: every visit overwrites the result. */
  function OverwriteTickers(acc: Option<TickerInfo>, m: OMap<string, TickerInfo>, conv: TickerInfo -> TickerInfo): (r: Option<TickerInfo>)
    decreases |m|
  {
    if |m| == 0 then acc else OverwriteTickers(Some(conv(m[0].1)), m[1..], conv)
  }

  /** Overwriting in a loop leaves the last exchange's (converted) ticker. */
  lemma {:induction false} OverwriteTickersLast(acc: Option<TickerInfo>, m: OMap<string, TickerInfo>, conv: TickerInfo -> TickerInfo)
    ensures |m| == 0 ==> OverwriteTickers(acc, m, conv) == acc
    ensures |m| > 0 ==> OverwriteTickers(acc, m, conv) == Some(conv(m[|m| - 1].1))
    decreases |m|
  {
    if |m| > 0 {
      OverwriteTickersLast(Some(conv(m[0].1)), m[1..], conv);
      if |m| > 1 {
        assert m[1..][|m[1..]| - 1] == m[|m| - 1];
      }
    }
  }

  function SymbolTicker(acc: Option<TickerInfo>, tickerMap: TickerMap, sym: string, conv: TickerInfo -> TickerInfo): Option<TickerInfo>
  {
    match Get(tickerMap, sym)
    case None => acc
    case Some(m) => OverwriteTickers(acc, m, conv)
  }

  /** The tickers part of `getTradesAndTickers`. */
  function MergedTicker(tickerMap: TickerMap, symbolBase: string, o: FetchOptions): (r: Option<TickerInfo>)
    ensures !o.withTickers ==> r.None?
  {
    if !o.withTickers then None
    else
      var usd := Lower(symbolBase);
      var usdt := UsdtSymbol(usd);
      var first := SymbolTicker(None, tickerMap, usd, ConvertTicker(usd == usdt, Rate(o)));
      SymbolTicker(first, tickerMap, usdt, ConvertTicker(true, Rate(o)))
  }

  /** `getTradesAndTickers(context, symbolBase, options)` with the clock as `now`. */
  function GetTradesAndTickers(tradeMap: TradeMap, tickerMap: TickerMap, symbolBase: string, o: FetchOptions, now: int): (r: Fetched)
    ensures r.symbol == Lower(symbolBase)
    ensures !o.withTrades ==> r.trades.None?
    ensures !o.withTickers ==> r.ticker.None?
  {
    Fetched(Lower(symbolBase), MergedTrades(tradeMap, symbolBase, o, now), MergedTicker(tickerMap, symbolBase, o))
  }

  // ---------------------------------------------------------------- properties

  /** With the age filter on, every returned trade is younger than `maxAgeMs`. */
  lemma MergedTradesFresh(tradeMap: TradeMap, symbolBase: string, o: FetchOptions, now: int)
    requires AgeFilterOn(o)
    ensures forall x :: x in OrEmpty(MergedTrades(tradeMap, symbolBase, o, now)) ==> now - x.timestamp < o.maxAgeMs.value
  {
    if o.withTrades {
      var usd := Lower(symbolBase);
      var usdt := UsdtSymbol(usd);
      var keep := Keep(o, now);
      var c1, c2 := ConvertTrade(usd == usdt, Rate(o)), ConvertTrade(true, Rate(o));
      var first := SymbolTrades(None, tradeMap, usd, keep, c1);
      SymbolTradesContents(None, tradeMap, usd, keep, c1);
      SymbolTradesContents(first, tradeMap, usdt, keep, c2);
    }
  }

  lemma SymbolTradesContents(acc: Option<seq<TradeInfo>>, tradeMap: TradeMap, sym: string, keep: TradeInfo -> bool, conv: TradeInfo -> TradeInfo)
    ensures var out := OrEmpty(SymbolTrades(acc, tradeMap, sym, keep, conv));
      && OrEmpty(acc) <= out
      && (forall x :: x in out ==> (x in OrEmpty(acc) || exists e, u :: e in Get(tradeMap, sym).value && u in e.1 && keep(u) && x == conv(u)))
      && (Get(tradeMap, sym).Some? ==> forall e, u :: e in Get(tradeMap, sym).value && u in e.1 && keep(u) ==> conv(u) in out)
  {
    match Get(tradeMap, sym)
    case None =>
    case Some(m) => AppendExchangesContents(acc, m, keep, conv);
  }

  /** A kept trade stored under the USDT symbol is returned with its price
      multiplied by the rate, and with amount, time, side and exchange kept. */
  lemma UsdtTradeConverted(tradeMap: TradeMap, symbolBase: string, o: FetchOptions, now: int, e: (string, seq<TradeInfo>), u: TradeInfo)
    requires o.withTrades
    requires Get(tradeMap, UsdtSymbol(Lower(symbolBase))).Some?
    requires e in Get(tradeMap, UsdtSymbol(Lower(symbolBase))).value && u in e.1 && Keep(o, now)(u)
    ensures ScaleTrade(u, Rate(o)) in OrEmpty(MergedTrades(tradeMap, symbolBase, o, now))
  {
    var usd := Lower(symbolBase);
    var usdt := UsdtSymbol(usd);
    var first := SymbolTrades(None, tradeMap, usd, Keep(o, now), ConvertTrade(usd == usdt, Rate(o)));
    SymbolTradesContents(first, tradeMap, usdt, Keep(o, now), ConvertTrade(true, Rate(o)));
    assert ConvertTrade(true, Rate(o))(u) == ScaleTrade(u, Rate(o));
  }

  /** A kept trade stored under a USD symbol distinct from its USDT symbol is
      returned unchanged, before every USDT trade. */
  lemma UsdTradeKept(tradeMap: TradeMap, symbolBase: string, o: FetchOptions, now: int, e: (string, seq<TradeInfo>), u: TradeInfo)
    requires o.withTrades
    requires Lower(symbolBase) != UsdtSymbol(Lower(symbolBase))
    requires Get(tradeMap, Lower(symbolBase)).Some?
    requires e in Get(tradeMap, Lower(symbolBase)).value && u in e.1 && Keep(o, now)(u)
    ensures u in OrEmpty(MergedTrades(tradeMap, symbolBase, o, now))
  {
    var usd := Lower(symbolBase);
    var usdt := UsdtSymbol(usd);
    var keep := Keep(o, now);
    var first := SymbolTrades(None, tradeMap, usd, keep, ConvertTrade(false, Rate(o)));
    SymbolTradesContents(None, tradeMap, usd, keep, ConvertTrade(false, Rate(o)));
    assert u in OrEmpty(first);
    SymbolTradesContents(first, tradeMap, usdt, keep, ConvertTrade(true, Rate(o)));
  }

  /** `u` is a trade of some exchange of market `sym` that the age filter keeps. */
  ghost predicate KeptIn(tradeMap: TradeMap, sym: string, keep: TradeInfo -> bool, u: TradeInfo)
  {
    Get(tradeMap, sym).Some? && keep(u) && exists e :: e in Get(tradeMap, sym).value && u in e.1
  }

  /** Every returned trade is a kept trade of one of the two markets, the
      USDT ones with the converted price. */
  lemma MergedTradesFrom(tradeMap: TradeMap, symbolBase: string, o: FetchOptions, now: int, x: TradeInfo)
    requires x in OrEmpty(MergedTrades(tradeMap, symbolBase, o, now))
    ensures exists u ::
      && (KeptIn(tradeMap, Lower(symbolBase), Keep(o, now), u) || KeptIn(tradeMap, UsdtSymbol(Lower(symbolBase)), Keep(o, now), u))
      && (x == u || x == ScaleTrade(u, Rate(o)))
  {
    var usd := Lower(symbolBase);
    var usdt := UsdtSymbol(usd);
    var keep := Keep(o, now);
    var c1, c2 := ConvertTrade(usd == usdt, Rate(o)), ConvertTrade(true, Rate(o));
    var first := SymbolTrades(None, tradeMap, usd, keep, c1);
    SymbolTradesContents(first, tradeMap, usdt, keep, c2);
    if x in OrEmpty(first) {
      assert exists u :: KeptIn(tradeMap, usd, keep, u) && x == c1(u) by {
        SymbolTradesContents(None, tradeMap, usd, keep, c1);
        var e, u :| e in Get(tradeMap, usd).value && u in e.1 && keep(u) && x == c1(u);
        assert KeptIn(tradeMap, usd, keep, u);
      }
      var u :| KeptIn(tradeMap, usd, keep, u) && x == c1(u);
      assert c1(u) == u || c1(u) == ScaleTrade(u, Rate(o));
    } else {
      var e, u :| e in Get(tradeMap, usdt).value && u in e.1 && keep(u) && x == c2(u);
      assert KeptIn(tradeMap, usdt, keep, u);
      assert c2(u) == ScaleTrade(u, Rate(o));
    }
  }

  /** When the USDT market has tickers, the result is its last exchange's
      ticker scaled by the rate; otherwise the last USD ticker, if any. */
  lemma MergedTickerLastWins(tickerMap: TickerMap, symbolBase: string, o: FetchOptions)
    requires o.withTickers
    ensures var usd := Lower(symbolBase);
      var usdt := UsdtSymbol(usd);
      var r := MergedTicker(tickerMap, symbolBase, o);
      && (Get(tickerMap, usdt).Some? && |Get(tickerMap, usdt).value| > 0 ==>
            var m := Get(tickerMap, usdt).value; r == Some(ScaleTicker(Rate(o))(m[|m| - 1].1)))
      && ((usd != usdt && Get(tickerMap, usd).Some? && |Get(tickerMap, usd).value| > 0 &&
           (Get(tickerMap, usdt).None? || |Get(tickerMap, usdt).value| == 0)) ==>
            var m := Get(tickerMap, usd).value; r == Some(m[|m| - 1].1))
      && (((Get(tickerMap, usd).None? || |Get(tickerMap, usd).value| == 0) &&
           (Get(tickerMap, usdt).None? || |Get(tickerMap, usdt).value| == 0)) ==> r.None?)
  {
    var usd := Lower(symbolBase);
    var usdt := UsdtSymbol(usd);
    var c1, c2 := ConvertTicker(usd == usdt, Rate(o)), ConvertTicker(true, Rate(o));
    var first := SymbolTicker(None, tickerMap, usd, c1);
    if Get(tickerMap, usd).Some? {
      OverwriteTickersLast(None, Get(tickerMap, usd).value, c1);
    }
    if Get(tickerMap, usdt).Some? {
      OverwriteTickersLast(first, Get(tickerMap, usdt).value, c2);
    }
  }

  /** A scaled ticker keeps its time and exchange. */
  lemma ScaleTickerKeeps(rate: real, k: TickerInfo)
    ensures ScaleTicker(rate)(k).timestamp == k.timestamp && ScaleTicker(rate)(k).exchange == k.exchange
    ensures ScaleTicker(rate)(k).last == k.last * rate
  {
  }
}
