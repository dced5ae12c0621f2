/** `priceStrategie03`: an experimental adjustment that ignores the live
    median and instead averages every USD price the watch loops hold for the
    feed's base asset, converting USDT quotes with the mean USDT/USD price,
    then weighs that average against four votes of the on-chain price. */
module Strategie03 {
  import opened Common
  import opened Market
  import opened CcxtState
  import HistoryStrategies

  const USDT_KEY: string := "USDT/USD"

  /** How many on-chain votes the final average counts. */
  const ONCHAIN_VOTES: nat := 4

  function InfoValue(e: (string, PriceInfo)): real
  {
    e.1.value
  }

  /** The values stored for a symbol, one per exchange, in map order. */
  function ExchangeValues(exchanges: OMap<string, PriceInfo>): (r: seq<real>)
    ensures |r| == |exchanges|
    ensures forall i :: 0 <= i < |exchanges| ==> r[i] == exchanges[i].1.value
  {
    MapSeq(exchanges, InfoValue)
  }

  /** The USDT/USD rate: the mean of every exchange's value under
      "USDT/USD", undefined when that symbol has no exchanges. */
  function UsdtToUsdRate(latest: PriceMap): (r: Option<real>)
    ensures r.Some? <==> Get(latest, USDT_KEY).Some? && |Get(latest, USDT_KEY).value| > 0
    ensures r.Some? ==>
      var vs := ExchangeValues(Get(latest, USDT_KEY).value);
      r.value == Mean(vs) && Min(vs) <= r.value <= Max(vs)
  {
    match Get(latest, USDT_KEY)
    case None => None
    case Some(m) =>
      if |m| == 0 then None
      else
        var vs := ExchangeValues(m);
        MeanBounds(vs, Min(vs), Max(vs));
        Some(Mean(vs))
  }

  /** `symbol.startsWith(base + "/") && /(USDT|USD)$/.test(symbol)`. */
  predicate IsUsdPair(symbol: string, base: string)
  {
    StartsWith(symbol, base + "/") && (EndsWith(symbol, "USDT") || EndsWith(symbol, "USD"))
  }

  /** No symbol ends in both "/USDT" and "/USD". */
  lemma SuffixesExclusive(symbol: string)
    ensures !(EndsWith(symbol, "/USDT") && EndsWith(symbol, "/USD"))
  {
    if EndsWith(symbol, "/USDT") {
      assert symbol[|symbol| - 5..][4] == 'T';
    }
    if EndsWith(symbol, "/USD") {
      assert symbol[|symbol| - 4..][3] == 'D';
    }
  }

  /** The USD prices one symbol contributes, one per exchange: a "/USDT"
      quote times the rate when the rate is known, a "/USD" quote as is, and
      nothing for any other symbol. A symbol cannot end in both suffixes, so
      the two pushes of the source's loop never both happen. */
  function SymbolPrices(symbol: string, exchanges: OMap<string, PriceInfo>, base: string, rate: Option<real>): (r: seq<real>)
    ensures !IsUsdPair(symbol, base) ==> r == []
    ensures IsUsdPair(symbol, base) && EndsWith(symbol, "/USDT") && rate.Some? ==>
      |r| == |exchanges| && forall i :: 0 <= i < |r| ==> r[i] == exchanges[i].1.value * rate.value
    ensures IsUsdPair(symbol, base) && EndsWith(symbol, "/USD") ==> r == ExchangeValues(exchanges)
    ensures !EndsWith(symbol, "/USD") && (!EndsWith(symbol, "/USDT") || rate.None?) ==> r == []
  {
    SuffixesExclusive(symbol);
    if !IsUsdPair(symbol, base) then []
    else if EndsWith(symbol, "/USDT") && rate.Some? then
      seq(|exchanges|, i requires 0 <= i < |exchanges| => exchanges[i].1.value * rate.value)
    else if EndsWith(symbol, "/USD") then ExchangeValues(exchanges)
    else []
  }

  /** The collected USD prices, symbol by symbol in map order. The source
      collects them twice, into `ccxtUsdPrices` and `prices`, with the same
      loop, so both averages are the mean of this one list. */
  function UsdPrices(latest: PriceMap, base: string, rate: Option<real>): seq<real>
  {
    FlatMap(latest, QuotesOf(base, rate))
  }

  function QuotesOf(base: string, rate: Option<real>): ((string, OMap<string, PriceInfo>)) -> seq<real>
  {
    (e: (string, OMap<string, PriceInfo>)) => SymbolPrices(e.0, e.1, base, rate)
  }

  /** Every collected price comes from one symbol's quotes. */
  lemma UsdPriceSource(latest: PriceMap, base: string, rate: Option<real>, x: real) returns (i: nat)
    requires x in UsdPrices(latest, base, rate)
    ensures i < |latest| && x in SymbolPrices(latest[i].0, latest[i].1, base, rate)
  {
    i := FlatMapSource(latest, QuotesOf(base, rate), x);
  }

  /** Symbols outside the feed's base asset never contribute. */
  lemma OtherSymbolsIgnored(latest: PriceMap, base: string, rate: Option<real>)
    requires forall i :: 0 <= i < |latest| ==> !IsUsdPair(latest[i].0, base)
    ensures UsdPrices(latest, base, rate) == []
  {
    FlatMapEmpty(latest, QuotesOf(base, rate));
  }

  /** Adding a symbol's quotes appends its prices after the others. */
  lemma UsdPricesAppend(latest: PriceMap, more: PriceMap, base: string, rate: Option<real>)
    ensures UsdPrices(latest + more, base, rate) == UsdPrices(latest, base, rate) + UsdPrices(more, base, rate)
  {
    FlatMapAppend(latest, more, QuotesOf(base, rate));
  }

  /** `priceStrategie03(feed, ccxtLive, onchainLive, ..., latestPriceMap)`:
      `(avg + 4 * onchainLive + avg) / 6` for the mean USD price `avg` of the
      feed's base asset, NaN when no USD price was collected. */
  function PriceStrategie03(feedName: string, onchainLive: real, latest: PriceMap): (r: Num)
    ensures var prices := UsdPrices(latest, BeforeFirst(feedName, "/"), UsdtToUsdRate(latest));
      (r.NaN? <==> |prices| == 0) &&
      (r.Real? ==> r.r == HistoryStrategies.Combo(Mean(prices), onchainLive, ONCHAIN_VOTES))
  {
    var base := BeforeFirst(feedName, "/");
    var prices := UsdPrices(latest, base, UsdtToUsdRate(latest));
    if |prices| > 0 then Real(HistoryStrategies.Combo(Mean(prices), onchainLive, ONCHAIN_VOTES))
    else NaN
  }

  /** A defined result lies between the on-chain price and the mean USD
      price, which lies within the collected prices. */
  lemma Strategie03Between(feedName: string, onchainLive: real, latest: PriceMap)
    requires PriceStrategie03(feedName, onchainLive, latest).Real?
    ensures var prices := UsdPrices(latest, BeforeFirst(feedName, "/"), UsdtToUsdRate(latest));
      var avg := Mean(prices);
      var v := PriceStrategie03(feedName, onchainLive, latest).r;
      Min(prices) <= avg <= Max(prices) &&
      (avg <= onchainLive ==> avg <= v <= onchainLive) && (onchainLive <= avg ==> onchainLive <= v <= avg)
  {
    var prices := UsdPrices(latest, BeforeFirst(feedName, "/"), UsdtToUsdRate(latest));
    MeanBounds(prices, Min(prices), Max(prices));
    HistoryStrategies.ComboBetween(Mean(prices), onchainLive, ONCHAIN_VOTES);
  }
}
