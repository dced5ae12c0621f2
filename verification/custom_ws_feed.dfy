/** `CustomWsFeed`: prices pushed by a custom WebSocket server, one record
    per (symbol, source), served as the upper median of the sources, with a
    USDT fallback for USD names and the five-minute last-good-price memory.
    The socket itself is left out: each parsed message is an input, and the
    clock is the parameter `now`. */
module CustomWsFeed {
  import opened Common
  import opened Sorting
  import opened Market
  import opened CcxtState
  import opened Fallback
  import Statistics

  /** `getFeedPrice` purges records older than this, in milliseconds. */
  const CUSTOM_TTL_MS: int := 1800000

  /** A parsed message. `symbol == ""` and `source == ""` stand for a
      missing (falsy) field; `price` is `None` when the field is falsy and
      otherwise the result of `parseFloat`. */
  datatype WsMessage = WsMessage(kind: string, symbol: string, source: string, price: Option<Num>)

  /** `parsed.source || "default"`. */
  function SourceOf(msg: WsMessage): string
  {
    if msg.source == "" then "default" else msg.source
  }

  predicate Stores(msg: WsMessage)
  {
    msg.kind == "trade" && msg.symbol != "" && msg.price.Some? && msg.price.value.Real?
  }

  /** The message handler: a trade with a symbol and a parseable price
      replaces the record of (lowercased symbol, source), timed now; any
      other message changes nothing. */
  function OnMessage(latest: PriceMap, msg: WsMessage, now: int): (r: PriceMap)
    ensures !Stores(msg) ==> r == latest
    ensures Stores(msg) ==>
      (Get(r, Lower(msg.symbol)).Some? &&
       Get(Get(r, Lower(msg.symbol)).value, SourceOf(msg)) == Some(PriceInfo(msg.price.value.r, now, SourceOf(msg))))
    ensures Stores(msg) ==> forall s :: s != Lower(msg.symbol) ==> Get(r, s) == Get(latest, s)
    ensures Stores(msg) ==> forall src :: src != SourceOf(msg) ==>
      Get(Get(r, Lower(msg.symbol)).value, src) == Get(GetOr(latest, Lower(msg.symbol), []), src)
  {
    if Stores(msg) then SetPrice(latest, SourceOf(msg), Lower(msg.symbol), msg.price.value.r, None, now)
    else latest
  }

  /** `values.sort(); values[Math.floor(values.length / 2)]`: the upper
      median, undefined for an empty list. */
  function UpperMedian(values: seq<real>): (r: Option<real>)
    ensures r.None? <==> |values| == 0
  {
    if |values| == 0 then None else Some(SortReals(values)[|values| / 2])
  }

  /** The upper median is one of the values, with at most half of them
      below it and fewer than half above it. */
  lemma UpperMedianRank(values: seq<real>)
    requires |values| > 0
    ensures UpperMedian(values).value in values
    ensures |Filter(values, Statistics.Below(UpperMedian(values).value))| <= |values| / 2
    ensures |Filter(values, Statistics.Above(UpperMedian(values).value))| <= |values| - 1 - |values| / 2
  {
    var s := SortReals(values);
    var m := s[|s| / 2];
    assert m in multiset(values);
    Statistics.SortedRank(s, |s| / 2);
    FilterPermutation(s, values, Statistics.Below(m));
    FilterPermutation(s, values, Statistics.Above(m));
  }

  /** The order in which the sources arrived does not matter. */
  lemma UpperMedianPermutation(xs: seq<real>, ys: seq<real>)
    requires multiset(xs) == multiset(ys)
    ensures UpperMedian(xs) == UpperMedian(ys)
  {
    SortRealsPermutation(xs, ys);
  }

  function Times(rate: real): real -> real
  {
    x => x * rate
  }

  /** Applying a monotone function to every value applies it to the upper
      median. */
  lemma UpperMedianMonotone(values: seq<real>, f: real -> real)
    requires |values| > 0
    requires forall x, y :: x <= y ==> f(x) <= f(y)
    ensures UpperMedian(MapSeq(values, f)) == Some(f(UpperMedian(values).value))
  {
    var s := SortReals(values);
    var mapped := MapSeq(s, f);
    assert Sorted(mapped);
    MapPermutation(s, values, f);
    SortedUnique(SortReals(MapSeq(values, f)), mapped);
  }

  /** The recorded values of one symbol's sources, in insertion order. */
  function InfoValues(m: OMap<string, PriceInfo>): (r: seq<real>)
    ensures |r| == |m|
    ensures forall i :: 0 <= i < |m| ==> r[i] == m[i].1.value
  {
    MapSeq(Values(m), (p: PriceInfo) => p.value)
  }

  /** `getUsdtToUsd()`: the upper median of the "usdt/usd" records. */
  function UsdtToUsd(latest: PriceMap): (r: Option<real>)
    ensures Get(latest, "usdt/usd").None? ==> r.None?
    ensures r.Some? ==> r.value in InfoValues(Get(latest, "usdt/usd").value)
  {
    match Get(latest, "usdt/usd")
    case None => None
    case Some(m) =>
      if |m| == 0 then None
      else
        UpperMedianRank(InfoValues(m));
        UpperMedian(InfoValues(m))
  }

  /** The USDT fallback of a "/usd" name: the upper median of the "/usdt"
      records, each times a truthy rate. */
  function UsdtFallback(purged: PriceMap, key: string): Option<real>
  {
    var usdtPrices := Get(purged, ReplaceFirst(key, "/usd", "/usdt"));
    var rate := UsdtToUsd(purged);
    if usdtPrices.Some? && rate.Some? && rate.value != 0.0 then UpperMedian(MapSeq(InfoValues(usdtPrices.value), Times(rate.value)))
    else None
  }

  /** `getFeedPrice(feedId)`: after purging records older than half an hour,
      the upper median of the lowercased name's records; failing that, for a
      "/usd" name, the USDT fallback. The second component is the purged
      state. */
  function GetFeedPrice(latest: PriceMap, name: string, now: int): (r: (Option<real>, PriceMap))
    ensures r.1 == PurgeStale(latest, CUSTOM_TTL_MS, now)
    ensures var direct := Get(r.1, Lower(name));
      direct.Some? && |direct.value| > 0 ==> r.0 == UpperMedian(InfoValues(direct.value))
    ensures var direct := Get(r.1, Lower(name));
      !(direct.Some? && |direct.value| > 0) && !EndsWith(Lower(name), "/usd") ==> r.0.None?
  {
    var key := Lower(name);
    var purged := PurgeStale(latest, CUSTOM_TTL_MS, now);
    var direct := Get(purged, key);
    if direct.Some? && |direct.value| > 0 then (UpperMedian(InfoValues(direct.value)), purged)
    else if EndsWith(key, "/usd") then (UsdtFallback(purged, key), purged)
    else (None, purged)
  }

  /** A direct price is one of the records that survived the purge, and it
      splits them in halves. */
  lemma DirectPriceIsRecorded(latest: PriceMap, name: string, now: int)
    requires var direct := Get(PurgeStale(latest, CUSTOM_TTL_MS, now), Lower(name));
      direct.Some? && |direct.value| > 0
    ensures var direct := Get(PurgeStale(latest, CUSTOM_TTL_MS, now), Lower(name)).value;
      var p := GetFeedPrice(latest, name, now).0;
      p.Some? && p.value in InfoValues(direct) &&
      |Filter(InfoValues(direct), Statistics.Below(p.value))| <= |direct| / 2 &&
      |Filter(InfoValues(direct), Statistics.Above(p.value))| <= |direct| - 1 - |direct| / 2
  {
    var direct := Get(PurgeStale(latest, CUSTOM_TTL_MS, now), Lower(name)).value;
    UpperMedianRank(InfoValues(direct));
  }

  /** With a positive USDT rate, the fallback is the upper median of the
      USDT records times the rate. */
  lemma FallbackIsScaledMedian(purged: PriceMap, key: string)
    requires Get(purged, ReplaceFirst(key, "/usd", "/usdt")).Some?
    requires |Get(purged, ReplaceFirst(key, "/usd", "/usdt")).value| > 0
    requires UsdtToUsd(purged).Some? && UsdtToUsd(purged).value > 0.0
    ensures var rate := UsdtToUsd(purged).value;
      UsdtFallback(purged, key) ==
        Some(Times(rate)(UpperMedian(InfoValues(Get(purged, ReplaceFirst(key, "/usd", "/usdt")).value)).value))
  {
    var m := Get(purged, ReplaceFirst(key, "/usd", "/usdt")).value;
    var rate := UsdtToUsd(purged).value;
    forall x, y | x <= y ensures Times(rate)(x) <= Times(rate)(y) {
      assert x * rate <= y * rate;
    }
    UpperMedianMonotone(InfoValues(m), Times(rate));
  }

  /** Without a USDT rate there is no fallback. */
  lemma NoRateNoFallback(purged: PriceMap, key: string)
    requires UsdtToUsd(purged).None?
    ensures UsdtFallback(purged, key).None?
  {
  }

  /** Stale records never influence the price. */
  lemma FeedPriceIgnoresStale(latest: PriceMap, name: string, now: int)
    ensures GetFeedPrice(PurgeStale(latest, CUSTOM_TTL_MS, now), name, now).0 == GetFeedPrice(latest, name, now).0
  {
    PurgeStaleIdempotent(latest, CUSTOM_TTL_MS, now);
  }

  /** `getSafeFeedPrice(feedId)`: the live price if positive (remembered),
      else a remembered price younger than five minutes, else 0.01. */
  function SafeFeedPrice(fallbacks: FallbackMap, feed: FeedId, price: Option<real>, now: int): (r: (real, FallbackMap))
    ensures price.Some? && price.value > 0.0 ==>
      r.0 == price.value && Get(r.1, FeedKey(feed.category, feed.name)) == Some(Stored(price.value, now))
    ensures !(price.Some? && price.value > 0.0) ==>
      r == (StoredOr(fallbacks, FeedKey(feed.category, feed.name), now, DEFAULT_PRICE), fallbacks)
    ensures AllPositive(fallbacks) ==> r.0 > 0.0 && AllPositive(r.1)
  {
    SafePricePositive(fallbacks, FeedKey(feed.category, feed.name), price, now, DEFAULT_PRICE);
    SafePrice(fallbacks, FeedKey(feed.category, feed.name), price, now, DEFAULT_PRICE)
  }

  /** The feed's state: the records and the last-good-price memory. */
  datatype State = State(latest: PriceMap, fallbacks: FallbackMap)

  /** `getValue(feed)`: one safe price, with the purge and the memory update
      it causes. */
  function GetValue(st: State, feed: FeedId, now: int): (r: (FeedValue, State))
    ensures r.0.feed == feed
    ensures AllPositive(st.fallbacks) ==> r.0.value > 0.0 && AllPositive(r.1.fallbacks)
  {
    var (price, purged) := GetFeedPrice(st.latest, feed.name, now);
    var (value, fallbacks) := SafeFeedPrice(st.fallbacks, feed, price, now);
    (FeedValue(feed, value), State(purged, fallbacks))
  }

  /** `getValues(feeds)`: one value per feed, in order, each computed on the
      state the previous one left. */
  function GetValues(st: State, feeds: seq<FeedId>, now: int): (r: (seq<FeedValue>, State))
    ensures |r.0| == |feeds|
    ensures forall i :: 0 <= i < |feeds| ==> r.0[i].feed == feeds[i]
    ensures AllPositive(st.fallbacks) ==> AllPositive(r.1.fallbacks) && forall i :: 0 <= i < |r.0| ==> r.0[i].value > 0.0
    decreases |feeds|
  {
    if |feeds| == 0 then ([], st)
    else
      var (v, st') := GetValue(st, feeds[0], now);
      var (rest, st'') := GetValues(st', feeds[1..], now);
      ([v] + rest, st'')
  }

  /** `getVolumes()`: this feed reports no volumes. */
  function GetVolumes(feeds: seq<FeedId>): (r: seq<FeedVolume>)
    ensures r == []
  {
    []
  }
}
