/** The price queries of `CcxtFeed`: the time-decayed weighted median over
    the sources of a feed, the source collection with USDT->USD conversion,
    the 5-minute fallback of `getSafeFeedPrice`, and the per-exchange volume
    report with its USDT roll-up. The clock (`now`), `Math.exp` and the decay
    rate are parameters. */
module CcxtPrice {
  import opened Common
  import opened Sorting
  import opened Market
  import opened Weighting
  import opened Statistics
  import opened CcxtState
  import opened Fallback
  import Volumes

  /** The default of `PRICE_TTL_MS`: half an hour. */
  const PRICE_TTL_MS: int := 1800000

  /** `getSafeFeedPrice`'s last resort. */
  const SAFE_DEFAULT: real := 1.0

  // ---------------------------------------------------------------- weighted median

  function TimeOf(p: PriceInfo): real
  {
    p.time as real
  }

  /** A price weighted by `Math.exp(-decayRate * (now - time))`. */
  function DecayOf(exp: real -> real, decayRate: real, now: int): PriceInfo -> Weighted
  {
    (p: PriceInfo) => Weighted(p.value, exp(-decayRate * (now - p.time) as real))
  }

  /** The prices in ascending time order (stable). */
  function ByTime(prices: seq<PriceInfo>): (r: seq<PriceInfo>)
    ensures |r| == |prices| && multiset(r) == multiset(prices)
    ensures SortedBy(r, TimeOf)
  {
    SortBy(prices, TimeOf)
  }

  /** The decayed weights of the prices in ascending time order. */
  function TimeWeighted(prices: seq<PriceInfo>, now: int, decayRate: real, exp: real -> real): (r: seq<Weighted>)
    ensures |r| == |prices|
  {
    MapSeq(ByTime(prices), DecayOf(exp, decayRate, now))
  }

  /** `weightedMedian(prices)`: throws on an empty list; when the decayed
      weights sum to zero, the oldest price; otherwise, scanning the
      normalised weights in ascending price order, the first price at which
      the running weight reaches 0.5 (undefined if it never does). */
  function CcxtWeightedMedian(prices: seq<PriceInfo>, now: int, decayRate: real, exp: real -> real): (r: Result<Option<real>>)
    ensures r.Failure? <==> |prices| == 0
  {
    if |prices| == 0 then Failure("Price list cannot be empty.")
    else
      var ws := TimeWeighted(prices, now, decayRate, exp);
      if TotalWeight(ws) == 0.0 then Ok(Some(ByTime(prices)[0].value))
      else
        var s := NormalizeAndSort(ws);
        assert WeightsOf(s[..0]) == [];
        match FirstReaching(s, 0, 0.0, 0.5)
        case None => Ok(None)
        case Some(j) => Ok(Some(s[j].price))
  }

  /** Values of a list of price records. */
  function PriceValues(prices: seq<PriceInfo>): (r: seq<real>)
    ensures |r| == |prices|
    ensures forall i :: 0 <= i < |prices| ==> r[i] == prices[i].value
  {
    seq(|prices|, i requires 0 <= i < |prices| => prices[i].value)
  }

  /** In exact arithmetic the scan always succeeds, and the result is one of
      the input prices: normalised weights sum to 1, which reaches 0.5. */
  lemma CcxtMedianIsInput(prices: seq<PriceInfo>, now: int, decayRate: real, exp: real -> real)
    requires |prices| > 0
    ensures CcxtWeightedMedian(prices, now, decayRate, exp).Ok?
    ensures CcxtWeightedMedian(prices, now, decayRate, exp).value.Some?
    ensures CcxtWeightedMedian(prices, now, decayRate, exp).value.value in PriceValues(prices)
  {
    var byTime := ByTime(prices);
    var ws := TimeWeighted(prices, now, decayRate, exp);
    assert byTime[0] in multiset(prices);
    if TotalWeight(ws) != 0.0 {
      var s := NormalizeAndSort(ws);
      FirstReachingFound(s, 0.5);
      var j := FirstReaching(s, 0, 0.0, 0.5).value;
      assert s[j].price in multiset(Prices(s));
      assert s[j].price in multiset(Prices(ws));
      var k :| 0 <= k < |ws| && Prices(ws)[k] == s[j].price;
      assert byTime[k] in multiset(prices);
    }
  }

  /** The first price in time order is the oldest. */
  lemma ByTimeOldest(prices: seq<PriceInfo>)
    requires |prices| > 0
    ensures ByTime(prices)[0] in prices
    ensures forall j :: 0 <= j < |prices| ==> ByTime(prices)[0].time <= prices[j].time
  {
    var byTime := ByTime(prices);
    assert byTime[0] in multiset(prices);
    forall j | 0 <= j < |prices| ensures byTime[0].time <= prices[j].time {
      assert prices[j] in multiset(byTime);
      var k :| 0 <= k < |byTime| && byTime[k] == prices[j];
      assert k == 0 || TimeOf(byTime[0]) <= TimeOf(byTime[k]);
    }
  }

  /** When every decayed weight vanishes, the oldest price is returned. */
  lemma CcxtMedianAllStale(prices: seq<PriceInfo>, now: int, decayRate: real, exp: real -> real)
    requires |prices| > 0
    requires TotalWeight(TimeWeighted(prices, now, decayRate, exp)) == 0.0
    ensures CcxtWeightedMedian(prices, now, decayRate, exp) == Ok(Some(ByTime(prices)[0].value))
    ensures ByTime(prices)[0] in prices
    ensures forall j :: 0 <= j < |prices| ==> ByTime(prices)[0].time <= prices[j].time
  {
    ByTimeOldest(prices);
  }

  /** With non-vanishing decayed weights, the median is the first price (in
      ascending order) whose running normalised weight reaches one half. */
  lemma CcxtMedianReachesHalf(prices: seq<PriceInfo>, now: int, decayRate: real, exp: real -> real)
    requires |prices| > 0
    requires TotalWeight(TimeWeighted(prices, now, decayRate, exp)) != 0.0
    ensures var s := NormalizeAndSort(TimeWeighted(prices, now, decayRate, exp));
      exists j :: (0 <= j < |s| && CcxtWeightedMedian(prices, now, decayRate, exp) == Ok(Some(s[j].price)) &&
        CumWeight(s, j + 1) >= 0.5 && forall k :: 0 < k <= j ==> CumWeight(s, k) < 0.5)
  {
    CcxtMedianIsInput(prices, now, decayRate, exp);
    var s := NormalizeAndSort(TimeWeighted(prices, now, decayRate, exp));
    assert WeightsOf(s[..0]) == [];
    var j := FirstReaching(s, 0, 0.0, 0.5).value;
    assert CcxtWeightedMedian(prices, now, decayRate, exp) == Ok(Some(s[j].price));
  }

  // ---------------------------------------------------------------- feed price

  /** The price of one source: its latest record, with USDT-quoted symbols
      converted at `usdtToUsd` and dropped when no rate is available. */
  function SourcePrice(latest: PriceMap, src: Source, usdtToUsd: Option<real>): (r: Option<PriceInfo>)
  {
    match Get(latest, src.symbol)
    case None => None
    case Some(m) =>
      match Get(m, src.exchange)
      case None => None
      case Some(info) =>
        if EndsWith(src.symbol, "USDT") then
          if usdtToUsd.Some? then Some(info.(value := info.value * usdtToUsd.value)) else None
        else Some(info)
  }

  /** The source loop of `getFeedPrice`: the available source prices, in
      configuration order. */
  function CollectPrices(latest: PriceMap, sources: seq<Source>, usdtToUsd: Option<real>): (r: seq<PriceInfo>)
    ensures |r| <= |sources|
    ensures forall i :: 0 <= i < |sources| && SourcePrice(latest, sources[i], usdtToUsd).Some? ==>
      SourcePrice(latest, sources[i], usdtToUsd).value in r
    ensures forall p :: p in r ==> exists i :: 0 <= i < |sources| && SourcePrice(latest, sources[i], usdtToUsd) == Some(p)
  {
    if |sources| == 0 then []
    else
      var rest := CollectPrices(latest, sources[1..], usdtToUsd);
      assert forall i :: 1 <= i < |sources| ==> sources[i] == sources[1..][i - 1];
      match SourcePrice(latest, sources[0], usdtToUsd)
      case None => rest
      case Some(p) => [p] + rest
  }

  /** The prices keep the sources' order: collecting two lists of sources
      is collecting each and concatenating. */
  lemma {:induction false} CollectPricesAppend(latest: PriceMap, a: seq<Source>, b: seq<Source>, usdtToUsd: Option<real>)
    ensures CollectPrices(latest, a + b, usdtToUsd) == CollectPrices(latest, a, usdtToUsd) + CollectPrices(latest, b, usdtToUsd)
    decreases |a|
  {
    if |a| > 0 {
      assert (a + b)[1..] == a[1..] + b;
      CollectPricesAppend(latest, a[1..], b, usdtToUsd);
    } else {
      assert a + b == b;
    }
  }

  /** `getFeedPrice(feedId)` on the state `latest`, with the USDT/USD rate
      looked up by the same procedure `fuel` levels deep (the source recurses
      without bound). The second component is the price state afterwards:
      unchanged when the feed is not configured, purged otherwise. */
  function GetFeedPrice(fuel: nat, config: seq<FeedConfig>, latest: PriceMap, feedId: FeedId, now: int, decayRate: real, exp: real -> real): (r: (Option<real>, PriceMap))
    ensures FindConfig(config, feedId).None? ==> r == (None, latest)
    ensures FindConfig(config, feedId).Some? ==> r.1 == PurgeStale(latest, PRICE_TTL_MS, now)
    decreases fuel, 1
  {
    match FindConfig(config, feedId)
    case None => (None, latest)
    case Some(c) =>
      var purged := PurgeStale(latest, PRICE_TTL_MS, now);
      var prices := CollectPrices(purged, c.sources, UsdtRate(fuel, config, purged, now, decayRate, exp));
      if |prices| == 0 then (None, purged)
      else (CcxtWeightedMedian(prices, now, decayRate, exp).value, purged)
  }

  /** The USDT/USD rate the source loop converts with: the price of the
      USDT/USD feed, one recursion level down. */
  function UsdtRate(fuel: nat, config: seq<FeedConfig>, purged: PriceMap, now: int, decayRate: real, exp: real -> real): Option<real>
    decreases fuel, 0
  {
    if fuel == 0 then None else GetFeedPrice(fuel - 1, config, purged, USDT_USD_FEED, now, decayRate, exp).0
  }

  /** The median of the collected source prices, when there are any, is the
      price of one of the sources. */
  lemma MedianOfCollected(latest: PriceMap, sources: seq<Source>, rate: Option<real>, now: int, decayRate: real, exp: real -> real)
    requires |CollectPrices(latest, sources, rate)| > 0
    ensures CcxtWeightedMedian(CollectPrices(latest, sources, rate), now, decayRate, exp).value.Some?
    ensures exists i :: (0 <= i < |sources| && SourcePrice(latest, sources[i], rate).Some? &&
      SourcePrice(latest, sources[i], rate).value.value == CcxtWeightedMedian(CollectPrices(latest, sources, rate), now, decayRate, exp).value.value)
  {
    var prices := CollectPrices(latest, sources, rate);
    CcxtMedianIsInput(prices, now, decayRate, exp);
    var v := CcxtWeightedMedian(prices, now, decayRate, exp).value.value;
    var k :| 0 <= k < |prices| && PriceValues(prices)[k] == v;
    assert prices[k] in prices;
  }

  /** A defined feed price is the price of one of the feed's sources as
      recorded after the purge, converted when the source is USDT-quoted. */
  lemma FeedPriceFromSource(fuel: nat, config: seq<FeedConfig>, latest: PriceMap, feedId: FeedId, now: int, decayRate: real, exp: real -> real)
    requires GetFeedPrice(fuel, config, latest, feedId, now, decayRate, exp).0.Some?
    ensures FindConfig(config, feedId).Some?
    ensures var sources := FindConfig(config, feedId).value.sources;
      var purged := PurgeStale(latest, PRICE_TTL_MS, now);
      var rate := UsdtRate(fuel, config, purged, now, decayRate, exp);
      exists i :: (0 <= i < |sources| && SourcePrice(purged, sources[i], rate).Some? &&
        SourcePrice(purged, sources[i], rate).value.value == GetFeedPrice(fuel, config, latest, feedId, now, decayRate, exp).0.value)
  {
    var sources := FindConfig(config, feedId).value.sources;
    var purged := PurgeStale(latest, PRICE_TTL_MS, now);
    var rate := UsdtRate(fuel, config, purged, now, decayRate, exp);
    MedianOfCollected(purged, sources, rate, now, decayRate, exp);
  }

  /** A configured feed gets a price exactly when at least one of its
      sources has a price after the purge. */
  lemma FeedPriceDefinedIffSource(fuel: nat, config: seq<FeedConfig>, latest: PriceMap, feedId: FeedId, now: int, decayRate: real, exp: real -> real)
    requires FindConfig(config, feedId).Some?
    ensures var sources := FindConfig(config, feedId).value.sources;
      var purged := PurgeStale(latest, PRICE_TTL_MS, now);
      var rate := UsdtRate(fuel, config, purged, now, decayRate, exp);
      GetFeedPrice(fuel, config, latest, feedId, now, decayRate, exp).0.Some? <==>
        exists i :: 0 <= i < |sources| && SourcePrice(purged, sources[i], rate).Some?
  {
    var sources := FindConfig(config, feedId).value.sources;
    var purged := PurgeStale(latest, PRICE_TTL_MS, now);
    var rate := UsdtRate(fuel, config, purged, now, decayRate, exp);
    var prices := CollectPrices(purged, sources, rate);
    if |prices| > 0 {
      MedianOfCollected(purged, sources, rate, now, decayRate, exp);
    }
  }

  /** Without a rate, USDT-quoted sources are skipped and the others are
      used as recorded. */
  lemma SourcePriceWithoutRate(latest: PriceMap, src: Source)
    ensures EndsWith(src.symbol, "USDT") ==> SourcePrice(latest, src, None).None?
    ensures !EndsWith(src.symbol, "USDT") && Get(latest, src.symbol).Some? ==>
      SourcePrice(latest, src, None) == Get(Get(latest, src.symbol).value, src.exchange)
  {
  }

  /** Entries already past their time-to-live never influence the price:
      asking on the purged state gives the same answer. */
  lemma FeedPriceIgnoresStale(fuel: nat, config: seq<FeedConfig>, latest: PriceMap, feedId: FeedId, now: int, decayRate: real, exp: real -> real)
    ensures GetFeedPrice(fuel, config, PurgeStale(latest, PRICE_TTL_MS, now), feedId, now, decayRate, exp).0 ==
      GetFeedPrice(fuel, config, latest, feedId, now, decayRate, exp).0
  {
    PurgeStaleIdempotent(latest, PRICE_TTL_MS, now);
  }

  // ---------------------------------------------------------------- safe price

  /** `getSafeFeedPrice(feedId)` given the freshly computed `price`: a
      positive price is remembered with the current time and returned;
      otherwise a remembered price younger than five minutes; otherwise 1. */
  function SafeFeedPrice(fallbacks: FallbackMap, feed: FeedId, price: Option<real>, now: int): (r: (real, FallbackMap))
    ensures price.Some? && price.value > 0.0 ==>
      r.0 == price.value && Get(r.1, FeedKey(feed.category, feed.name)) == Some(Stored(price.value, now))
    ensures !(price.Some? && price.value > 0.0) ==> r.1 == fallbacks
    ensures !(price.Some? && price.value > 0.0) ==>
      match Get(fallbacks, FeedKey(feed.category, feed.name))
      case Some(s) => r.0 == (if now - s.time < FALLBACK_MAX_AGE_MS then s.value else SAFE_DEFAULT)
      case None => r.0 == SAFE_DEFAULT
  {
    SafePrice(fallbacks, FeedKey(feed.category, feed.name), price, now, SAFE_DEFAULT)
  }

  /** Only positive prices are ever remembered, so the safe price is always
      positive. */
  lemma SafeFeedPricePositive(fallbacks: FallbackMap, feed: FeedId, price: Option<real>, now: int)
    requires AllPositive(fallbacks)
    ensures SafeFeedPrice(fallbacks, feed, price, now).0 > 0.0
    ensures AllPositive(SafeFeedPrice(fallbacks, feed, price, now).1)
  {
    SafePricePositive(fallbacks, FeedKey(feed.category, feed.name), price, now, SAFE_DEFAULT);
  }

  /** `getValue(feed)` on the provider state: the safe price of the feed,
      with the price state the lookup leaves (purged when the feed is
      configured) and the fallback store it updates. A live positive price
      is the value. */
  function GetValue(fuel: nat, config: seq<FeedConfig>, latest: PriceMap, fallbacks: FallbackMap, feed: FeedId, now: int, decayRate: real, exp: real -> real): (r: (FeedValue, PriceMap, FallbackMap))
    ensures r.0.feed == feed
    ensures FindConfig(config, feed).None? ==> r.1 == latest && r.2 == fallbacks
    ensures FindConfig(config, feed).Some? ==> r.1 == PurgeStale(latest, PRICE_TTL_MS, now)
    ensures var p := GetFeedPrice(fuel, config, latest, feed, now, decayRate, exp).0;
      p.Some? && p.value > 0.0 ==> r.0.value == p.value
  {
    var lookup := GetFeedPrice(fuel, config, latest, feed, now, decayRate, exp);
    var safe := SafeFeedPrice(fallbacks, feed, lookup.0, now);
    (FeedValue(feed, safe.0), lookup.1, safe.1)
  }

  /** With positive fallbacks the value is positive and the fallbacks stay
      positive. */
  lemma GetValuePositive(fuel: nat, config: seq<FeedConfig>, latest: PriceMap, fallbacks: FallbackMap, feed: FeedId, now: int, decayRate: real, exp: real -> real)
    requires AllPositive(fallbacks)
    ensures GetValue(fuel, config, latest, fallbacks, feed, now, decayRate, exp).0.value > 0.0
    ensures AllPositive(GetValue(fuel, config, latest, fallbacks, feed, now, decayRate, exp).2)
  {
    SafeFeedPricePositive(fallbacks, feed, GetFeedPrice(fuel, config, latest, feed, now, decayRate, exp).0, now);
  }

  /** Prices already past their time-to-live never reach `getValue`:
      asking on the purged state gives the same value and fallbacks, and for
      a configured feed the same state. */
  lemma GetValueIgnoresStale(fuel: nat, config: seq<FeedConfig>, latest: PriceMap, fallbacks: FallbackMap, feed: FeedId, now: int, decayRate: real, exp: real -> real)
    ensures var a := GetValue(fuel, config, PurgeStale(latest, PRICE_TTL_MS, now), fallbacks, feed, now, decayRate, exp);
      var b := GetValue(fuel, config, latest, fallbacks, feed, now, decayRate, exp);
      a.0 == b.0 && a.2 == b.2 && (FindConfig(config, feed).Some? ==> a.1 == b.1)
  {
    FeedPriceIgnoresStale(fuel, config, latest, feed, now, decayRate, exp);
    PurgeStaleIdempotent(latest, PRICE_TTL_MS, now);
  }

  /** `loadFallbackPrices`: the parsed file's positive entries, timed now;
      a loaded value is one of the file's values for its key. */
  function LoadFallbacks(parsed: seq<(string, real)>, now: int): (r: FallbackMap)
    ensures AllPositive(r)
    ensures forall k :: (exists v :: (k, v) in parsed && v > 0.0) <==> Get(r, k).Some?
    ensures forall k :: Get(r, k).Some? ==> Get(r, k).value.time == now && (k, Get(r, k).value.value) in parsed
    decreases |parsed|
  {
    if |parsed| == 0 then []
    else
      var init := LoadFallbacks(parsed[..|parsed| - 1], now);
      var (k, v) := parsed[|parsed| - 1];
      assert forall e :: e in parsed <==> e in parsed[..|parsed| - 1] || e == (k, v) by {
        assert parsed == parsed[..|parsed| - 1] + [(k, v)];
      }
      if v > 0.0 then
        PutEntries(init, k, Stored(v, now));
        assert (k, v) in parsed;
        Put(init, k, Stored(v, now))
      else init
  }

  // ---------------------------------------------------------------- volumes

  ghost predicate ValidStores(m: OMap<string, Volumes.VolumeStore>)
  {
    forall e :: e in m ==> Volumes.Valid(e.1)
  }

  lemma ValidStoresOf(vm: VolumeMap, name: string)
    requires ValidVolumes(vm)
    ensures ValidStores(GetOr(vm, name, []))
  {
    if Get(vm, name).Some? {
      var i := Find(vm, name).value;
      assert vm[i] in vm;
    }
  }

  /** The window volume of a valid store, for a window the history holds. */
  function StoreVolume(s: Volumes.VolumeStore, windowSec: int, now: int): real
    requires Volumes.Valid(s) && windowSec <= Volumes.HISTORY_SEC
  {
    Volumes.GetVolume(s, windowSec, now).value
  }

  /** `vol.getVolume(volumeWindow)` for every store of a symbol, in map
      order; a window longer than the history throws at the first store. */
  function WindowVolumes(m: OMap<string, Volumes.VolumeStore>, windowSec: int, now: int): (r: Result<OMap<string, real>>)
    requires ValidStores(m)
    ensures r.Failure? <==> windowSec > Volumes.HISTORY_SEC && |m| > 0
    ensures r.Ok? ==> Keys(r.value) == Keys(m)
  {
    if |m| == 0 then Ok([])
    else if windowSec > Volumes.HISTORY_SEC then
      assert m[0] in m;
      Failure(Volumes.GetVolume(m[0].1, windowSec, now).error)
    else
      Ok(seq(|m|, i requires 0 <= i < |m| => (m[i].0, StoreVolume(m[i].1, windowSec, now))))
  }

  /** Each exchange's window volume is the volume of its store. */
  lemma WindowVolumesGet(m: OMap<string, Volumes.VolumeStore>, windowSec: int, now: int, ex: string)
    requires ValidStores(m) && windowSec <= Volumes.HISTORY_SEC
    ensures Get(m, ex).Some? ==> Volumes.Valid(Get(m, ex).value)
    ensures Get(WindowVolumes(m, windowSec, now).value, ex) ==
      if Get(m, ex).Some? then Some(StoreVolume(Get(m, ex).value, windowSec, now)) else None
  {
    var w := WindowVolumes(m, windowSec, now).value;
    FindSameKeys(m, w, ex);
    if Get(m, ex).Some? {
      assert m[Find(m, ex).value] in m;
    }
  }

  /** Keys that are distinct in the stores stay distinct in the volumes. */
  lemma WindowVolumesDistinct(m: OMap<string, Volumes.VolumeStore>, windowSec: int, now: int)
    requires ValidStores(m) && windowSec <= Volumes.HISTORY_SEC && DistinctKeys(m)
    ensures DistinctKeys(WindowVolumes(m, windowSec, now).value)
  {
    var w := WindowVolumes(m, windowSec, now).value;
    assert forall i :: 0 <= i < |w| ==> w[i].0 == Keys(w)[i] == Keys(m)[i] == m[i].0;
  }

  /** `baseVolume.forEach((vol, ex) => volMap.set(ex, vol))` over the window
      volumes. */
  function SetBase<K(==, !new)>(acc: OMap<K, real>, vols: OMap<K, real>): OMap<K, real>
    decreases |vols|
  {
    if |vols| == 0 then acc else SetBase(Put(acc, vols[0].0, vols[0].1), vols[1..])
  }

  /** The base pass keeps the keys of the totals distinct. */
  lemma {:induction false} SetBaseDistinct<K(!new)>(acc: OMap<K, real>, vols: OMap<K, real>)
    requires DistinctKeys(acc)
    ensures DistinctKeys(SetBase(acc, vols))
    decreases |vols|
  {
    if |vols| > 0 {
      SetBaseDistinct(Put(acc, vols[0].0, vols[0].1), vols[1..]);
    }
  }

  /** `k` is the key of exactly one entry of `m`. */
  predicate OnceIn<K(==), V>(m: OMap<K, V>, k: K)
    decreases |m|
  {
    |m| > 0 && if m[0].0 == k then !HasKey(m[1..], k) else OnceIn(m[1..], k)
  }

  /** In a map with distinct keys, a present key occurs exactly once. */
  lemma {:induction false} DistinctOnce<K, V>(m: OMap<K, V>, k: K)
    requires DistinctKeys(m)
    ensures HasKey(m, k) ==> OnceIn(m, k)
    decreases |m|
  {
    if |m| > 0 {
      DistinctTail(m);
      if m[0].0 != k {
        TailLookup(m, k);
        DistinctOnce(m[1..], k);
      }
    }
  }

  /** After the base pass, an exchange with a volume maps to it, and every
      other key keeps its accumulated value. */
  lemma {:induction false} SetBaseGet<K(!new)>(acc: OMap<K, real>, vols: OMap<K, real>, ex: K)
    requires HasKey(vols, ex) ==> OnceIn(vols, ex)
    ensures Get(SetBase(acc, vols), ex) == if HasKey(vols, ex) then Get(vols, ex) else Get(acc, ex)
    decreases |vols|
  {
    if |vols| > 0 {
      GetHead(vols, ex);
      if vols[0].0 != ex {
        TailLookup(vols, ex);
      }
      SetBaseGet(Put(acc, vols[0].0, vols[0].1), vols[1..], ex);
    }
  }

  /** `usdtToUsd ? volume * usdtToUsd : undefined`, then `?? 0`. */
  function UsdVolume(volume: real, usdtToUsd: Option<real>): (r: real)
    ensures usdtToUsd.None? || usdtToUsd.value == 0.0 ==> r == 0.0
  {
    if usdtToUsd.Some? && usdtToUsd.value != 0.0 then volume * usdtToUsd.value else 0.0
  }

  /** `volMap.set(ex, (volMap.get(ex) ?? 0) + (usdVol ?? 0))`. */
  function AddConverted<K(==, !new)>(acc: OMap<K, real>, ex: K, volume: real, usdtToUsd: Option<real>): OMap<K, real>
  {
    Put(acc, ex, GetOr(acc, ex, 0.0) + UsdVolume(volume, usdtToUsd))
  }

  /** The USDT roll-up: each USDT window volume, converted, is added to the
      exchange's entry (created at 0 if missing). */
  function AddUsdt<K(==, !new)>(acc: OMap<K, real>, vols: OMap<K, real>, usdtToUsd: Option<real>): OMap<K, real>
    decreases |vols|
  {
    if |vols| == 0 then acc else AddUsdt(AddConverted(acc, vols[0].0, vols[0].1, usdtToUsd), vols[1..], usdtToUsd)
  }

  /** The USDT pass keeps the keys of the totals distinct. */
  lemma {:induction false} AddUsdtDistinct<K(!new)>(acc: OMap<K, real>, vols: OMap<K, real>, usdtToUsd: Option<real>)
    requires DistinctKeys(acc)
    ensures DistinctKeys(AddUsdt(acc, vols, usdtToUsd))
    decreases |vols|
  {
    if |vols| > 0 {
      AddUsdtDistinct(AddConverted(acc, vols[0].0, vols[0].1, usdtToUsd), vols[1..], usdtToUsd);
    }
  }

  /** After the USDT pass, an exchange with a USDT volume gains it, converted,
      on top of its entry (0 if missing), and every other key keeps its
      accumulated value. */
  lemma AddUsdtGet<K(!new)>(acc: OMap<K, real>, vols: OMap<K, real>, usdtToUsd: Option<real>, ex: K)
    requires HasKey(vols, ex) ==> OnceIn(vols, ex)
    ensures Get(AddUsdt(acc, vols, usdtToUsd), ex) ==
      if HasKey(vols, ex) then Some(GetOr(acc, ex, 0.0) + UsdVolume(Get(vols, ex).value, usdtToUsd)) else Get(acc, ex)
  {
    if HasKey(vols, ex) {
      var v, base := Get(vols, ex).value, GetOr(acc, ex, 0.0);
      AddUsdtGetPresent(acc, vols, usdtToUsd, ex, v, base, Some(base + UsdVolume(v, usdtToUsd)));
    } else {
      AddUsdtGetAbsent(acc, vols, usdtToUsd, ex);
    }
  }

  /** An exchange without a USDT volume keeps its accumulated value. */
  lemma {:induction false} AddUsdtGetAbsent<K(!new)>(acc: OMap<K, real>, vols: OMap<K, real>, usdtToUsd: Option<real>, ex: K)
    requires !HasKey(vols, ex)
    ensures Get(AddUsdt(acc, vols, usdtToUsd), ex) == Get(acc, ex)
    decreases |vols|
  {
    if |vols| > 0 {
      TailLookup(vols, ex);
      var acc' := AddConverted(acc, vols[0].0, vols[0].1, usdtToUsd);
      ConvertedOther(acc, vols[0].0, vols[0].1, usdtToUsd, ex);
      AddUsdtGetAbsent(acc', vols[1..], usdtToUsd, ex);
    }
  }

  /** An exchange whose single USDT volume is `v`, on top of an accumulated
      `base`, ends at `base` plus `v` converted (`out`). */
  lemma {:induction false} AddUsdtGetPresent<K(!new)>(acc: OMap<K, real>, vols: OMap<K, real>, usdtToUsd: Option<real>, ex: K, v: real, base: real, out: Option<real>)
    requires OnceIn(vols, ex) && Get(vols, ex) == Some(v) && GetOr(acc, ex, 0.0) == base
    requires out == Some(base + UsdVolume(v, usdtToUsd))
    ensures Get(AddUsdt(acc, vols, usdtToUsd), ex) == out
    decreases |vols|, 1
  {
    if ex == vols[0].0 {
      GetHead(vols, ex);
      AddUsdtGetFirst(acc, vols, usdtToUsd, ex, v, base, out);
    } else {
      AddUsdtGetLater(acc, vols, usdtToUsd, ex, v, base, out);
    }
  }

  /** The first exchange gains its converted volume in the first step, and
      no later step touches it. */
  lemma {:induction false} AddUsdtGetFirst<K(!new)>(acc: OMap<K, real>, vols: OMap<K, real>, usdtToUsd: Option<real>, ex: K, v: real, base: real, out: Option<real>)
    requires |vols| > 0 && vols[0] == (ex, v) && !HasKey(vols[1..], ex) && GetOr(acc, ex, 0.0) == base
    requires out == Some(base + UsdVolume(v, usdtToUsd))
    ensures Get(AddUsdt(acc, vols, usdtToUsd), ex) == out
  {
    var acc' := AddConverted(acc, vols[0].0, vols[0].1, usdtToUsd);
    AddUsdtGetAbsent(acc', vols[1..], usdtToUsd, ex);
  }

  /** A later exchange is untouched by the first step. */
  lemma {:induction false} AddUsdtGetLater<K(!new)>(acc: OMap<K, real>, vols: OMap<K, real>, usdtToUsd: Option<real>, ex: K, v: real, base: real, out: Option<real>)
    requires |vols| > 0 && ex != vols[0].0 && OnceIn(vols[1..], ex) && Get(vols[1..], ex) == Some(v) && GetOr(acc, ex, 0.0) == base
    requires out == Some(base + UsdVolume(v, usdtToUsd))
    ensures Get(AddUsdt(acc, vols, usdtToUsd), ex) == out
    decreases |vols|, 0
  {
    var acc' := AddConverted(acc, vols[0].0, vols[0].1, usdtToUsd);
    ConvertedOther(acc, vols[0].0, vols[0].1, usdtToUsd, ex);
    AddUsdtGetPresent(acc', vols[1..], usdtToUsd, ex, v, base, out);
  }

  /** A key other than the first is looked up in the rest of the map. */
  lemma TailLookup<K, V>(m: OMap<K, V>, k: K)
    requires |m| > 0 && k != m[0].0
    ensures HasKey(m, k) == HasKey(m[1..], k) && Get(m, k) == Get(m[1..], k)
  {
  }

  /** Converting one exchange's volume leaves every other exchange alone. */
  lemma ConvertedOther<K(!new)>(acc: OMap<K, real>, k: K, volume: real, usdtToUsd: Option<real>, ex: K)
    requires ex != k
    ensures Get(AddConverted(acc, k, volume, usdtToUsd), ex) == Get(acc, ex)
    ensures GetOr(AddConverted(acc, k, volume, usdtToUsd), ex, 0.0) == GetOr(acc, ex, 0.0)
  {
  }

  /** Without a usable rate the roll-up adds nothing: every exchange keeps
      its volume, and USDT-only exchanges appear with 0. */
  lemma {:induction false} AddUsdtWithoutRate<K(!new)>(acc: OMap<K, real>, vols: OMap<K, real>, ex: K)
    ensures GetOr(AddUsdt(acc, vols, None), ex, 0.0) == GetOr(acc, ex, 0.0)
    decreases |vols|
  {
    if |vols| > 0 {
      var acc' := AddConverted(acc, vols[0].0, vols[0].1, None);
      if ex != vols[0].0 {
        assert Get(acc', ex) == Get(acc, ex);
      }
      AddUsdtWithoutRate(acc', vols[1..], ex);
    }
  }

  /** `Math.round(volume)`, kept as a real. */
  function RoundVolume(v: real): real
  {
    Round(v) as real
  }

  /** The stores of a symbol, none if it has no entry. */
  function StoresOf(vm: VolumeMap, name: string): (r: OMap<string, Volumes.VolumeStore>)
    requires ValidVolumes(vm)
    ensures ValidStores(r)
  {
    ValidStoresOf(vm, name);
    GetOr(vm, name, [])
  }

  /** `feed.name.replace("/USD", "/USDT")`. */
  function UsdtName(name: string): string
  {
    ReplaceFirst(name, "/USD", "/USDT")
  }

  /** The stores whose volumes a feed converts: the "/USDT" pair's for a
      "/USD" feed, none otherwise. */
  function AltStoresOf(vm: VolumeMap, feed: FeedId): (r: OMap<string, Volumes.VolumeStore>)
    requires ValidVolumes(vm)
    ensures ValidStores(r)
  {
    if EndsWith(feed.name, "/USD") then StoresOf(vm, UsdtName(feed.name)) else []
  }

  /** The per-exchange totals before rounding: the base window volumes, then
      each converted window volume added on top. */
  function Totals(base: OMap<string, Volumes.VolumeStore>, alt: OMap<string, Volumes.VolumeStore>, windowSec: int, now: int, usdtToUsd: Option<real>): (r: Result<OMap<string, real>>)
    requires ValidStores(base) && ValidStores(alt)
    ensures r.Failure? <==> windowSec > Volumes.HISTORY_SEC && (|base| > 0 || |alt| > 0)
  {
    match WindowVolumes(base, windowSec, now)
    case Failure(e) => Failure(e)
    case Ok(bv) =>
      match WindowVolumes(alt, windowSec, now)
      case Failure(e) => Failure(e)
      case Ok(av) => Ok(AddUsdt(SetBase([], bv), av, usdtToUsd))
  }

  /** The volume `getVolumes` reports for an exchange, before rounding, from
      the base and the USDT window volumes: with a USDT volume, its base
      volume (0 if none) plus the converted USDT volume; otherwise its base
      volume, and none when it has neither. */
  function Reported<K(==)>(bv: OMap<K, real>, av: OMap<K, real>, ex: K, usdtToUsd: Option<real>): Option<real>
  {
    if HasKey(av, ex) then Some(GetOr(bv, ex, 0.0) + UsdVolume(Get(av, ex).value, usdtToUsd))
    else Get(bv, ex)
  }

  /** The totals map each exchange to its reported volume, once each. */
  lemma TotalsGet(base: OMap<string, Volumes.VolumeStore>, alt: OMap<string, Volumes.VolumeStore>, windowSec: int, now: int, usdtToUsd: Option<real>, ex: string)
    requires ValidStores(base) && ValidStores(alt) && windowSec <= Volumes.HISTORY_SEC
    requires DistinctKeys(base) && DistinctKeys(alt)
    ensures Get(Totals(base, alt, windowSec, now, usdtToUsd).value, ex) ==
      Reported(WindowVolumes(base, windowSec, now).value, WindowVolumes(alt, windowSec, now).value, ex, usdtToUsd)
    ensures DistinctKeys(Totals(base, alt, windowSec, now, usdtToUsd).value)
  {
    var bv, av := WindowVolumes(base, windowSec, now).value, WindowVolumes(alt, windowSec, now).value;
    assert Totals(base, alt, windowSec, now, usdtToUsd) == Ok(AddUsdt(SetBase([], bv), av, usdtToUsd));
    WindowVolumesDistinct(base, windowSec, now);
    WindowVolumesDistinct(alt, windowSec, now);
    DistinctOnce(bv, ex);
    DistinctOnce(av, ex);
    CombineGet(bv, av, usdtToUsd, ex);
    SetBaseDistinct([], bv);
    AddUsdtDistinct(SetBase([], bv), av, usdtToUsd);
  }

  /** Setting the base volumes and then adding the converted USDT volumes
      gives each exchange its reported volume. */
  lemma CombineGet<K(!new)>(bv: OMap<K, real>, av: OMap<K, real>, usdtToUsd: Option<real>, ex: K)
    requires HasKey(bv, ex) ==> OnceIn(bv, ex)
    requires HasKey(av, ex) ==> OnceIn(av, ex)
    ensures Get(AddUsdt(SetBase([], bv), av, usdtToUsd), ex) == Reported(bv, av, ex, usdtToUsd)
  {
    if HasKey(av, ex) {
      CombineGetPresent(bv, av, usdtToUsd, ex, Get(av, ex).value, GetOr(bv, ex, 0.0), Reported(bv, av, ex, usdtToUsd));
    } else {
      CombineGetAbsent(bv, av, usdtToUsd, ex, Reported(bv, av, ex, usdtToUsd));
    }
  }

  /** An exchange without a USDT volume is reported with its base volume. */
  lemma CombineGetAbsent<K(!new)>(bv: OMap<K, real>, av: OMap<K, real>, usdtToUsd: Option<real>, ex: K, out: Option<real>)
    requires HasKey(bv, ex) ==> OnceIn(bv, ex)
    requires !HasKey(av, ex) && out == Get(bv, ex)
    ensures Get(AddUsdt(SetBase([], bv), av, usdtToUsd), ex) == out
  {
    SetBaseGet([], bv, ex);
    AddUsdtGetAbsent(SetBase([], bv), av, usdtToUsd, ex);
  }

  /** An exchange with a USDT volume `v` and a base volume `base` (0 if
      none) is reported with `base` plus `v` converted (`out`). */
  lemma CombineGetPresent<K(!new)>(bv: OMap<K, real>, av: OMap<K, real>, usdtToUsd: Option<real>, ex: K, v: real, base: real, out: Option<real>)
    requires HasKey(bv, ex) ==> OnceIn(bv, ex)
    requires OnceIn(av, ex) && Get(av, ex) == Some(v) && GetOr(bv, ex, 0.0) == base
    requires out == Some(base + UsdVolume(v, usdtToUsd))
    ensures Get(AddUsdt(SetBase([], bv), av, usdtToUsd), ex) == out
  {
    SetBaseGet([], bv, ex);
    assert GetOr(SetBase([], bv), ex, 0.0) == base;
    AddUsdtGetPresent(SetBase([], bv), av, usdtToUsd, ex, v, base, out);
  }

  /** The totals of one feed: the base symbol's stores, plus for "/USD"
      feeds the "/USDT" stores (an empty roll-up otherwise). */
  function FeedTotals(feed: FeedId, vm: VolumeMap, windowSec: int, now: int, usdtToUsd: Option<real>): (r: Result<OMap<string, real>>)
    requires ValidVolumes(vm)
  {
    Totals(StoresOf(vm, feed.name), AltStoresOf(vm, feed), windowSec, now, usdtToUsd)
  }

  /** One feed of `getVolumes`: the totals, each rounded. */
  function FeedVolumes(feed: FeedId, vm: VolumeMap, windowSec: int, now: int, usdtToUsd: Option<real>): (r: Result<FeedVolume>)
    requires ValidVolumes(vm)
    ensures r.Ok? ==> r.value.feed == feed
    ensures r.Failure? <==> windowSec > Volumes.HISTORY_SEC && (|StoresOf(vm, feed.name)| > 0 || |AltStoresOf(vm, feed)| > 0)
  {
    match FeedTotals(feed, vm, windowSec, now, usdtToUsd)
    case Failure(e) => Failure(e)
    case Ok(t) => Ok(FeedVolume(feed, MapValues(t, RoundVolume)))
  }

  /** The reported volume of an exchange: its base-symbol window volume plus,
      for a "/USD" feed, its "/USDT" window volume times the USDT/USD rate (0
      without a usable rate), rounded; an exchange with neither store is not
      reported, and each exchange is reported once. */
  lemma FeedVolumesGet(feed: FeedId, vm: VolumeMap, windowSec: int, now: int, usdtToUsd: Option<real>, ex: string)
    requires ValidVolumes(vm) && windowSec <= Volumes.HISTORY_SEC
    requires DistinctKeys(StoresOf(vm, feed.name)) && DistinctKeys(AltStoresOf(vm, feed))
    ensures var v := Reported(WindowVolumes(StoresOf(vm, feed.name), windowSec, now).value,
                              WindowVolumes(AltStoresOf(vm, feed), windowSec, now).value, ex, usdtToUsd);
      Get(FeedVolumes(feed, vm, windowSec, now, usdtToUsd).value.volumes, ex)
        == if v.Some? then Some(RoundVolume(v.value)) else None
    ensures DistinctKeys(FeedVolumes(feed, vm, windowSec, now, usdtToUsd).value.volumes)
  {
    var t := FeedTotals(feed, vm, windowSec, now, usdtToUsd).value;
    TotalsGet(StoresOf(vm, feed.name), AltStoresOf(vm, feed), windowSec, now, usdtToUsd, ex);
    MapValuesGet(t, RoundVolume, ex);
  }

  /** `getVolumes(feeds, volumeWindow)`: one entry per feed, in order; the
      first failing feed aborts the report. */
  function GetVolumes(feeds: seq<FeedId>, vm: VolumeMap, windowSec: int, now: int, usdtToUsd: Option<real>): (r: Result<seq<FeedVolume>>)
    requires ValidVolumes(vm)
    ensures r.Ok? ==> |r.value| == |feeds| && forall i :: 0 <= i < |feeds| ==> r.value[i].feed == feeds[i]
    ensures r.Ok? ==> forall i :: 0 <= i < |feeds| ==> FeedVolumes(feeds[i], vm, windowSec, now, usdtToUsd) == Ok(r.value[i])
    ensures r.Failure? ==> exists i :: 0 <= i < |feeds| && FeedVolumes(feeds[i], vm, windowSec, now, usdtToUsd).Failure?
    ensures windowSec <= Volumes.HISTORY_SEC ==> r.Ok?
    decreases |feeds|
  {
    if |feeds| == 0 then Ok([])
    else
      match FeedVolumes(feeds[0], vm, windowSec, now, usdtToUsd)
      case Failure(e) => Failure(e)
      case Ok(fv) =>
        match GetVolumes(feeds[1..], vm, windowSec, now, usdtToUsd)
        case Failure(e) => Failure(e)
        case Ok(rest) => Ok([fv] + rest)
  }

  /** Without "/USDT" stores, or with a window too long for any query to
      succeed, a feed's entry does not depend on the rate. */
  lemma FeedVolumesRateUnused(feed: FeedId, vm: VolumeMap, windowSec: int, now: int, rate1: Option<real>, rate2: Option<real>)
    requires ValidVolumes(vm)
    requires windowSec > Volumes.HISTORY_SEC || |AltStoresOf(vm, feed)| == 0
    ensures FeedVolumes(feed, vm, windowSec, now, rate1) == FeedVolumes(feed, vm, windowSec, now, rate2)
  {
  }

  /** The same for the whole report. */
  lemma {:induction false} GetVolumesRateUnused(feeds: seq<FeedId>, vm: VolumeMap, windowSec: int, now: int, rate1: Option<real>, rate2: Option<real>)
    requires ValidVolumes(vm)
    requires windowSec > Volumes.HISTORY_SEC || forall i :: 0 <= i < |feeds| ==> |AltStoresOf(vm, feeds[i])| == 0
    ensures GetVolumes(feeds, vm, windowSec, now, rate1) == GetVolumes(feeds, vm, windowSec, now, rate2)
    decreases |feeds|
  {
    if |feeds| > 0 {
      FeedVolumesRateUnused(feeds[0], vm, windowSec, now, rate1, rate2);
      GetVolumesRateUnused(feeds[1..], vm, windowSec, now, rate1, rate2);
    }
  }

  /** `getVolumes` looks the USDT/USD price up exactly when every window
      query succeeds and some "/USD" feed has "/USDT" stores: the first such
      store's window query runs before its conversion. */
  predicate AsksRate(feeds: seq<FeedId>, vm: VolumeMap, windowSec: int)
    requires ValidVolumes(vm)
  {
    windowSec <= Volumes.HISTORY_SEC && exists i :: 0 <= i < |feeds| && |AltStoresOf(vm, feeds[i])| > 0
  }

  /** Asking again on the state the first lookup left gives the same price
      and the same state, so the source's repeated lookups while the rate is
      missing or zero change nothing under one clock. */
  lemma RepeatedLookup(fuel: nat, config: seq<FeedConfig>, latest: PriceMap, feedId: FeedId, now: int, decayRate: real, exp: real -> real)
    ensures var first := GetFeedPrice(fuel, config, latest, feedId, now, decayRate, exp);
      GetFeedPrice(fuel, config, first.1, feedId, now, decayRate, exp) == first
  {
    if FindConfig(config, feedId).Some? {
      FeedPriceIgnoresStale(fuel, config, latest, feedId, now, decayRate, exp);
      PurgeStaleIdempotent(latest, PRICE_TTL_MS, now);
    }
  }

  /** `getVolumes(feeds, volumeWindow)` on the provider state: the rate is
      the USDT/USD feed's price on that state, and the lookup (when it
      happens) leaves the prices purged. The report is the one `GetVolumes`
      gives with that rate; the prices are purged exactly when the lookup
      happens for a configured USDT/USD feed, and untouched otherwise. */
  function GetVolumesOnState(fuel: nat, config: seq<FeedConfig>, latest: PriceMap, feeds: seq<FeedId>, vm: VolumeMap, windowSec: int, now: int, decayRate: real, exp: real -> real): (r: (Result<seq<FeedVolume>>, PriceMap))
    requires ValidVolumes(vm)
    ensures r.0 == GetVolumes(feeds, vm, windowSec, now, GetFeedPrice(fuel, config, latest, USDT_USD_FEED, now, decayRate, exp).0)
    ensures AsksRate(feeds, vm, windowSec) && FindConfig(config, USDT_USD_FEED).Some? ==> r.1 == PurgeStale(latest, PRICE_TTL_MS, now)
    ensures !AsksRate(feeds, vm, windowSec) || FindConfig(config, USDT_USD_FEED).None? ==> r.1 == latest
  {
    if AsksRate(feeds, vm, windowSec) then
      var lookup := GetFeedPrice(fuel, config, latest, USDT_USD_FEED, now, decayRate, exp);
      (GetVolumes(feeds, vm, windowSec, now, lookup.0), lookup.1)
    else
      GetVolumesRateUnused(feeds, vm, windowSec, now, None, GetFeedPrice(fuel, config, latest, USDT_USD_FEED, now, decayRate, exp).0);
      (GetVolumes(feeds, vm, windowSec, now, None), latest)
  }

  /** Each exchange of feed i in the report on the provider state gets its
      base window volume plus its "/USDT" window volume times the USDT/USD
      feed's price on that state, rounded. */
  lemma GetVolumesOnStateGet(fuel: nat, config: seq<FeedConfig>, latest: PriceMap, feeds: seq<FeedId>, vm: VolumeMap, windowSec: int, now: int, decayRate: real, exp: real -> real, i: nat, ex: string)
    requires ValidVolumes(vm) && windowSec <= Volumes.HISTORY_SEC && i < |feeds|
    requires DistinctKeys(StoresOf(vm, feeds[i].name)) && DistinctKeys(AltStoresOf(vm, feeds[i]))
    ensures GetVolumesOnState(fuel, config, latest, feeds, vm, windowSec, now, decayRate, exp).0.Ok?
    ensures var rate := GetFeedPrice(fuel, config, latest, USDT_USD_FEED, now, decayRate, exp).0;
      var v := Reported(WindowVolumes(StoresOf(vm, feeds[i].name), windowSec, now).value,
                        WindowVolumes(AltStoresOf(vm, feeds[i]), windowSec, now).value, ex, rate);
      Get(GetVolumesOnState(fuel, config, latest, feeds, vm, windowSec, now, decayRate, exp).0.value[i].volumes, ex)
        == if v.Some? then Some(RoundVolume(v.value)) else None
  {
    var rate := GetFeedPrice(fuel, config, latest, USDT_USD_FEED, now, decayRate, exp).0;
    FeedVolumesGet(feeds[i], vm, windowSec, now, rate, ex);
  }

  /** A window longer than the history fails as soon as a feed has a store. */
  lemma GetVolumesRejectsLongWindow(feeds: seq<FeedId>, vm: VolumeMap, windowSec: int, now: int, usdtToUsd: Option<real>)
    requires ValidVolumes(vm)
    requires windowSec > Volumes.HISTORY_SEC
    requires |feeds| > 0 && |GetOr(vm, feeds[0].name, [])| > 0
    ensures GetVolumes(feeds, vm, windowSec, now, usdtToUsd).Failure?
  {
    ValidStoresOf(vm, feeds[0].name);
  }
}
