/** The price state of `CcxtFeed`: the latest price per symbol and exchange,
    its time-to-live purge, the state update of one batch of watched trades,
    the per-exchange volume stores, the feed configuration check and the
    exchange-to-symbols index built at start-up. Exchange I/O is left out:
    a batch of trades is an input. */
module CcxtState {
  import opened Common
  import opened Sorting
  import opened Market
  import Volumes

  /** The last price seen for a symbol on an exchange (`PriceInfo`). */
  datatype PriceInfo = PriceInfo(value: real, time: int, exchange: string)

  /** `latestPrice`: symbol -> exchange -> last price. */
  type PriceMap = OMap<string, OMap<string, PriceInfo>>

  /** `volumes`: symbol -> exchange -> volume store. */
  type VolumeMap = OMap<string, OMap<string, Volumes.VolumeStore>>

  /** One configured source of a feed. */
  datatype Source = Source(exchange: string, symbol: string)

  /** One entry of the feed configuration. */
  datatype FeedConfig = FeedConfig(feed: FeedId, sources: seq<Source>)

  /** The feed every USDT price is converted with. */
  const USDT_USD_FEED: FeedId := FeedId(1, "USDT/USD")

  // ---------------------------------------------------------------- configuration

  /** `feedsEqual(a, b)`: same category and same name. */
  predicate FeedsEqual(a: FeedId, b: FeedId)
  {
    a.category == b.category && a.name == b.name
  }

  /** Two feed identifiers are equal exactly when they are the same value. */
  lemma FeedsEqualIsEquality(a: FeedId, b: FeedId)
    ensures FeedsEqual(a, b) <==> a == b
  {
  }

  /** The index of the first configuration entry for `feedId`. */
  function FindConfigIndex(config: seq<FeedConfig>, feedId: FeedId, from: nat): (r: Option<nat>)
    requires from <= |config|
    ensures r.Some? ==> from <= r.value < |config| && FeedsEqual(config[r.value].feed, feedId)
    ensures r.Some? ==> forall j :: from <= j < r.value ==> !FeedsEqual(config[j].feed, feedId)
    ensures r.None? ==> forall j :: from <= j < |config| ==> !FeedsEqual(config[j].feed, feedId)
    decreases |config| - from
  {
    if from == |config| then None
    else if FeedsEqual(config[from].feed, feedId) then Some(from)
    else FindConfigIndex(config, feedId, from + 1)
  }

  /** `config.find(c => feedsEqual(c.feed, feedId))`: the first entry for the feed. */
  function FindConfig(config: seq<FeedConfig>, feedId: FeedId): (r: Option<FeedConfig>)
    ensures r.Some? ==> r.value in config && r.value.feed == feedId
    ensures r.None? <==> forall i :: 0 <= i < |config| ==> config[i].feed != feedId
    ensures r.Some? ==> exists i :: (0 <= i < |config| && config[i] == r.value &&
      forall j :: 0 <= j < i ==> config[j].feed != feedId)
  {
    match FindConfigIndex(config, feedId, 0)
    case None => None
    case Some(i) => Some(config[i])
  }

  /** The business check of `loadConfig`: a configuration without a USDT/USD
      feed is rejected. */
  function CheckConfig(config: seq<FeedConfig>): (r: Result<seq<FeedConfig>>)
    ensures r.Ok? <==> exists i :: 0 <= i < |config| && config[i].feed == USDT_USD_FEED
    ensures r.Ok? ==> r.value == config
  {
    if FindConfig(config, USDT_USD_FEED).None? then
      Failure("Must provide USDT feed sources, as it is used for USD conversion.")
    else Ok(config)
  }

  // ---------------------------------------------------------------- exchange index

  /** Every source of every feed, in configuration order. */
  function AllSources(config: seq<FeedConfig>): (r: seq<Source>)
    ensures forall i, s :: 0 <= i < |config| && s in config[i].sources ==> s in r
    ensures forall s :: s in r ==> exists i :: 0 <= i < |config| && s in config[i].sources
  {
    if |config| == 0 then []
    else
      var rest := AllSources(config[1..]);
      assert forall i :: 1 <= i < |config| ==> config[i] == config[1..][i - 1];
      config[0].sources + rest
  }

  /** One step of the start-up loop: the source's symbol joins its
      exchange's set (a set keeps insertion order and ignores repeats). */
  function AddSource(m: OMap<string, seq<string>>, s: Source): (r: OMap<string, seq<string>>)
  {
    var syms := GetOr(m, s.exchange, []);
    Put(m, s.exchange, if s.symbol in syms then syms else syms + [s.symbol])
  }

  /** `exchangeToSymbols`: exchange -> the set of its configured symbols. */
  function ExchangeSymbols(sources: seq<Source>): (r: OMap<string, seq<string>>)
    decreases |sources|
  {
    if |sources| == 0 then []
    else AddSource(ExchangeSymbols(sources[..|sources| - 1]), sources[|sources| - 1])
  }

  /** A symbol is listed under an exchange exactly when some source pairs
      them; every list is free of repeats; exchanges appear once. */
  lemma {:induction false} ExchangeSymbolsExact(sources: seq<Source>)
    ensures DistinctKeys(ExchangeSymbols(sources))
    ensures forall ex, sym ::
      ((Get(ExchangeSymbols(sources), ex).Some? && sym in Get(ExchangeSymbols(sources), ex).value) <==> Source(ex, sym) in sources)
    ensures forall ex :: Get(ExchangeSymbols(sources), ex).Some? ==> NoRepeats(Get(ExchangeSymbols(sources), ex).value)
    decreases |sources|
  {
    if |sources| > 0 {
      var init := sources[..|sources| - 1];
      ExchangeSymbolsExact(init);
      assert sources == init + [sources[|sources| - 1]];
      var m, s := ExchangeSymbols(init), sources[|sources| - 1];
      var syms := GetOr(m, s.exchange, []);
      var syms' := if s.symbol in syms then syms else syms + [s.symbol];
      assert NoRepeats(syms');
      var r := AddSource(m, s);
      forall ex, sym
        ensures (Get(r, ex).Some? && sym in Get(r, ex).value) <==> Source(ex, sym) in init + [s]
      {
        if ex == s.exchange {
          assert Get(r, ex) == Some(syms');
        } else {
          assert Get(r, ex) == Get(m, ex);
        }
      }
    }
  }

  ghost predicate NoRepeats<T>(s: seq<T>)
  {
    forall i, j :: 0 <= i < j < |s| ==> s[i] != s[j]
  }

  // ---------------------------------------------------------------- latest prices

  /** `setPrice(exchange, symbol, price, timestamp)`: the (symbol, exchange)
      record is replaced by a new one, timed at `timestamp ?? now`. */
  function SetPrice(latest: PriceMap, exchange: string, symbol: string, price: real, timestamp: Option<int>, now: int): (r: PriceMap)
    ensures Get(r, symbol).Some?
    ensures Get(Get(r, symbol).value, exchange) == Some(PriceInfo(price, if timestamp.Some? then timestamp.value else now, exchange))
    ensures forall e :: e != exchange ==> Get(Get(r, symbol).value, e) == Get(GetOr(latest, symbol, []), e)
    ensures forall s :: s != symbol ==> Get(r, s) == Get(latest, s)
    ensures DistinctKeys(latest) ==> DistinctKeys(r)
  {
    var prices := GetOr(latest, symbol, []);
    var info := PriceInfo(price, if timestamp.Some? then timestamp.value else now, exchange);
    Put(latest, symbol, Put(prices, exchange, info))
  }

  /** An entry survives the purge unless it is older than the time-to-live. */
  function Fresh(ttlMs: int, now: int): PriceInfo -> bool
  {
    (info: PriceInfo) => !(now - info.time > ttlMs)
  }

  /** `purgeStalePrices(ttlMs)`: every stale entry is deleted and a symbol
      left without exchanges is deleted with it. */
  function PurgeStale(latest: PriceMap, ttlMs: int, now: int): (r: PriceMap)
    ensures |r| <= |latest|
    decreases |latest|
  {
    if |latest| == 0 then []
    else
      var kept := FilterValues(latest[0].1, Fresh(ttlMs, now));
      var rest := PurgeStale(latest[1..], ttlMs, now);
      if |kept| == 0 then rest else [(latest[0].0, kept)] + rest
  }

  /** What the purge leaves for one symbol. */
  function PurgedEntry(latest: PriceMap, symbol: string, ttlMs: int, now: int): Option<OMap<string, PriceInfo>>
  {
    match Get(latest, symbol)
    case None => None
    case Some(m) =>
      var kept := FilterValues(m, Fresh(ttlMs, now));
      if |kept| == 0 then None else Some(kept)
  }

  /** Looking a symbol up after the purge gives its fresh entries, or
      nothing when none were fresh. */
  lemma {:induction false} PurgeStaleGet(latest: PriceMap, ttlMs: int, now: int, symbol: string)
    requires DistinctKeys(latest)
    ensures Get(PurgeStale(latest, ttlMs, now), symbol) == PurgedEntry(latest, symbol, ttlMs, now)
    decreases |latest|
  {
    if |latest| > 0 {
      var tail := latest[1..];
      DistinctTail(latest);
      PurgeStaleGet(tail, ttlMs, now, symbol);
      GetHead(latest, symbol);
      var kept := FilterValues(latest[0].1, Fresh(ttlMs, now));
      if |kept| > 0 {
        var purged := [(latest[0].0, kept)] + PurgeStale(tail, ttlMs, now);
        assert purged[1..] == PurgeStale(tail, ttlMs, now);
        GetHead(purged, symbol);
      }
    }
  }

  /** After the purge, an (exchange, record) pair is listed under a symbol
      exactly when it was listed before and is not stale. */
  lemma PurgeStaleEntries(latest: PriceMap, ttlMs: int, now: int, symbol: string, e: (string, PriceInfo))
    requires DistinctKeys(latest)
    ensures var r := Get(PurgeStale(latest, ttlMs, now), symbol);
      (r.Some? && e in r.value) <==> (Get(latest, symbol).Some? && e in Get(latest, symbol).value && !(now - e.1.time > ttlMs))
    ensures Get(PurgeStale(latest, ttlMs, now), symbol).Some? ==> |Get(PurgeStale(latest, ttlMs, now), symbol).value| > 0
  {
    PurgeStaleGet(latest, ttlMs, now, symbol);
  }

  lemma {:induction false} FilterValuesTwice(m: OMap<string, PriceInfo>, keep: PriceInfo -> bool)
    ensures FilterValues(FilterValues(m, keep), keep) == FilterValues(m, keep)
    decreases |m|
  {
    if |m| > 0 {
      FilterValuesTwice(m[1..], keep);
    }
  }

  /** Purging twice at the same time is the same as purging once. */
  lemma {:induction false} PurgeStaleIdempotent(latest: PriceMap, ttlMs: int, now: int)
    ensures PurgeStale(PurgeStale(latest, ttlMs, now), ttlMs, now) == PurgeStale(latest, ttlMs, now)
    decreases |latest|
  {
    if |latest| > 0 {
      PurgeStaleIdempotent(latest[1..], ttlMs, now);
      var kept := FilterValues(latest[0].1, Fresh(ttlMs, now));
      FilterValuesTwice(latest[0].1, Fresh(ttlMs, now));
      var rest := PurgeStale(latest[1..], ttlMs, now);
      if |kept| > 0 {
        var r := [(latest[0].0, kept)] + rest;
        assert r[0] == (latest[0].0, kept) && r[1..] == rest;
      }
    }
  }

  // ---------------------------------------------------------------- volumes

  ghost predicate ValidVolumes(vm: VolumeMap)
  {
    forall sym, m, ex, v :: (sym, m) in vm && (ex, v) in m ==> Volumes.Valid(v)
  }

  /** The (symbol, exchange) volume store, a fresh empty one if missing. */
  function StoreOf(vm: VolumeMap, symbol: string, exchange: string): (r: Volumes.VolumeStore)
    requires ValidVolumes(vm)
    ensures Volumes.Valid(r)
  {
    var ex := GetOr(vm, symbol, []);
    assert Volumes.Valid(GetOr(ex, exchange, Volumes.Empty())) by {
      if Get(vm, symbol).Some? {
        var i := Find(vm, symbol).value;
        assert vm[i] in vm;
      }
      if Get(ex, exchange).Some? {
        var j := Find(ex, exchange).value;
        assert ex[j] in ex;
      }
    }
    GetOr(ex, exchange, Volumes.Empty())
  }

  /** `processVolume(exchange, symbol, trades)`: the (symbol, exchange)
      store, created empty if missing, processes the trades in order. */
  function ProcessVolume(vm: VolumeMap, exchange: string, symbol: string, trades: seq<ExchangeTrade>): (r: VolumeMap)
    requires ValidVolumes(vm)
    ensures Get(r, symbol).Some?
    ensures Get(Get(r, symbol).value, exchange) == Some(Volumes.ProcessAll(StoreOf(vm, symbol, exchange), trades))
    ensures forall e :: e != exchange ==> Get(Get(r, symbol).value, e) == Get(GetOr(vm, symbol, []), e)
    ensures forall s :: s != symbol ==> Get(r, s) == Get(vm, s)
  {
    var ex := GetOr(vm, symbol, []);
    Put(vm, symbol, Put(ex, exchange, Volumes.ProcessAll(StoreOf(vm, symbol, exchange), trades)))
  }

  // ---------------------------------------------------------------- watch loops

  /** The state one watch loop updates. */
  datatype WatchState = WatchState(latest: PriceMap, since: OMap<string, int>, volumes: VolumeMap)

  function TimeKey(t: ExchangeTrade): real
  {
    if t.timestamp.Some? then t.timestamp.value as real else 0.0
  }

  /** `trade.timestamp > since`; a trade without a timestamp never passes. */
  function NewerThan(since: int): ExchangeTrade -> bool
  {
    (t: ExchangeTrade) => t.timestamp.Some? && t.timestamp.value > since
  }

  /** The trades of a batch that are newer than the stored `since` of the
      batch's first symbol, in ascending time order. */
  function NewTrades(st: WatchState, trades: seq<ExchangeTrade>): (r: seq<ExchangeTrade>)
    requires |trades| > 0
    ensures SortedBy(r, TimeKey)
    ensures forall i :: 0 <= i < |r| ==>
      (r[i] in trades && r[i].timestamp.Some? && r[i].timestamp.value > GetOr(st.since, trades[0].symbol, 0))
    ensures multiset(r) == multiset(Filter(trades, NewerThan(GetOr(st.since, trades[0].symbol, 0))))
  {
    var p := NewerThan(GetOr(st.since, trades[0].symbol, 0));
    var r := SortBy(Filter(trades, p), TimeKey);
    assert forall i :: 0 <= i < |r| ==> r[i] in trades && p(r[i]) by {
      var f := Filter(trades, p);
      forall i | 0 <= i < |r| ensures r[i] in trades && p(r[i]) {
        assert r[i] in multiset(f);
        var k :| 0 <= k < |f| && f[k] == r[i];
      }
    }
    r
  }

  /** One pass of the `watchTradesForSymbols` loop over the batch `trades`.
      An empty batch throws on `trades[0]` and is caught, and a batch with no
      new trade is skipped; both leave the state as it was. Otherwise the
      last new trade sets the price and the `since` of its symbol, and the
      new trades go to the volume store. */
  function BatchStep(st: WatchState, exchange: string, trades: seq<ExchangeTrade>, now: int): (r: WatchState)
    requires ValidVolumes(st.volumes)
  {
    if |trades| == 0 then st
    else
      var newTrades := NewTrades(st, trades);
      if |newTrades| == 0 then st else Accept(st, exchange, newTrades, now)
  }

  /** The update for a non-empty list of new trades: the last one sets the
      price of its (symbol, exchange) and the `since` of its symbol. */
  function Accept(st: WatchState, exchange: string, newTrades: seq<ExchangeTrade>, now: int): (r: WatchState)
    requires ValidVolumes(st.volumes)
    requires |newTrades| > 0 && newTrades[|newTrades| - 1].timestamp.Some?
    ensures var last := newTrades[|newTrades| - 1];
      && Get(r.since, last.symbol) == Some(last.timestamp.value)
      && Get(r.latest, last.symbol).Some?
      && Get(Get(r.latest, last.symbol).value, exchange) == Some(PriceInfo(last.price, last.timestamp.value, exchange))
  {
    var last := newTrades[|newTrades| - 1];
    WatchState(
      SetPrice(st.latest, exchange, last.symbol, last.price, last.timestamp, now),
      Put(st.since, last.symbol, last.timestamp.value),
      ProcessVolume(st.volumes, exchange, last.symbol, newTrades))
  }

  /** A batch without a trade newer than the `since` of its first symbol
      (or an empty batch) leaves the state as it was. */
  lemma BatchStepUnchanged(st: WatchState, exchange: string, trades: seq<ExchangeTrade>, now: int)
    requires ValidVolumes(st.volumes)
    requires |trades| > 0 ==> forall i :: 0 <= i < |trades| ==> !NewerThan(GetOr(st.since, trades[0].symbol, 0))(trades[i])
    ensures BatchStep(st, exchange, trades, now) == st
  {
    if |trades| > 0 {
      var f := Filter(trades, NewerThan(GetOr(st.since, trades[0].symbol, 0)));
      FilterNothing(trades, NewerThan(GetOr(st.since, trades[0].symbol, 0)));
      assert |NewTrades(st, trades)| == |multiset(f)| == 0;
    }
  }

  /** Otherwise the latest new trade sets the price and the `since` of its
      own symbol; that `since` is at least the time of every new trade and
      above the `since` that was read. */
  lemma BatchStepAccepted(st: WatchState, exchange: string, trades: seq<ExchangeTrade>, now: int, i: nat)
    requires ValidVolumes(st.volumes)
    requires i < |trades| && NewerThan(GetOr(st.since, trades[0].symbol, 0))(trades[i])
    ensures |NewTrades(st, trades)| > 0
    ensures var r := BatchStep(st, exchange, trades, now);
      var nt := NewTrades(st, trades);
      var last := nt[|nt| - 1];
      && last.timestamp.Some?
      && Get(r.since, last.symbol) == Some(last.timestamp.value)
      && last.timestamp.value > GetOr(st.since, trades[0].symbol, 0)
      && Get(Get(r.latest, last.symbol).value, exchange) == Some(PriceInfo(last.price, last.timestamp.value, exchange))
    ensures var nt := NewTrades(st, trades);
      forall j :: 0 <= j < |trades| && NewerThan(GetOr(st.since, trades[0].symbol, 0))(trades[j]) ==>
        trades[j].timestamp.value <= nt[|nt| - 1].timestamp.value
  {
    NewTradesLatest(st, trades, i);
    var nt := NewTrades(st, trades);
    assert BatchStep(st, exchange, trades, now) == Accept(st, exchange, nt, now);
  }

  /** A batch with a trade newer than `since` has new trades, and the last
      of them is the latest of those newer trades. */
  lemma NewTradesLatest(st: WatchState, trades: seq<ExchangeTrade>, i: nat)
    requires i < |trades| && NewerThan(GetOr(st.since, trades[0].symbol, 0))(trades[i])
    ensures |NewTrades(st, trades)| > 0
    ensures var nt := NewTrades(st, trades);
      forall j :: 0 <= j < |trades| && NewerThan(GetOr(st.since, trades[0].symbol, 0))(trades[j]) ==>
        trades[j].timestamp.value <= nt[|nt| - 1].timestamp.value
  {
    var since := GetOr(st.since, trades[0].symbol, 0);
    var nt := NewTrades(st, trades);
    InNewTrades(st, trades, i);
    forall j | 0 <= j < |trades| && NewerThan(since)(trades[j])
      ensures trades[j].timestamp.value <= nt[|nt| - 1].timestamp.value
    {
      NewTradeNotAfterLast(st, trades, j, nt);
    }
  }

  /** A trade newer than the `since` that was read is no newer than the
      last new trade. */
  lemma NewTradeNotAfterLast(st: WatchState, trades: seq<ExchangeTrade>, j: nat, nt: seq<ExchangeTrade>)
    requires j < |trades| && NewerThan(GetOr(st.since, trades[0].symbol, 0))(trades[j])
    requires nt == NewTrades(st, trades)
    ensures |nt| > 0 && trades[j].timestamp.value <= nt[|nt| - 1].timestamp.value
  {
    InNewTrades(st, trades, j);
    var k :| 0 <= k < |nt| && nt[k] == trades[j];
    assert k == |nt| - 1 || TimeKey(nt[k]) <= TimeKey(nt[|nt| - 1]);
  }

  /** Every trade newer than the `since` that was read is a new trade. */
  lemma InNewTrades(st: WatchState, trades: seq<ExchangeTrade>, j: nat)
    requires j < |trades| && NewerThan(GetOr(st.since, trades[0].symbol, 0))(trades[j])
    ensures trades[j] in NewTrades(st, trades)
  {
    var p := NewerThan(GetOr(st.since, trades[0].symbol, 0));
    FilterKeeps(trades, p, j);
    assert trades[j] in multiset(Filter(trades, p));
    assert trades[j] in multiset(NewTrades(st, trades));
  }

  /** For a batch of one symbol, `since` only moves forward. */
  lemma SinceAdvancesForOneSymbol(st: WatchState, exchange: string, trades: seq<ExchangeTrade>, now: int, symbol: string)
    requires ValidVolumes(st.volumes)
    requires forall i :: 0 <= i < |trades| ==> trades[i].symbol == symbol
    ensures GetOr(BatchStep(st, exchange, trades, now).since, symbol, 0) >= GetOr(st.since, symbol, 0)
  {
    if |trades| > 0 && exists i :: 0 <= i < |trades| && NewerThan(GetOr(st.since, symbol, 0))(trades[i]) {
      var i :| 0 <= i < |trades| && NewerThan(GetOr(st.since, symbol, 0))(trades[i]);
      BatchStepAccepted(st, exchange, trades, now, i);
      var nt := NewTrades(st, trades);
      assert nt[|nt| - 1] in trades;
    } else {
      BatchStepUnchanged(st, exchange, trades, now);
    }
  }

  /** The filter reads the `since` of the batch's first symbol but stores
      the last trade's: when `a` passes that filter and `b` is no older, the
      `since` of `b`'s symbol becomes `b`'s time whatever it was before, so
      in a mixed batch it can go back. */
  lemma SinceCanGoBackInMixedBatch(st: WatchState, exchange: string, a: ExchangeTrade, b: ExchangeTrade, now: int)
    requires ValidVolumes(st.volumes)
    requires a.timestamp.Some? && b.timestamp.Some?
    requires GetOr(st.since, a.symbol, 0) < a.timestamp.value <= b.timestamp.value
    ensures GetOr(BatchStep(st, exchange, [a, b], now).since, b.symbol, 0) == b.timestamp.value
  {
    BothNew(st, a, b);
    assert BatchStep(st, exchange, [a, b], now) == Accept(st, exchange, [a, b], now);
  }

  lemma BothNew(st: WatchState, a: ExchangeTrade, b: ExchangeTrade)
    requires a.timestamp.Some? && b.timestamp.Some?
    requires GetOr(st.since, a.symbol, 0) < a.timestamp.value <= b.timestamp.value
    ensures NewTrades(st, [a, b]) == [a, b]
  {
    FilterEverything([a, b], NewerThan(GetOr(st.since, a.symbol, 0)));
    SortBySorted([a, b], TimeKey);
  }

  /** The state of one `watchTradesForSymbol` loop, whose `since` is local. */
  datatype SymbolWatch = SymbolWatch(latest: PriceMap, volumes: VolumeMap, since: Option<int>)

  /** The last trade of the batch once sorted by time. */
  function LatestTrade(trades: seq<ExchangeTrade>): ExchangeTrade
    requires |trades| > 0
  {
    SortBy(trades, TimeKey)[|trades| - 1]
  }

  /** `since` after a trade: one past its time, when it has one. */
  function NextSince(last: ExchangeTrade): Option<int>
  {
    if last.timestamp.Some? then Some(last.timestamp.value + 1) else None
  }

  /** One pass of the `watchTradesForSymbol` loop: the batch is sorted by
      time, the latest trade sets the price, `since` becomes one past its
      time, and the whole batch goes to the volume store. */
  function SymbolStep(st: SymbolWatch, exchange: string, trades: seq<ExchangeTrade>, now: int): (r: SymbolWatch)
    requires ValidVolumes(st.volumes)
    ensures |trades| == 0 ==> r == st
  {
    if |trades| == 0 then st
    else
      var last := LatestTrade(trades);
      SymbolWatch(
        SetPrice(st.latest, exchange, last.symbol, last.price, last.timestamp, now),
        ProcessVolume(st.volumes, exchange, last.symbol, SortBy(trades, TimeKey)),
        NextSince(last))
  }

  /** When every trade has a time, the next `since` is past all of them. */
  lemma SymbolStepSince(st: SymbolWatch, exchange: string, trades: seq<ExchangeTrade>, now: int)
    requires ValidVolumes(st.volumes)
    requires |trades| > 0
    requires forall i :: 0 <= i < |trades| ==> trades[i].timestamp.Some?
    ensures SymbolStep(st, exchange, trades, now).since.Some?
    ensures forall i :: 0 <= i < |trades| ==> trades[i].timestamp.value < SymbolStep(st, exchange, trades, now).since.value
  {
    var last := LatestTrade(trades);
    assert last in multiset(trades);
    forall i | 0 <= i < |trades|
      ensures trades[i].timestamp.value <= last.timestamp.value
    {
      SortByEnds(trades, TimeKey, i);
    }
    assert SymbolStep(st, exchange, trades, now).since == NextSince(LatestTrade(trades));
  }

  /** A non-empty batch is handled through its newest trade `last`: the
      (symbol, exchange) price becomes `last`'s, timed at its timestamp or
      `now`; the (symbol, exchange) volume store processes the whole batch
      in time order; `since` becomes one past `last`'s time; every other
      symbol, and every other exchange of the symbol, keeps its price and
      its store. */
  lemma SymbolStepUpdates(st: SymbolWatch, exchange: string, trades: seq<ExchangeTrade>, now: int) returns (last: ExchangeTrade)
    requires ValidVolumes(st.volumes)
    requires |trades| > 0
    ensures last in trades
    ensures forall i :: 0 <= i < |trades| ==> TimeKey(trades[i]) <= TimeKey(last)
    ensures var r := SymbolStep(st, exchange, trades, now);
      Get(r.latest, last.symbol).Some? &&
      Get(Get(r.latest, last.symbol).value, exchange) ==
        Some(PriceInfo(last.price, if last.timestamp.Some? then last.timestamp.value else now, exchange)) &&
      (forall e :: e != exchange ==> Get(Get(r.latest, last.symbol).value, e) == Get(GetOr(st.latest, last.symbol, []), e)) &&
      (forall s :: s != last.symbol ==> Get(r.latest, s) == Get(st.latest, s))
    ensures var r := SymbolStep(st, exchange, trades, now);
      Get(r.volumes, last.symbol).Some? &&
      Get(Get(r.volumes, last.symbol).value, exchange) ==
        Some(Volumes.ProcessAll(StoreOf(st.volumes, last.symbol, exchange), SortBy(trades, TimeKey))) &&
      (forall e :: e != exchange ==> Get(Get(r.volumes, last.symbol).value, e) == Get(GetOr(st.volumes, last.symbol, []), e)) &&
      (forall s :: s != last.symbol ==> Get(r.volumes, s) == Get(st.volumes, s))
    ensures last.timestamp.Some? ==> SymbolStep(st, exchange, trades, now).since == Some(last.timestamp.value + 1)
    ensures last.timestamp.None? ==> SymbolStep(st, exchange, trades, now).since.None?
  {
    last := LatestTrade(trades);
    assert last in multiset(trades);
    forall i | 0 <= i < |trades| ensures TimeKey(trades[i]) <= TimeKey(last) {
      SortByEnds(trades, TimeKey, i);
    }
    NextSinceOf(last);
    SymbolStepParts(st, exchange, trades, now);
  }

  /** `since` after a trade with a time is one past it, and none without. */
  lemma NextSinceOf(last: ExchangeTrade)
    ensures last.timestamp.Some? ==> NextSince(last) == Some(last.timestamp.value + 1)
    ensures last.timestamp.None? ==> NextSince(last).None?
  {
  }

  /** The three parts of a non-empty step, through the newest trade. */
  lemma SymbolStepParts(st: SymbolWatch, exchange: string, trades: seq<ExchangeTrade>, now: int)
    requires ValidVolumes(st.volumes)
    requires |trades| > 0
    ensures var last := LatestTrade(trades);
      SymbolStep(st, exchange, trades, now).latest == SetPrice(st.latest, exchange, last.symbol, last.price, last.timestamp, now)
    ensures var last := LatestTrade(trades);
      SymbolStep(st, exchange, trades, now).volumes == ProcessVolume(st.volumes, exchange, last.symbol, SortBy(trades, TimeKey))
    ensures SymbolStep(st, exchange, trades, now).since == NextSince(LatestTrade(trades))
  {
  }
}
