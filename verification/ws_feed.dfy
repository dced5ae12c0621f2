/** `WsFeed`: trades streamed over a WebSocket, kept per (symbol, exchange)
    in a window of at most 1000 trades younger than five minutes, cleaned up
    periodically, and turned into prices by the strategy layer. The socket,
    the database and the on-chain reads are left out; parsed messages,
    strategy results and on-chain prices are inputs, the clock is `now`. */
module WsFeed {
  import opened Common
  import opened Market
  import opened Fallback

  /** Trades older than this are dropped from a list, in milliseconds. */
  const TRADE_WINDOW_MS: int := 5 * 60000

  /** A list keeps at most this many trades. */
  const MAX_TRADES: nat := 1000

  /** `normalizeSymbol`: lower case, first "/usdt" replaced by "/usd". */
  function NormalizeSymbol(symbol: string): string
  {
    ReplaceFirst(Lower(symbol), "/usdt", "/usd")
  }

  /** A symbol that names no USDT pair is only lowercased. */
  lemma NormalizeWithoutUsdt(symbol: string)
    requires !Contains(Lower(symbol), "/usdt")
    ensures NormalizeSymbol(symbol) == Lower(symbol)
  {
  }

  /** A USDT pair loses exactly one character, the "t" of its first "/usdt". */
  lemma NormalizeUsdt(symbol: string)
    requires Contains(Lower(symbol), "/usdt")
    ensures var i := IndexOf(Lower(symbol), "/usdt").value;
      NormalizeSymbol(symbol) == Lower(symbol)[..i] + "/usd" + Lower(symbol)[i + 5..] &&
      |NormalizeSymbol(symbol)| == |symbol| - 1
  {
  }

  // ---------------------------------------------------------------- base symbols

  /** `name.split("/")[0].trim().toUpperCase()`. */
  function BaseOf(name: string): string
  {
    Upper(Trim(BeforeFirst(name, "/")))
  }

  predicate NoDuplicates(xs: seq<string>)
  {
    forall i, j :: 0 <= i < j < |xs| ==> xs[i] != xs[j]
  }

  /** `seen.add(x)` on a set kept in insertion order. */
  function AddSeen(seen: seq<string>, x: string): (r: seq<string>)
    requires NoDuplicates(seen)
    ensures NoDuplicates(r)
    ensures forall y :: y in r <==> y in seen || y == x
    ensures |seen| <= |r| && r[..|seen|] == seen
  {
    if x in seen then seen else seen + [x]
  }

  /** `getBaseSymbols()`: the distinct bases of the configured names that
      contain a "/", in order of first appearance. */
  function BaseSymbols(names: seq<string>): (r: seq<string>)
    ensures NoDuplicates(r)
    ensures forall b :: b in r <==> exists i :: 0 <= i < |names| && Contains(names[i], "/") && BaseOf(names[i]) == b
    decreases |names|
  {
    if |names| == 0 then []
    else
      var init := BaseSymbols(names[..|names| - 1]);
      var last := names[|names| - 1];
      assert forall i :: 0 <= i < |names| - 1 ==> names[..|names| - 1][i] == names[i];
      if Contains(last, "/") then AddSeen(init, BaseOf(last)) else init
  }

  // ---------------------------------------------------------------- trade messages

  /** A parsed message. `symbol == ""` stands for a missing symbol,
      `exchange == ""` for a missing exchange and `timestamp == 0` for a
      missing one; `price` and `amount` are `None` when the field is falsy
      and otherwise the parsed number. */
  datatype TradeMessage = TradeMessage(
    kind: string,
    symbol: string,
    exchange: string,
    price: Option<real>,
    amount: Option<real>,
    timestamp: int,
    side: Option<Side>)

  /** `(parsed.exchange || "default").toLowerCase()`. */
  function ExchangeOf(msg: TradeMessage): string
  {
    Lower(if msg.exchange == "" then "default" else msg.exchange)
  }

  predicate AcceptsTrade(msg: TradeMessage)
  {
    msg.kind == "trade" && msg.symbol != "" && msg.price.Some? && msg.amount.Some?
  }

  /** The stored trade: a falsy timestamp is now, a missing side is buy. */
  function TradeOf(msg: TradeMessage, now: int): (t: TradeInfo)
    requires AcceptsTrade(msg)
    ensures t.price == msg.price.value && t.amount == msg.amount.value && t.exchange == ExchangeOf(msg)
    ensures t.timestamp == (if msg.timestamp != 0 then msg.timestamp else now)
  {
    TradeInfo(msg.price.value, msg.amount.value,
      if msg.timestamp != 0 then msg.timestamp else now,
      if msg.side.Some? then msg.side.value else Buy,
      ExchangeOf(msg))
  }

  function YoungerThan(now: int, maxAge: int): TradeInfo -> bool
  {
    (t: TradeInfo) => now - t.timestamp < maxAge
  }

  /** `.slice(-n)`: the last `n` elements, or all of them. */
  function LastN<T>(xs: seq<T>, n: nat): (r: seq<T>)
    ensures |r| == if |xs| <= n then |xs| else n
    ensures r == xs[|xs| - |r|..]
  {
    if |xs| <= n then xs else xs[|xs| - n..]
  }

  /** The list kept after appending `t`: the last 1000 of the trades younger
      than five minutes. */
  function Window(trades: seq<TradeInfo>, t: TradeInfo, now: int): (r: seq<TradeInfo>)
    ensures |r| <= MAX_TRADES
    ensures forall i :: 0 <= i < |r| ==> now - r[i].timestamp < TRADE_WINDOW_MS
    ensures forall i :: 0 <= i < |r| ==> r[i] in trades || r[i] == t
    ensures now - t.timestamp < TRADE_WINDOW_MS ==> |r| > 0 && r[|r| - 1] == t
    ensures |Filter(trades + [t], YoungerThan(now, TRADE_WINDOW_MS))| <= MAX_TRADES ==>
      r == Filter(trades + [t], YoungerThan(now, TRADE_WINDOW_MS))
  {
    WindowFacts(trades, t, now);
    LastN(Filter(trades + [t], YoungerThan(now, TRADE_WINDOW_MS)), MAX_TRADES)
  }

  lemma WindowFacts(trades: seq<TradeInfo>, t: TradeInfo, now: int)
    ensures var young := Filter(trades + [t], YoungerThan(now, TRADE_WINDOW_MS));
      var r := LastN(young, MAX_TRADES);
      (forall i :: 0 <= i < |r| ==> now - r[i].timestamp < TRADE_WINDOW_MS && (r[i] in trades || r[i] == t)) &&
      (now - t.timestamp < TRADE_WINDOW_MS ==> |r| > 0 && r[|r| - 1] == t)
  {
    var p := YoungerThan(now, TRADE_WINDOW_MS);
    var young := Filter(trades + [t], p);
    var r := LastN(young, MAX_TRADES);
    FilterAppend(trades, [t], p);
    forall i | 0 <= i < |r| ensures now - r[i].timestamp < TRADE_WINDOW_MS && (r[i] in trades || r[i] == t) {
      assert r[i] == young[|young| - |r| + i];
      assert r[i] in young;
      assert r[i] in trades + [t];
    }
    if now - t.timestamp < TRADE_WINDOW_MS {
      assert Filter([t], p) == [t];
      assert young[|young| - 1] == t;
    }
  }

  /** A JavaScript `Map` of `Map`s: keys distinct at both levels. */
  ghost predicate WellFormed<V>(m: OMap<string, OMap<string, V>>)
  {
    DistinctKeys(m) && forall e :: e in m ==> DistinctKeys(e.1)
  }

  /** The trade branch of the message handler. Other messages leave the
      trade map unchanged. */
  function OnTradeMessage(tm: TradeMap, msg: TradeMessage, now: int): (r: TradeMap)
    ensures !AcceptsTrade(msg) ==> r == tm
    ensures AcceptsTrade(msg) ==>
      (Get(r, Lower(msg.symbol)).Some? &&
       Get(Get(r, Lower(msg.symbol)).value, ExchangeOf(msg)) ==
         Some(Window(GetOr(GetOr(tm, Lower(msg.symbol), []), ExchangeOf(msg), []), TradeOf(msg, now), now)))
    ensures AcceptsTrade(msg) ==> forall s :: s != Lower(msg.symbol) ==> Get(r, s) == Get(tm, s)
    ensures AcceptsTrade(msg) ==> forall ex :: ex != ExchangeOf(msg) ==>
      Get(Get(r, Lower(msg.symbol)).value, ex) == Get(GetOr(tm, Lower(msg.symbol), []), ex)
  {
    if !AcceptsTrade(msg) then tm
    else
      var sym := Lower(msg.symbol);
      var ex := ExchangeOf(msg);
      var exchMap := GetOr(tm, sym, []);
      var kept := Window(GetOr(exchMap, ex, []), TradeOf(msg, now), now);
      Put(tm, sym, Put(exchMap, ex, kept))
  }

  /** Handling a message keeps both levels of keys distinct. */
  lemma OnTradeKeepsWellFormed(tm: TradeMap, msg: TradeMessage, now: int)
    requires WellFormed(tm)
    ensures WellFormed(OnTradeMessage(tm, msg, now))
  {
    if AcceptsTrade(msg) {
      var sym := Lower(msg.symbol);
      var ex := ExchangeOf(msg);
      var exchMap := GetOr(tm, sym, []);
      var inner := Put(exchMap, ex, Window(GetOr(exchMap, ex, []), TradeOf(msg, now), now));
      if Get(tm, sym).Some? {
        assert tm[Find(tm, sym).value] in tm;
      }
      assert DistinctKeys(inner);
      PutEntries(tm, sym, inner);
    }
  }

  /** A fresh accepted trade is the newest entry of its list, and the list
      stays within five minutes and 1000 trades. */
  lemma AcceptedTradeIsLast(tm: TradeMap, msg: TradeMessage, now: int)
    requires AcceptsTrade(msg) && now - TradeOf(msg, now).timestamp < TRADE_WINDOW_MS
    ensures var list: seq<TradeInfo> := Get(Get(OnTradeMessage(tm, msg, now), Lower(msg.symbol)).value, ExchangeOf(msg)).value;
      |list| > 0 && list[|list| - 1] == TradeOf(msg, now) && |list| <= MAX_TRADES &&
      forall i :: 0 <= i < |list| ==> now - list[i].timestamp < TRADE_WINDOW_MS
  {
  }

  /** A trade with a falsy timestamp is stamped now and therefore kept. */
  lemma UntimedTradeKept(tm: TradeMap, msg: TradeMessage, now: int)
    requires AcceptsTrade(msg) && msg.timestamp == 0
    ensures var list: seq<TradeInfo> := Get(Get(OnTradeMessage(tm, msg, now), Lower(msg.symbol)).value, ExchangeOf(msg)).value;
      |list| > 0 && list[|list| - 1] == TradeOf(msg, now)
  {
  }

  /** The 1001st fresh trade pushes the oldest one out. */
  lemma WindowDropsOldest(trades: seq<TradeInfo>, t: TradeInfo, now: int)
    requires |trades| == MAX_TRADES
    requires forall i :: 0 <= i < |trades| ==> now - trades[i].timestamp < TRADE_WINDOW_MS
    requires now - t.timestamp < TRADE_WINDOW_MS
    ensures Window(trades, t, now) == trades[1..] + [t]
  {
    AllYoung(trades, t, now);
    var xs := trades + [t];
    assert LastN(xs, MAX_TRADES) == xs[1..];
    assert xs[1..] == trades[1..] + [t];
  }

  lemma AllYoung(trades: seq<TradeInfo>, t: TradeInfo, now: int)
    requires forall i :: 0 <= i < |trades| ==> now - trades[i].timestamp < TRADE_WINDOW_MS
    requires now - t.timestamp < TRADE_WINDOW_MS
    ensures Filter(trades + [t], YoungerThan(now, TRADE_WINDOW_MS)) == trades + [t]
  {
    var xs, p := trades + [t], YoungerThan(now, TRADE_WINDOW_MS);
    forall i | 0 <= i < |xs| ensures p(xs[i]) {
      if i < |trades| {
        assert xs[i] == trades[i];
      }
    }
    FilterAll(xs, p);
  }

  lemma {:induction false} FilterAll(xs: seq<TradeInfo>, p: TradeInfo -> bool)
    requires forall i :: 0 <= i < |xs| ==> p(xs[i])
    ensures Filter(xs, p) == xs
    decreases |xs|
  {
    if |xs| > 0 {
      FilterAll(xs[1..], p);
    }
  }

  // ---------------------------------------------------------------- cleanup

  function KeepYounger(now: int, maxAge: int): seq<TradeInfo> -> seq<TradeInfo>
  {
    ts => Filter(ts, YoungerThan(now, maxAge))
  }

  function NonEmptyList(ts: seq<TradeInfo>): bool
  {
    |ts| > 0
  }

  function NonEmptyMap<V>(m: OMap<string, V>): bool
  {
    |m| > 0
  }

  /** One symbol's lists after `cleanupTradeMap`: each list keeps the trades
      younger than `maxAge`, in place; emptied lists are deleted. */
  function CleanExchanges(exchMap: OMap<string, seq<TradeInfo>>, maxAge: int, now: int): OMap<string, seq<TradeInfo>>
  {
    FilterValues(MapValues(exchMap, KeepYounger(now, maxAge)), NonEmptyList)
  }

  function CleanSymbol(maxAge: int, now: int): OMap<string, seq<TradeInfo>> -> OMap<string, seq<TradeInfo>>
  {
    exchMap => CleanExchanges(exchMap, maxAge, now)
  }

  /** `cleanupTradeMap(maxAge)`: every list keeps its trades younger than
      `maxAge`; emptied lists, then emptied symbols, are deleted. */
  function CleanupTradeMap(tm: TradeMap, maxAge: int, now: int): (r: TradeMap)
    ensures forall e :: e in r ==> |e.1| > 0
    ensures forall e, l :: e in r && l in e.1 ==> |l.1| > 0 && forall t :: t in l.1 ==> now - t.timestamp < maxAge
  {
    var r := FilterValues(MapValues(tm, CleanSymbol(maxAge, now)), NonEmptyMap);
    forall e, l | e in r && l in e.1
      ensures |l.1| > 0 && forall t :: t in l.1 ==> now - t.timestamp < maxAge
    {
      CleanedList(tm, maxAge, now, e, l);
    }
    r
  }

  /** A list left after cleaning a symbol is non-empty and holds only
      trades younger than `maxAge`. */
  lemma CleanedList(tm: TradeMap, maxAge: int, now: int, e: (string, OMap<string, seq<TradeInfo>>), l: (string, seq<TradeInfo>))
    requires e in MapValues(tm, CleanSymbol(maxAge, now)) && l in e.1
    ensures |l.1| > 0 && forall t :: t in l.1 ==> now - t.timestamp < maxAge
  {
    var mapped := MapValues(tm, CleanSymbol(maxAge, now));
    var i :| 0 <= i < |mapped| && mapped[i] == e;
    assert e.1 == CleanExchanges(tm[i].1, maxAge, now);
    var lists := MapValues(tm[i].1, KeepYounger(now, maxAge));
    assert l in lists;
    var j :| 0 <= j < |lists| && lists[j] == l;
    assert l.1 == Filter(tm[i].1[j].1, YoungerThan(now, maxAge));
  }

  /** After the cleanup, a (symbol, exchange) pair holds exactly its trades
      younger than `maxAge` when there are any, and nothing otherwise. */
  lemma CleanupTradeMapGet(tm: TradeMap, maxAge: int, now: int, sym: string, ex: string)
    requires WellFormed(tm)
    ensures var young := Filter(GetOr(GetOr(tm, sym, []), ex, []), YoungerThan(now, maxAge));
      var r := CleanupTradeMap(tm, maxAge, now);
      (|young| > 0 ==> Get(r, sym).Some? && Get(Get(r, sym).value, ex) == Some(young)) &&
      (|young| == 0 ==> Get(r, sym).None? || Get(Get(r, sym).value, ex).None?)
  {
    var mapped := MapValues(tm, CleanSymbol(maxAge, now));
    MapValuesGet(tm, CleanSymbol(maxAge, now), sym);
    FilterValuesGet(mapped, NonEmptyMap, sym);
    match Get(tm, sym)
    case None =>
    case Some(em) =>
      assert tm[Find(tm, sym).value] in tm;
      MapValuesGet(em, KeepYounger(now, maxAge), ex);
      FilterValuesGet(MapValues(em, KeepYounger(now, maxAge)), NonEmptyList, ex);
  }

  /** The cleanup keeps both levels of keys distinct. */
  lemma CleanupKeepsWellFormed(tm: TradeMap, maxAge: int, now: int)
    requires WellFormed(tm)
    ensures WellFormed(CleanupTradeMap(tm, maxAge, now))
  {
    var mapped := MapValues(tm, CleanSymbol(maxAge, now));
    MapValuesGet(tm, CleanSymbol(maxAge, now), "");
    forall e | e in CleanupTradeMap(tm, maxAge, now) ensures DistinctKeys(e.1) {
      var i :| 0 <= i < |tm| && mapped[i] == e;
      assert tm[i] in tm;
      MapValuesGet(tm[i].1, KeepYounger(now, maxAge), "");
    }
  }

  /** `cleanupGenericMap(map, maxAge)` for entries whose time is `time(x)`:
      an entry older than `maxAge` is deleted, as is an emptied symbol. */
  function CleanupGeneric<T(!new)>(m: OMap<string, OMap<string, T>>, time: T -> int, maxAge: int, now: int): (r: OMap<string, OMap<string, T>>)
    ensures forall e :: e in r ==> |e.1| > 0
    ensures forall e, x :: e in r && x in e.1 ==> now - time(x.1) <= maxAge
  {
    var r := FilterValues(MapValues(m, CleanEntries(time, maxAge, now)), NonEmptyMap);
    forall e, x | e in r && x in e.1 ensures now - time(x.1) <= maxAge {
      var i :| 0 <= i < |m| && MapValues(m, CleanEntries(time, maxAge, now))[i] == e;
    }
    r
  }

  function NotOlder<T>(time: T -> int, maxAge: int, now: int): T -> bool
  {
    x => !(now - time(x) > maxAge)
  }

  function CleanEntries<T(!new)>(time: T -> int, maxAge: int, now: int): OMap<string, T> -> OMap<string, T>
  {
    em => FilterValues(em, NotOlder(time, maxAge, now))
  }

  /** After the generic cleanup, an entry is present exactly when it was and
      is at most `maxAge` old. */
  lemma CleanupGenericGet<T(!new)>(m: OMap<string, OMap<string, T>>, time: T -> int, maxAge: int, now: int, sym: string, ex: string)
    requires WellFormed(m)
    ensures var r := CleanupGeneric(m, time, maxAge, now);
      var prev := Get(GetOr(m, sym, []), ex);
      (prev.Some? && now - time(prev.value) <= maxAge ==> Get(r, sym).Some? && Get(Get(r, sym).value, ex) == prev) &&
      (!(prev.Some? && now - time(prev.value) <= maxAge) ==> Get(r, sym).None? || Get(Get(r, sym).value, ex).None?)
  {
    var mapped := MapValues(m, CleanEntries(time, maxAge, now));
    MapValuesGet(m, CleanEntries(time, maxAge, now), sym);
    FilterValuesGet(mapped, NonEmptyMap, sym);
    match Get(m, sym)
    case None =>
    case Some(em) =>
      assert m[Find(m, sym).value] in m;
      FilterValuesGet(em, NotOlder(time, maxAge, now), ex);
      var c := FilterValues(em, NotOlder(time, maxAge, now));
      if Get(c, ex).Some? {
        assert c[Find(c, ex).value] in c;
      }
  }

  function TickerTime(t: TickerInfo): int
  {
    t.timestamp
  }

  /** The two cleanups disagree at the boundary: a trade exactly `maxAge`
      old is deleted, a ticker exactly `maxAge` old is kept. */
  lemma CleanupBoundary(t: TradeInfo, k: TickerInfo, sym: string, ex: string, maxAge: int, now: int)
    requires now - t.timestamp == maxAge && now - k.timestamp == maxAge
    ensures CleanupTradeMap([(sym, [(ex, [t])])], maxAge, now) == []
    ensures CleanupGeneric([(sym, [(ex, k)])], TickerTime, maxAge, now) == [(sym, [(ex, k)])]
  {
    assert CleanupTradeMap([(sym, [(ex, [t])])], maxAge, now) == [] by {
      var inner := [(ex, [t])];
      assert Filter([t], YoungerThan(now, maxAge)) == [];
      var emptied: OMap<string, seq<TradeInfo>> := [(ex, [])];
      assert MapValues(inner, KeepYounger(now, maxAge)) == emptied;
      assert emptied[1..] == [];
      assert CleanExchanges(inner, maxAge, now) == [];
      var gone: TradeMap := [(sym, [])];
      assert MapValues([(sym, inner)], CleanSymbol(maxAge, now)) == gone;
      assert gone[1..] == [];
      assert FilterValues(gone, NonEmptyMap) == [];
    }
    assert CleanupGeneric([(sym, [(ex, k)])], TickerTime, maxAge, now) == [(sym, [(ex, k)])] by {
      var inner := [(ex, k)];
      assert TickerTime(k) == k.timestamp;
      assert NotOlder(TickerTime, maxAge, now)(k);
      assert inner[1..] == [];
      assert FilterValues(inner, NotOlder(TickerTime, maxAge, now)) == inner;
      var m := [(sym, inner)];
      assert m[1..] == [];
      assert MapValues(m, CleanEntries(TickerTime, maxAge, now)) == m;
      assert FilterValues(m, NonEmptyMap) == m;
    }
  }

  // ---------------------------------------------------------------- safe price

  /** What the strategy returned, as far as the validation sees it: each
      field is `None` when it is not a number. */
  datatype RawResult = RawResult(value: Option<Num>, ccxt: Option<Num>, onchain: Option<Num>)

  /** The value `getSafeFeedPrice` accepts: present with numeric value, ccxt
      and onchain fields, and a value that is neither NaN nor at most zero. */
  function Accepted(result: Option<RawResult>): (r: Option<real>)
    ensures r.Some? <==>
      (result.Some? && result.value.value.Some? && result.value.ccxt.Some? && result.value.onchain.Some? &&
       result.value.value.value.Real? && result.value.value.value.r > 0.0)
    ensures r.Some? ==> r.value == result.value.value.value.r && r.value > 0.0
  {
    match result
    case None => None
    case Some(res) =>
      if res.value.None? || res.ccxt.None? || res.onchain.None? then None
      else if res.value.value.NaN? || res.value.value.r <= 0.0 then None
      else Some(res.value.value.r)
  }

  /** `getSafeFeedPrice(feed)` after the strategy ran: an accepted value is
      remembered under `${category}-${normalizeSymbol(name)}` and returned;
      otherwise the remembered value younger than five minutes, or 0.01. */
  function SafeFeedPrice(fallbacks: FallbackMap, feed: FeedId, result: Option<RawResult>, now: int): (r: (real, FallbackMap))
    ensures var key := FeedKey(feed.category, NormalizeSymbol(feed.name));
      Accepted(result).Some? ==>
        r.0 == Accepted(result).value && Get(r.1, key) == Some(Stored(r.0, now))
    ensures Accepted(result).None? ==>
      r == (StoredOr(fallbacks, FeedKey(feed.category, NormalizeSymbol(feed.name)), now, DEFAULT_PRICE), fallbacks)
    ensures AllPositive(fallbacks) ==> r.0 > 0.0 && AllPositive(r.1)
  {
    var key := FeedKey(feed.category, NormalizeSymbol(feed.name));
    SafePricePositive(fallbacks, key, Accepted(result), now, DEFAULT_PRICE);
    SafePrice(fallbacks, key, Accepted(result), now, DEFAULT_PRICE)
  }

  /** A result missing a numeric field falls back even when its value is a
      good price. */
  lemma MissingFieldFallsBack(fallbacks: FallbackMap, feed: FeedId, v: real, now: int)
    requires v > 0.0
    ensures SafeFeedPrice(fallbacks, feed, Some(RawResult(Some(Real(v)), None, Some(Real(0.0)))), now).1 == fallbacks
  {
  }

  /** A pair's "/usdt" and "/usd" spellings normalise alike, so they share
      one entry of the last-good-price memory. */
  lemma UsdtSharesKey(base: string)
    requires forall i :: 0 <= i < |base| ==> base[i] != '/'
    ensures NormalizeSymbol(base + "/usdt") == Lower(base) + "/usd"
    ensures NormalizeSymbol(base + "/usd") == Lower(base) + "/usd"
  {
    UsdtPairNormalized(base);
    UsdPairNormalized(base);
  }

  lemma UsdtPairNormalized(base: string)
    requires forall i :: 0 <= i < |base| ==> base[i] != '/'
    ensures NormalizeSymbol(base + "/usdt") == Lower(base) + "/usd"
  {
    var s := Lower(base + "/usdt");
    assert s == Lower(base) + "/usdt";
    assert OccursAt(s, "/usdt", |base|);
    forall j: nat | j < |base| ensures !OccursAt(s, "/usdt", j) {
      assert Lower(base)[j] == LowerChar(base[j]);
      assert s[j] == Lower(base)[j];
    }
    assert IndexOf(s, "/usdt") == Some(|base|);
    assert s[..|base|] == Lower(base);
  }

  lemma UsdPairNormalized(base: string)
    requires forall i :: 0 <= i < |base| ==> base[i] != '/'
    ensures NormalizeSymbol(base + "/usd") == Lower(base) + "/usd"
  {
    var t := Lower(base + "/usd");
    assert t == Lower(base) + "/usd";
    forall j: nat | j < |base| ensures !OccursAt(t, "/usdt", j) {
      assert Lower(base)[j] == LowerChar(base[j]);
      assert t[j] == Lower(base)[j];
    }
    assert IndexOf(t, "/usdt").None?;
  }

  /** The on-chain price handed to the strategies: the entry's value scaled
      by its decimals, or by the configured ones when it has none; 0 when
      there is no entry or its value is 0. */
  datatype OnchainEntry = OnchainEntry(value: real, decimals: Option<nat>)

  function OnchainPrice(entry: Option<OnchainEntry>, dbOnchainDecimals: nat): (r: real)
    ensures entry.None? || entry.value.value == 0.0 ==> r == 0.0
    ensures entry.Some? && entry.value.value != 0.0 ==>
      var d := if entry.value.decimals.Some? then entry.value.decimals.value else dbOnchainDecimals;
      r * Pow10(d) == entry.value.value
  {
    match entry
    case None => 0.0
    case Some(e) =>
      if e.value == 0.0 then 0.0
      else e.value / Pow10(if e.decimals.Some? then e.decimals.value else dbOnchainDecimals)
  }

  // ---------------------------------------------------------------- values and volumes

  /** How `getValue` went for one feed: it threw before touching the memory,
      or the strategy returned `result`. */
  datatype Attempt = Threw | Returned(result: Option<RawResult>)

  /** The value served for a feed whose `getValue` threw: the on-chain entry
      of the uppercased name, or 0.01. */
  function OnchainOr(onchain: OMap<string, OnchainEntry>, name: string): (r: real)
    ensures Get(onchain, Upper(name)).Some? ==> r == Get(onchain, Upper(name)).value.value
    ensures Get(onchain, Upper(name)).None? ==> r == DEFAULT_PRICE
  {
    match Get(onchain, Upper(name))
    case Some(e) => e.value
    case None => DEFAULT_PRICE
  }

  /** `getValues(feeds)`: one value per feed, in order; each feed's safe
      price sees the memory the previous feeds left. */
  function GetValues(fallbacks: FallbackMap, feeds: seq<FeedId>, attempts: seq<Attempt>,
                     onchain: OMap<string, OnchainEntry>, now: int): (r: (seq<FeedValue>, FallbackMap))
    requires |attempts| == |feeds|
    ensures |r.0| == |feeds|
    ensures forall i :: 0 <= i < |feeds| ==> r.0[i].feed == feeds[i]
    ensures forall i :: 0 <= i < |feeds| && attempts[i].Threw? ==> r.0[i].value == OnchainOr(onchain, feeds[i].name)
    ensures AllPositive(fallbacks) ==>
      AllPositive(r.1) && forall i :: 0 <= i < |feeds| && attempts[i].Returned? ==> r.0[i].value > 0.0
    decreases |feeds|
  {
    if |feeds| == 0 then ([], fallbacks)
    else
      var (v, fb) := match attempts[0]
        case Threw => (OnchainOr(onchain, feeds[0].name), fallbacks)
        case Returned(res) => SafeFeedPrice(fallbacks, feeds[0], res, now);
      var (rest, fb') := GetValues(fb, feeds[1..], attempts[1..], onchain, now);
      ([FeedValue(feeds[0], v)] + rest, fb')
  }

  function Amount(t: TradeInfo): real
  {
    t.amount
  }

  /** `getVolumes()`: per symbol, in map order, the sum of the stored
      amounts of each exchange's trades, under category 0. */
  function GetVolumes(tm: TradeMap): (r: seq<FeedVolume>)
    ensures |r| == |tm|
    ensures forall i :: 0 <= i < |tm| ==> r[i].feed == FeedId(0, tm[i].0) && |r[i].volumes| == |tm[i].1|
    ensures forall i, j :: 0 <= i < |tm| && 0 <= j < |tm[i].1| ==>
      r[i].volumes[j] == (tm[i].1[j].0, Sum(MapSeq(tm[i].1[j].1, Amount)))
  {
    MapSeq(tm, (e: (string, OMap<string, seq<TradeInfo>>)) =>
      FeedVolume(FeedId(0, e.0), MapSeq(e.1, (l: (string, seq<TradeInfo>)) => (l.0, Sum(MapSeq(l.1, Amount))))))
  }

  /** With non-negative amounts every reported volume is non-negative. */
  lemma VolumesNonNegative(tm: TradeMap)
    requires forall i, j, k :: 0 <= i < |tm| && 0 <= j < |tm[i].1| && 0 <= k < |tm[i].1[j].1| ==> tm[i].1[j].1[k].amount >= 0.0
    ensures forall i, j :: 0 <= i < |tm| && 0 <= j < |tm[i].1| ==> GetVolumes(tm)[i].volumes[j].1 >= 0.0
  {
    forall i, j | 0 <= i < |tm| && 0 <= j < |tm[i].1| ensures GetVolumes(tm)[i].volumes[j].1 >= 0.0 {
      SumNonNegative(MapSeq(tm[i].1[j].1, Amount));
    }
  }
}
