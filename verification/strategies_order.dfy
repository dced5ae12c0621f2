/** The strategies built on order statistics of the recent trade prices: the
    median of the three busiest exchanges, the 10% trimmed mean, and the
    on-chain price filtered by the median absolute deviation. */
module OrderStrategies {
  import opened Common
  import opened Sorting
  import opened Market
  import opened StrategyBase
  import Statistics

  /** The labels each strategy of this module can return. */
  const TOP3_NAMES: set<string> := {"Top3ExchangeMedian", "Top3ExchangeMedian-NoTrades"}
  const TRIMMED_MEAN_NAMES: set<string> := {"TrimmedMean", "TrimmedMean-NoTrades"}
  const ROLLING_MAD_NAMES: set<string> := {"RollingMAD-OnchainOK", "RollingMAD-MedianUsed", "RollingMAD-NoTrades"}

  /** The trade windows of the three strategies, in milliseconds. */
  const TOP3_WINDOW_MS: int := 60000
  const TRIMMED_MEAN_WINDOW_MS: int := 60000
  const ROLLING_MAD_WINDOW_MS: int := 2 * 60000

  /** How many exchanges the top-3 strategy keeps. */
  const TOP_EXCHANGES: nat := 3

  // ---------------------------------------------------------------- grouping by exchange

  type Groups = OMap<string, seq<TradeInfo>>

  function OnExchange(k: string): TradeInfo -> bool
  {
    (t: TradeInfo) => t.exchange == k
  }

  /** One step of the grouping loop: the exchange's list, created empty on
      first sight, gets the trade appended. */
  function AddToGroup(g: Groups, t: TradeInfo): Groups
  {
    Put(g, t.exchange, GetOr(g, t.exchange, []) + [t])
  }

  /** The `grouped` map: one entry per exchange in order of first
      appearance, each a non-empty list of that exchange's trades. */
  function GroupByExchange(ts: seq<TradeInfo>): (g: Groups)
    ensures DistinctKeys(g)
    ensures forall e :: e in g ==> |e.1| > 0 && forall t :: t in e.1 ==> t in ts && t.exchange == e.0
    decreases |ts|
  {
    if |ts| == 0 then []
    else
      var prev := GroupByExchange(ts[..|ts| - 1]);
      var t := ts[|ts| - 1];
      var g := AddToGroup(prev, t);
      assert Get(prev, t.exchange).Some? ==> (t.exchange, Get(prev, t.exchange).value) in prev by {
        if Get(prev, t.exchange).Some? {
          assert prev[Find(prev, t.exchange).value] == (t.exchange, Get(prev, t.exchange).value);
        }
      }
      PutEntries(prev, t.exchange, GetOr(prev, t.exchange, []) + [t]);
      assert forall u :: u in ts[..|ts| - 1] ==> u in ts;
      g
  }

  /** The group of an exchange holds exactly that exchange's trades, in
      input order, and an exchange without trades has no group. */
  lemma {:induction false} GroupGet(ts: seq<TradeInfo>, k: string)
    ensures Get(GroupByExchange(ts), k) ==
      if |Filter(ts, OnExchange(k))| > 0 then Some(Filter(ts, OnExchange(k))) else None
    decreases |ts|
  {
    if |ts| == 0 {
    } else {
      var init, t := ts[..|ts| - 1], ts[|ts| - 1];
      var p := OnExchange(k);
      assert ts == init + [t];
      GroupGet(init, k);
      FilterAppend(init, [t], p);
      assert [t][1..] == [];
      var prev := GroupByExchange(init);
      assert GroupByExchange(ts) == AddToGroup(prev, t);
      if t.exchange == k {
        assert Filter([t], p) == [t];
        assert GetOr(prev, k, []) == Filter(init, p);
      } else {
        assert Filter([t], p) == [];
        assert Filter(init, p) + [] == Filter(init, p);
      }
    }
  }

  /** The groups' lists one after another. */
  function FlatGroups(g: Groups): (r: seq<TradeInfo>)
    decreases |g|
  {
    if |g| == 0 then [] else g[0].1 + FlatGroups(g[1..])
  }

  lemma {:induction false} FlatGroupsAppend(g: Groups, e: (string, seq<TradeInfo>))
    ensures FlatGroups(g + [e]) == FlatGroups(g) + e.1
    decreases |g|
  {
    if |g| == 0 {
      assert FlatGroups([e]) == e.1 + FlatGroups([]);
    } else {
      assert (g + [e])[1..] == g[1..] + [e];
      FlatGroupsAppend(g[1..], e);
    }
  }

  /** The flattened groups are the groups before an entry, its list, and
      the groups after it. */
  lemma {:induction false} FlatGroupsSplit(g: Groups, i: nat)
    requires i < |g|
    ensures FlatGroups(g) == FlatGroups(g[..i]) + g[i].1 + FlatGroups(g[i + 1..])
    decreases i
  {
    assert FlatGroups(g) == g[0].1 + FlatGroups(g[1..]);
    if i == 0 {
      assert FlatGroups(g[..0]) == [];
    } else {
      FlatGroupsSplit(g[1..], i - 1);
      assert g[..i][1..] == g[1..][..i - 1];
      assert g[1..][i - 1] == g[i] && g[1..][i..] == g[i + 1..];
      assert FlatGroups(g[..i]) == g[0].1 + FlatGroups(g[1..][..i - 1]);
    }
  }

  lemma FlatGroupsUpdate(g: Groups, i: nat, v: seq<TradeInfo>)
    requires i < |g|
    ensures multiset(FlatGroups(g[i := (g[i].0, v)])) + multiset(g[i].1) == multiset(FlatGroups(g)) + multiset(v)
  {
    var g' := g[i := (g[i].0, v)];
    FlatGroupsSplit(g, i);
    FlatGroupsSplit(g', i);
    assert g'[..i] == g[..i] && g'[i + 1..] == g[i + 1..];
    var a, b := FlatGroups(g[..i]), FlatGroups(g[i + 1..]);
    assert multiset(FlatGroups(g')) == multiset(a) + multiset(v) + multiset(b);
    assert multiset(FlatGroups(g)) == multiset(a) + multiset(g[i].1) + multiset(b);
  }

  /** One grouping step adds exactly the new trade to the flattened groups. */
  lemma AddToGroupFlat(prev: Groups, t: TradeInfo)
    ensures multiset(FlatGroups(AddToGroup(prev, t))) == multiset(FlatGroups(prev)) + multiset{t}
  {
    var v := GetOr(prev, t.exchange, []) + [t];
    match Find(prev, t.exchange)
    case None =>
      assert v == [t];
      assert AddToGroup(prev, t) == prev + [(t.exchange, v)];
      FlatGroupsAppend(prev, (t.exchange, v));
    case Some(i) =>
      assert Put(prev, t.exchange, v) == prev[i := (t.exchange, v)];
      assert AddToGroup(prev, t) == prev[i := (t.exchange, v)];
      assert v == prev[i].1 + [t];
      FlatGroupsUpdate(prev, i, v);
      var a, x := multiset(FlatGroups(prev[i := (prev[i].0, v)])), multiset(prev[i].1);
      assert a + x == multiset(FlatGroups(prev)) + (x + multiset{t});
      assert a == a + x - x;
  }

  /** The groups partition the trades: flattened, they are a permutation of
      the input. */
  lemma {:induction false} GroupPartition(ts: seq<TradeInfo>)
    ensures multiset(FlatGroups(GroupByExchange(ts))) == multiset(ts)
    decreases |ts|
  {
    if |ts| > 0 {
      var init, t := ts[..|ts| - 1], ts[|ts| - 1];
      assert ts == init + [t];
      GroupPartition(init);
      AddToGroupFlat(GroupByExchange(init), t);
    }
  }

  // ---------------------------------------------------------------- ranking exchanges

  /** An exchange's group with its volume `Σ amount * price`. */
  datatype ExchangeVolume = ExchangeVolume(exchange: string, trades: seq<TradeInfo>, volume: real)

  function Notional(t: TradeInfo): real
  {
    t.amount * t.price
  }

  /** `list.reduce((sum, t) => sum + t.amount * t.price, 0)`. */
  function Volume(ts: seq<TradeInfo>): real
  {
    Sum(MapSeq(ts, Notional))
  }

  function WithVolume(e: (string, seq<TradeInfo>)): ExchangeVolume
  {
    ExchangeVolume(e.0, e.1, Volume(e.1))
  }

  /** The `[...grouped.entries()].map(...)` list, in the groups' order. */
  function Entries(g: Groups): (r: seq<ExchangeVolume>)
    ensures |r| == |g|
    ensures forall i :: 0 <= i < |g| ==> r[i] == WithVolume(g[i])
  {
    MapSeq(g, WithVolume)
  }

  function NegVolume(e: ExchangeVolume): real
  {
    -e.volume
  }

  /** `.sort((a, b) => b.volume - a.volume).slice(0, 3)`: the three entries
      of largest volume, largest first (ties keep their order). */
  function TopExchanges(entries: seq<ExchangeVolume>): (r: seq<ExchangeVolume>)
    ensures |r| == if |entries| < TOP_EXCHANGES then |entries| else TOP_EXCHANGES
    ensures multiset(r) <= multiset(entries)
    ensures forall i, j :: 0 <= i < j < |r| ==> r[i].volume >= r[j].volume
    ensures forall e, i :: e in multiset(entries) - multiset(r) && 0 <= i < |r| ==> e.volume <= r[i].volume
  {
    var sorted := SortBy(entries, NegVolume);
    TopPrefix(sorted, if |sorted| < TOP_EXCHANGES then |sorted| else TOP_EXCHANGES, entries)
  }

  /** The first `k` entries of a rearrangement of `entries` sorted by
      decreasing volume. */
  function TopPrefix(sorted: seq<ExchangeVolume>, k: nat, entries: seq<ExchangeVolume>): (r: seq<ExchangeVolume>)
    requires SortedBy(sorted, NegVolume) && multiset(sorted) == multiset(entries) && k <= |sorted|
    ensures |r| == k
    ensures multiset(r) <= multiset(entries)
    ensures forall i, j :: 0 <= i < j < |r| ==> r[i].volume >= r[j].volume
    ensures forall e, i :: e in multiset(entries) - multiset(r) && 0 <= i < |r| ==> e.volume <= r[i].volume
  {
    TopSplit(sorted, k, entries);
    sorted[..k]
  }

  /** A prefix of a list sorted by decreasing volume outranks the rest. */
  lemma TopSplit(sorted: seq<ExchangeVolume>, k: nat, entries: seq<ExchangeVolume>)
    requires SortedBy(sorted, NegVolume) && multiset(sorted) == multiset(entries) && k <= |sorted|
    ensures multiset(sorted[..k]) <= multiset(entries)
    ensures forall i, j :: 0 <= i < j < k ==> sorted[i].volume >= sorted[j].volume
    ensures forall e, i :: e in multiset(entries) - multiset(sorted[..k]) && 0 <= i < k ==> e.volume <= sorted[i].volume
  {
    assert sorted == sorted[..k] + sorted[k..];
    assert multiset(entries) - multiset(sorted[..k]) == multiset(sorted[k..]);
    forall i, j | 0 <= i < j < k ensures sorted[i].volume >= sorted[j].volume {
      assert NegVolume(sorted[i]) <= NegVolume(sorted[j]);
    }
    forall e, i | e in multiset(entries) - multiset(sorted[..k]) && 0 <= i < k
      ensures e.volume <= sorted[i].volume
    {
      assert e in sorted[k..];
      var j :| k <= j < |sorted| && sorted[j] == e;
      assert NegVolume(sorted[i]) <= NegVolume(sorted[j]);
    }
  }

  /** The kept exchanges' trades one after another. */
  function FlatEntries(es: seq<ExchangeVolume>): seq<TradeInfo>
    decreases |es|
  {
    if |es| == 0 then [] else es[0].trades + FlatEntries(es[1..])
  }

  lemma {:induction false} FlatEntriesAppend(a: seq<ExchangeVolume>, b: seq<ExchangeVolume>)
    ensures FlatEntries(a + b) == FlatEntries(a) + FlatEntries(b)
    decreases |a|
  {
    if |a| == 0 {
      assert a + b == b;
    } else {
      assert (a + b)[1..] == a[1..] + b;
      FlatEntriesAppend(a[1..], b);
    }
  }

  lemma {:induction false} FlatEntriesOfGroups(g: Groups)
    ensures FlatEntries(Entries(g)) == FlatGroups(g)
    decreases |g|
  {
    if |g| > 0 {
      assert Entries(g)[1..] == Entries(g[1..]);
      FlatEntriesOfGroups(g[1..]);
    }
  }

  /** The trades whose prices the top-3 median is taken over: those of the
      three exchanges of largest volume. */
  function Top3Trades(trades: seq<TradeInfo>): seq<TradeInfo>
  {
    FlatEntries(TopExchanges(Entries(GroupByExchange(trades))))
  }

  /** `sorted.flatMap(e => e.trades.map(t => t.price))`. */
  function Top3Prices(trades: seq<TradeInfo>): (r: seq<real>)
    ensures |r| == |Top3Trades(trades)|
  {
    TradePrices(Top3Trades(trades))
  }

  /** The kept trades are some of the input trades: each trade is used at
      most once, and there is at least one when there is any trade. */
  lemma Top3TradesFromInput(trades: seq<TradeInfo>)
    ensures multiset(Top3Trades(trades)) <= multiset(trades)
    ensures |trades| > 0 ==> |Top3Trades(trades)| > 0
  {
    var g := GroupByExchange(trades);
    var entries := Entries(g);
    TopFlat(entries);
    FlatEntriesOfGroups(g);
    GroupPartition(trades);
    if |trades| > 0 {
      assert trades[0] in multiset(FlatGroups(g));
      assert |g| > 0;
      forall i | 0 <= i < |entries| ensures |entries[i].trades| > 0 {
        assert g[i] in g;
      }
      var top := TopExchanges(entries);
      assert top[0] in multiset(entries);
      var j := PositionOf(entries, top[0]);
      assert FlatEntries(top) == top[0].trades + FlatEntries(top[1..]);
    }
  }

  /** The top exchanges' trades are some of all the exchanges' trades. */
  lemma TopFlat(entries: seq<ExchangeVolume>)
    ensures multiset(FlatEntries(TopExchanges(entries))) <= multiset(FlatEntries(entries))
  {
    var sorted := SortBy(entries, NegVolume);
    var k := if |sorted| < TOP_EXCHANGES then |sorted| else TOP_EXCHANGES;
    var top := sorted[..k];
    assert TopExchanges(entries) == top;
    assert sorted == top + sorted[k..];
    FlatEntriesAppend(top, sorted[k..]);
    FlatEntriesPermutation(sorted, entries);
  }

  lemma {:induction false} FlatEntriesPermutation(xs: seq<ExchangeVolume>, ys: seq<ExchangeVolume>)
    requires multiset(xs) == multiset(ys)
    ensures multiset(FlatEntries(xs)) == multiset(FlatEntries(ys))
    decreases |xs|
  {
    if |xs| == 0 {
      assert |ys| == |multiset(ys)| == 0;
    } else {
      var i := PositionOf(ys, xs[0]);
      var ys' := ys[..i] + ys[i + 1..];
      RemoveMatching(xs, ys, i);
      FlatEntriesPermutation(xs[1..], ys');
      FlatEntriesRemoveAt(ys, i);
      assert FlatEntries(xs) == xs[0].trades + FlatEntries(xs[1..]);
    }
  }

  lemma {:induction false} FlatEntriesRemoveAt(ys: seq<ExchangeVolume>, i: nat)
    requires i < |ys|
    ensures multiset(FlatEntries(ys)) == multiset(FlatEntries(ys[..i] + ys[i + 1..])) + multiset(ys[i].trades)
    decreases i
  {
    var removed := ys[..i] + ys[i + 1..];
    assert FlatEntries(ys) == ys[0].trades + FlatEntries(ys[1..]);
    if i == 0 {
      assert removed == ys[1..];
    } else {
      var rest := ys[1..];
      var rest' := rest[..i - 1] + rest[i..];
      assert removed == [ys[0]] + rest';
      assert FlatEntries(removed) == ys[0].trades + FlatEntries(rest') by {
        assert removed[0] == ys[0] && removed[1..] == rest';
      }
      FlatEntriesRemoveAt(rest, i - 1);
      assert rest[i - 1] == ys[i];
      assert multiset(ys[0].trades) + multiset(FlatEntries(rest)) ==
        (multiset(ys[0].trades) + multiset(FlatEntries(rest'))) + multiset(ys[i].trades);
    }
  }

  function VolumeOf(e: ExchangeVolume): real
  {
    e.volume
  }

  /** `sorted.reduce((s, e) => s + e.volume, 0) / sorted.length`, NaN for no
      entries. */
  function MeanVolume(top: seq<ExchangeVolume>): (r: Num)
    ensures r.NaN? <==> |top| == 0
  {
    if |top| == 0 then NaN else Real(Sum(MapSeq(top, VolumeOf)) / |top| as real)
  }

  // ---------------------------------------------------------------- top-3 exchange median

  /** `strategyTop3ExchangeMedian` on the trades it fetched: the median of
      the prices of the three exchanges of largest volume, or `fallback`
      without trades. The meta fields are the trade count, the number of
      prices used and the kept exchanges' mean volume. */
  function Top3Price(trades: seq<TradeInfo>, fallback: real, onchain: real): (r: StrategyResult)
    ensures r.onchain == onchain
    ensures |trades| == 0 ==> r == FallbackResult(fallback, onchain, [0.0, 0.0, 0.0], "Top3ExchangeMedian-NoTrades")
    ensures |trades| > 0 ==>
      r.name == "Top3ExchangeMedian" && r.value.Real? && r.ccxt == Some(r.value) &&
      r.value == Statistics.Median(Top3Prices(trades)) &&
      r.meta == [Real(|trades| as real), Real(|Top3Prices(trades)| as real),
                 MeanVolume(TopExchanges(Entries(GroupByExchange(trades))))]
  {
    if |trades| == 0 then FallbackResult(fallback, onchain, [0.0, 0.0, 0.0], "Top3ExchangeMedian-NoTrades")
    else
      var top := TopExchanges(Entries(GroupByExchange(trades)));
      var prices := Top3Prices(trades);
      Top3TradesFromInput(trades);
      var result := if |prices| > 0 then Statistics.Median(prices) else Real(fallback);
      StrategyResult(result, Some(result), onchain,
        [Real(|trades| as real), Real(|prices| as real), MeanVolume(top)], "Top3ExchangeMedian")
  }

  /** The top-3 median lies between the lowest and the highest trade price,
      and it uses at most as many prices as there are trades. */
  lemma Top3WithinTrades(trades: seq<TradeInfo>, fallback: real, onchain: real)
    ensures |trades| > 0 ==> 0 < |Top3Prices(trades)| <= |trades|
    ensures |trades| > 0 ==>
      Min(TradePrices(trades)) <= Top3Price(trades, fallback, onchain).value.r <= Max(TradePrices(trades))
  {
    if |trades| > 0 {
      var used := Top3Trades(trades);
      Top3TradesFromInput(trades);
      SubsetPricesWithin(used, trades);
      var xs, lo, hi := Top3Prices(trades), Min(TradePrices(trades)), Max(TradePrices(trades));
      assert lo <= Statistics.Median(xs).r <= hi by {
        var i :| 0 <= i < |xs| && xs[i] == Min(xs);
        var j :| 0 <= j < |xs| && xs[j] == Max(xs);
      }
    }
  }

  /** Some of the trades, each used at most once, are no more than all of
      them, and their prices lie within the range of all the prices. */
  lemma SubsetPricesWithin(used: seq<TradeInfo>, trades: seq<TradeInfo>)
    requires multiset(used) <= multiset(trades) && |trades| > 0
    ensures |used| <= |trades|
    ensures forall k :: 0 <= k < |used| ==>
      Min(TradePrices(trades)) <= TradePrices(used)[k] <= Max(TradePrices(trades))
  {
    assert multiset(trades) == multiset(used) + (multiset(trades) - multiset(used));
    forall k | 0 <= k < |used|
      ensures Min(TradePrices(trades)) <= TradePrices(used)[k] <= Max(TradePrices(trades))
    {
      assert used[k] in multiset(trades);
      var j := PositionOf(trades, used[k]);
      assert TradePrices(trades)[j] == used[k].price;
    }
  }

  /** `strategyTop3ExchangeMedian(...)`: the last minute's trades and the
      FTSO-first fallback. */
  function StrategyTop3(env: Env, feed: FeedId, onchain: real, lastFtso: Option<real>, lastUsdtFtso: Option<real>): (r: StrategyResult)
    ensures r.onchain == onchain
    ensures r.name in TOP3_NAMES
    ensures r.name != "Top3ExchangeMedian" ==> r.value == Real(FtsoFirst(onchain, lastFtso))
    ensures r.name == "Top3ExchangeMedian" ==>
      var trades := TradeList(env, feed.name, TOP3_WINDOW_MS, lastUsdtFtso);
      |trades| > 0 && r.value.Real? && Min(TradePrices(trades)) <= r.value.r <= Max(TradePrices(trades))
  {
    var trades := TradeList(env, feed.name, TOP3_WINDOW_MS, lastUsdtFtso);
    var fallback := FtsoFirst(onchain, lastFtso);
    Top3WithinTrades(trades, fallback, onchain);
    Top3Price(trades, fallback, onchain)
  }

  // ---------------------------------------------------------------- trimmed mean

  /** `Math.floor(n * 0.1)`, the number of prices dropped at each end. */
  function TrimCount(n: nat): (cut: nat)
    ensures cut == n / 10
  {
    assert (n as real * 0.1).Floor == n / 10 by {
      var q, m := n / 10, n % 10;
      assert n == 10 * q + m;
      assert n as real * 0.1 == q as real + m as real * 0.1;
    }
    (n as real * 0.1).Floor
  }

  /** `prices.slice(cut, prices.length - cut)` of the sorted trade prices:
      a tenth of them, rounded down, dropped from each end. */
  function TrimmedPrices(trades: seq<TradeInfo>): (r: seq<real>)
    ensures |r| == |trades| - 2 * TrimCount(|trades|)
    ensures |trades| > 0 ==> |r| > 0
    ensures Sorted(r)
    ensures forall i :: 0 <= i < |r| ==> r[i] in TradePrices(trades)
  {
    var sorted := SortReals(TradePrices(trades));
    var r := TrimEnds(sorted);
    assert forall i :: 0 <= i < |r| ==> r[i] in TradePrices(trades) by {
      forall i | 0 <= i < |r| ensures r[i] in TradePrices(trades) {
        assert r[i] in multiset(sorted);
      }
    }
    r
  }

  /** The sorted prices without a tenth of them, rounded down, at each end. */
  function TrimEnds(sorted: seq<real>): (r: seq<real>)
    requires Sorted(sorted)
    ensures |r| == |sorted| - 2 * TrimCount(|sorted|)
    ensures |sorted| > 0 ==> |r| > 0
    ensures Sorted(r)
    ensures forall i :: 0 <= i < |r| ==> r[i] in sorted
    ensures forall j :: 0 <= j < |r| ==> r[j] == sorted[TrimCount(|sorted|) + j]
  {
    var n, cut := |sorted|, TrimCount(|sorted|);
    assert 2 * cut <= n && (n > 0 ==> 2 * cut < n);
    var mid := sorted[cut..n - cut];
    assert Sorted(mid) by {
      forall i, j | 0 <= i < j < |mid| ensures mid[i] <= mid[j] {
        assert mid[i] == sorted[cut + i] && mid[j] == sorted[cut + j];
      }
    }
    mid
  }

  /** Every dropped price is at most, or at least, every kept price. */
  lemma TrimmedKeepsMiddle(trades: seq<TradeInfo>)
    ensures var sorted := SortReals(TradePrices(trades));
      var cut := TrimCount(|trades|);
      var kept := TrimmedPrices(trades);
      (forall i, j :: 0 <= i < cut && 0 <= j < |kept| ==> sorted[i] <= kept[j]) &&
      (forall i, j :: |trades| - cut <= i < |trades| && 0 <= j < |kept| ==> kept[j] <= sorted[i])
  {
    var sorted := SortReals(TradePrices(trades));
    var cut := TrimCount(|trades|);
    var kept := TrimEnds(sorted);
    assert TrimmedPrices(trades) == kept;
    forall i, j | 0 <= i < cut && 0 <= j < |kept| ensures sorted[i] <= kept[j] {
      assert kept[j] == sorted[cut + j];
    }
    forall i, j | |trades| - cut <= i < |trades| && 0 <= j < |kept| ensures kept[j] <= sorted[i] {
      assert kept[j] == sorted[cut + j];
    }
  }

  /** `strategyTrimmedMean` on the trades it fetched: the mean of the
      trimmed prices, or `fallback` without trades. The meta fields are the
      count dropped at each end, the count kept and the trade count. */
  function TrimmedMeanPrice(trades: seq<TradeInfo>, fallback: real, onchain: real): (r: StrategyResult)
    ensures r.onchain == onchain
    ensures |trades| == 0 ==> r == FallbackResult(fallback, onchain, [0.0, 0.0, 0.0], "TrimmedMean-NoTrades")
    ensures |trades| > 0 ==>
      r.name == "TrimmedMean" && r.value == Real(Mean(TrimmedPrices(trades))) && r.ccxt == Some(r.value) &&
      r.meta == Nums([TrimCount(|trades|) as real, |TrimmedPrices(trades)| as real, |trades| as real])
  {
    if |trades| == 0 then FallbackResult(fallback, onchain, [0.0, 0.0, 0.0], "TrimmedMean-NoTrades")
    else
      var trimmed := TrimmedPrices(trades);
      var avg := Mean(trimmed);
      Plain(avg, onchain, Nums([TrimCount(|trades|) as real, |trimmed| as real, |trades| as real]), "TrimmedMean")
  }

  /** The trimmed mean lies between the lowest and the highest trade price. */
  lemma TrimmedMeanBounds(trades: seq<TradeInfo>, fallback: real, onchain: real)
    requires |trades| > 0
    ensures Min(TradePrices(trades)) <= TrimmedMeanPrice(trades, fallback, onchain).value.r <= Max(TradePrices(trades))
  {
    var kept := TrimmedPrices(trades);
    var lo, hi := Min(TradePrices(trades)), Max(TradePrices(trades));
    forall i | 0 <= i < |kept| ensures lo <= kept[i] <= hi {
      var j :| 0 <= j < |trades| && TradePrices(trades)[j] == kept[i];
    }
    MeanBounds(kept, lo, hi);
  }

  /** The trimmed mean depends only on the multiset of trade prices, not on
      the order the trades arrived in. */
  lemma TrimmedMeanPermutation(ts: seq<TradeInfo>, us: seq<TradeInfo>, fallback: real, onchain: real)
    requires multiset(TradePrices(ts)) == multiset(TradePrices(us))
    ensures TrimmedMeanPrice(ts, fallback, onchain) == TrimmedMeanPrice(us, fallback, onchain)
  {
    assert |ts| == |multiset(TradePrices(ts))| == |multiset(TradePrices(us))| == |us|;
    SortRealsPermutation(TradePrices(ts), TradePrices(us));
    assert TrimmedPrices(ts) == TrimmedPrices(us);
  }

  /** `strategyTrimmedMean(...)`: the last minute's trades and the
      on-chain-first fallback. */
  function StrategyTrimmedMean(env: Env, feed: FeedId, onchain: real, lastFtso: Option<real>, lastUsdtFtso: Option<real>): (r: StrategyResult)
    ensures r.onchain == onchain
    ensures r.name in TRIMMED_MEAN_NAMES
    ensures r.name != "TrimmedMean" ==> r.value == Real(OnchainFirst(onchain, lastFtso))
    ensures r.name == "TrimmedMean" ==>
      var trades := TradeList(env, feed.name, TRIMMED_MEAN_WINDOW_MS, lastUsdtFtso);
      |trades| > 0 && r.value.Real? && Min(TradePrices(trades)) <= r.value.r <= Max(TradePrices(trades))
  {
    var trades := TradeList(env, feed.name, TRIMMED_MEAN_WINDOW_MS, lastUsdtFtso);
    var fallback := OnchainFirst(onchain, lastFtso);
    if |trades| > 0 then
      TrimmedMeanBounds(trades, fallback, onchain);
      TrimmedMeanPrice(trades, fallback, onchain)
    else TrimmedMeanPrice(trades, fallback, onchain)
  }

  // ---------------------------------------------------------------- rolling MAD filter

  /** `strategyRollingMADFilter` on the trades it fetched: the on-chain
      price when it lies within three median absolute deviations of the
      trade median, the median otherwise, with the median as ccxt price;
      `fallback` without trades. The meta fields are the MAD and the trade
      count. */
  function RollingMadPrice(trades: seq<TradeInfo>, fallback: real, onchain: real): (r: StrategyResult)
    ensures r.onchain == onchain
    ensures |trades| == 0 ==> r == FallbackResult(fallback, onchain, [0.0, 0.0], "RollingMAD-NoTrades")
    ensures |trades| > 0 ==>
      var med := Statistics.Median(TradePrices(trades));
      var mad := Statistics.Mad(TradePrices(trades));
      med.Real? && mad.Real? && r.ccxt == Some(med) && r.meta == [mad, Real(|trades| as real)] &&
      (r.name == "RollingMAD-OnchainOK" <==> Abs(onchain - med.r) <= 3.0 * mad.r) &&
      (r.name == "RollingMAD-OnchainOK" ==> r.value == Real(onchain)) &&
      (r.name != "RollingMAD-OnchainOK" ==> r.name == "RollingMAD-MedianUsed" && r.value == med)
  {
    if |trades| == 0 then FallbackResult(fallback, onchain, [0.0, 0.0], "RollingMAD-NoTrades")
    else
      var prices := TradePrices(trades);
      var med := Statistics.Median(prices).r;
      var deviation := Statistics.Mad(prices).r;
      var distance := Abs(onchain - med);
      var medianUsed := distance > 3.0 * deviation;
      StrategyResult(Real(if medianUsed then med else onchain), Some(Real(med)), onchain,
        [Real(deviation), Real(|trades| as real)], if medianUsed then "RollingMAD-MedianUsed" else "RollingMAD-OnchainOK")
  }

  /** The filtered price is within three MADs of the median: the on-chain
      price passes when it already is, the median itself otherwise. */
  lemma RollingMadWithinBand(trades: seq<TradeInfo>, fallback: real, onchain: real)
    requires |trades| > 0
    ensures var r := RollingMadPrice(trades, fallback, onchain);
      var med := Statistics.Median(TradePrices(trades)).r;
      r.value.Real? && Abs(r.value.r - med) <= 3.0 * Statistics.Mad(TradePrices(trades)).r &&
      (r.value.r == onchain || r.value.r == med)
  {
    var med := Statistics.Median(TradePrices(trades)).r;
    assert Abs(med - med) == 0.0;
  }

  /** The filter depends only on the multiset of trade prices. */
  lemma RollingMadPermutation(ts: seq<TradeInfo>, us: seq<TradeInfo>, fallback: real, onchain: real)
    requires multiset(TradePrices(ts)) == multiset(TradePrices(us))
    ensures RollingMadPrice(ts, fallback, onchain) == RollingMadPrice(us, fallback, onchain)
  {
    assert |ts| == |multiset(TradePrices(ts))| == |multiset(TradePrices(us))| == |us|;
    Statistics.MedianPermutation(TradePrices(ts), TradePrices(us));
    Statistics.MadPermutation(TradePrices(ts), TradePrices(us));
  }

  /** `strategyRollingMADFilter(...)`: the last two minutes' trades and the
      on-chain-first fallback. */
  function StrategyRollingMad(env: Env, feed: FeedId, onchain: real, lastFtso: Option<real>, lastUsdtFtso: Option<real>): (r: StrategyResult)
    ensures r.onchain == onchain
    ensures r.name in ROLLING_MAD_NAMES
    ensures r.name == "RollingMAD-NoTrades" ==> r.value == Real(OnchainFirst(onchain, lastFtso))
    ensures r.name != "RollingMAD-NoTrades" ==>
      r.value.Real? && r.ccxt.Some? && r.ccxt.value.Real? && (r.value.r == onchain || r.value == r.ccxt.value)
  {
    var trades := TradeList(env, feed.name, ROLLING_MAD_WINDOW_MS, lastUsdtFtso);
    var fallback := OnchainFirst(onchain, lastFtso);
    RollingMadPrice(trades, fallback, onchain)
  }
}
