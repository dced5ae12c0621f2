/** The volume-weighted average price of the trades of the last five minutes
    (`getVWAP`). The clock is the parameter `now`. */
module Vwap {
  import opened Common
  import opened Market
  import opened Weighting

  /** Trades at most this old (exclusive) take part, in milliseconds. */
  const VWAP_WINDOW_MS: int := 5 * 60000

  function RecentWithin(now: int, windowMs: int): TradeInfo -> bool
  {
    (t: TradeInfo) => now - t.timestamp < windowMs
  }

  /** A trade as a price weighted by its amount. */
  function ByAmount(t: TradeInfo): Weighted
  {
    Weighted(t.price, t.amount)
  }

  /** The recent trades as amount-weighted prices: their total weight is the
      source's `volSum` and the sum of their products is `pvSum`. */
  function RecentVolume(trades: seq<TradeInfo>, now: int): (r: seq<Weighted>)
    ensures |r| <= |trades|
  {
    MapSeq(Filter(trades, RecentWithin(now, VWAP_WINDOW_MS)), ByAmount)
  }

  /** Every entry of the recent volume comes from a recent trade. */
  lemma RecentVolumeFrom(trades: seq<TradeInfo>, now: int, i: nat)
    requires i < |RecentVolume(trades, now)|
    ensures exists t :: t in trades && RecentVolume(trades, now)[i] == ByAmount(t) && now - t.timestamp < VWAP_WINDOW_MS
  {
    var recent := Filter(trades, RecentWithin(now, VWAP_WINDOW_MS));
    assert recent[i] in trades && RecentWithin(now, VWAP_WINDOW_MS)(recent[i]);
  }

  /** `getVWAP(trades)`: undefined when the recent amounts sum to zero;
      otherwise the price that, multiplied by the recent volume, gives the
      recent price-times-amount total. */
  function GetVWAP(trades: seq<TradeInfo>, now: int): (r: Option<real>)
    ensures r.None? <==> TotalWeight(RecentVolume(trades, now)) == 0.0
  {
    var ws := RecentVolume(trades, now);
    var volSum := TotalWeight(ws);
    if volSum == 0.0 then None
    else Some(Sum(Products(ws)) / volSum)
  }

  /** The VWAP times the recent volume gives back the recent
      price-times-amount total. */
  lemma VWAPBalance(trades: seq<TradeInfo>, now: int)
    ensures GetVWAP(trades, now).Some? ==>
      GetVWAP(trades, now).value * TotalWeight(RecentVolume(trades, now)) == Sum(Products(RecentVolume(trades, now)))
  {
  }

  /** With non-negative amounts, the VWAP of the recent trades lies between
      any lower and upper bound of their prices. */
  lemma VWAPBounds(trades: seq<TradeInfo>, now: int, lo: real, hi: real)
    requires forall i :: 0 <= i < |trades| ==> trades[i].amount >= 0.0
    requires forall i :: 0 <= i < |trades| && now - trades[i].timestamp < VWAP_WINDOW_MS ==> lo <= trades[i].price <= hi
    ensures GetVWAP(trades, now).Some? ==> lo <= GetVWAP(trades, now).value <= hi
  {
    var ws := RecentVolume(trades, now);
    forall i | 0 <= i < |ws|
      ensures ws[i].weight >= 0.0 && lo <= ws[i].price <= hi
    {
      RecentVolumeFrom(trades, now, i);
      var t :| t in trades && ws[i] == ByAmount(t) && now - t.timestamp < VWAP_WINDOW_MS;
    }
    RatioBounds(RecentVolume(trades, now), lo, hi);
  }

  /** A trade five minutes old or older changes nothing, wherever it sits. */
  lemma StaleTradeIgnored(before: seq<TradeInfo>, t: TradeInfo, after: seq<TradeInfo>, now: int)
    requires now - t.timestamp >= VWAP_WINDOW_MS
    ensures GetVWAP(before + [t] + after, now) == GetVWAP(before + after, now)
  {
    var p := RecentWithin(now, VWAP_WINDOW_MS);
    assert Filter(before + [t] + after, p) == Filter(before + after, p) by {
      FilterAppend(before + [t], after, p);
      FilterAppend(before, [t], p);
      FilterAppend(before, after, p);
      assert Filter([t], p) == [];
      assert Filter(before + [t], p) == Filter(before, p);
    }
    assert RecentVolume(before + [t] + after, now) == RecentVolume(before + after, now);
  }

  /** The VWAP of trades all at one price is that price. */
  lemma VWAPOfOnePrice(trades: seq<TradeInfo>, now: int, price: real)
    requires forall i :: 0 <= i < |trades| ==> trades[i].amount >= 0.0 && trades[i].price == price
    ensures GetVWAP(trades, now).Some? ==> GetVWAP(trades, now).value == price
  {
    VWAPBounds(trades, now, price, price);
  }
}
