/** `Test1CcxtFeed`: the ccxt median price shifted by a small offset that
    follows the recent drift of the feed's exchange prices, normalised by
    their standard deviation and capped at 0.001. `Math.sqrt` is a
    parameter. */
module Test1Feed {
  import opened Common
  import opened Market
  import opened CcxtState
  import CcxtPrice
  import Fallback

  /** Fewer exchange prices than this give no offset. */
  const MIN_PRICES: nat := 5

  /** Only the newest prices count towards the offset. */
  const RECENT_PRICES: nat := 20

  const MAX_ADJUST: real := 0.001
  const OFFSET_GAIN: real := 0.0005

  /** The mean step above which a series is rising, and below whose
      negation it is falling. */
  const TREND_STEP: real := 0.0001

  // ---------------------------------------------------------------- exchange prices

  /** `latestPrice.get(symbol)?.get(exchange)` when its value is positive. */
  function SourcePrice(latest: PriceMap, s: Source): (r: Option<real>)
    ensures r.Some? ==> r.value > 0.0
  {
    match Get(latest, s.symbol)
    case None => None
    case Some(m) =>
      match Get(m, s.exchange)
      case None => None
      case Some(info) => if info.value > 0.0 then Some(info.value) else None
  }

  /** The positive prices of the sources, in source order. */
  function PositivePrices(latest: PriceMap, sources: seq<Source>): (r: seq<real>)
    ensures |r| <= |sources|
    ensures forall i :: 0 <= i < |r| ==> r[i] > 0.0
  {
    if |sources| == 0 then []
    else
      var rest := PositivePrices(latest, sources[1..]);
      match SourcePrice(latest, sources[0])
      case None => rest
      case Some(p) => [p] + rest
  }

  /** When every source has a positive price, nothing is skipped and the
      prices follow the sources one for one. */
  lemma {:induction false} PositivePricesComplete(latest: PriceMap, sources: seq<Source>)
    requires forall i :: 0 <= i < |sources| ==> SourcePrice(latest, sources[i]).Some?
    ensures |PositivePrices(latest, sources)| == |sources|
    ensures forall i :: 0 <= i < |sources| ==> PositivePrices(latest, sources)[i] == SourcePrice(latest, sources[i]).value
    decreases |sources|
  {
    if |sources| > 0 {
      PositivePricesComplete(latest, sources[1..]);
    }
  }

  /** `getLatestExchangePrices(feed)`: the positive latest prices of the
      sources of the first configuration entry equal to the feed, or none
      when there is no such entry. */
  function LatestExchangePrices(config: seq<FeedConfig>, latest: PriceMap, feed: FeedId): (r: seq<real>)
    ensures FindConfig(config, feed).None? ==> r == []
    ensures FindConfig(config, feed).Some? ==> r == PositivePrices(latest, FindConfig(config, feed).value.sources)
  {
    match FindConfig(config, feed)
    case None => []
    case Some(c) => PositivePrices(latest, c.sources)
  }

  // ---------------------------------------------------------------- trend

  /** `prices.slice(1).map((p, i) => p - prices[i])`. */
  function Deltas(xs: seq<real>): (r: seq<real>)
    requires |xs| > 0
    ensures |r| == |xs| - 1
    ensures forall i :: 0 <= i < |r| ==> r[i] == xs[i + 1] - xs[i]
  {
    seq(|xs| - 1, i requires 0 <= i < |xs| - 1 => xs[i + 1] - xs[i])
  }

  /** The consecutive steps add up to the overall move. */
  lemma {:induction false} Telescoping(xs: seq<real>)
    requires |xs| > 0
    ensures Sum(Deltas(xs)) == xs[|xs| - 1] - xs[0]
    decreases |xs|
  {
    var d := Deltas(xs);
    if |xs| == 1 {
      assert d == [];
    } else {
      var init := xs[..|xs| - 1];
      Telescoping(init);
      assert d[..|d| - 1] == Deltas(init);
    }
  }

  /** `detectTrend(prices)`: flat for fewer than three prices, otherwise by
      the mean step against `TREND_STEP`. */
  function DetectTrend(prices: seq<real>): (t: Trend)
    ensures |prices| < 3 ==> t == Flat
    ensures |prices| >= 3 ==> (t == Up <==> Mean(Deltas(prices)) > TREND_STEP)
    ensures |prices| >= 3 ==> (t == Down <==> Mean(Deltas(prices)) < -TREND_STEP)
  {
    if |prices| < 3 then Flat
    else
      var avg := Mean(Deltas(prices));
      if avg > TREND_STEP then Up
      else if avg < -TREND_STEP then Down
      else Flat
  }

  /** The mean step is the overall move spread over the steps, so only the
      first and the last price decide the trend. */
  lemma TrendFromEndpoints(prices: seq<real>)
    requires |prices| >= 3
    ensures var move := (prices[|prices| - 1] - prices[0]) / (|prices| - 1) as real;
      (DetectTrend(prices) == Up <==> move > TREND_STEP) &&
      (DetectTrend(prices) == Down <==> move < -TREND_STEP)
  {
    Telescoping(prices);
  }

  // ---------------------------------------------------------------- offset

  /** `prices.slice(-20)`. */
  function Recent(prices: seq<real>): (r: seq<real>)
    ensures |r| == if |prices| < RECENT_PRICES then |prices| else RECENT_PRICES
    ensures r == prices[|prices| - |r|..]
  {
    if |prices| <= RECENT_PRICES then prices else prices[|prices| - RECENT_PRICES..]
  }

  function SquaredDistance(m: real): real -> real
  {
    p => (p - m) * (p - m)
  }

  /** The population variance `Σ (p - mean)² / n`. */
  function Variance(xs: seq<real>): (v: real)
    requires |xs| > 0
    ensures v >= 0.0
  {
    var d := MapSeq(xs, SquaredDistance(Mean(xs)));
    assert forall i :: 0 <= i < |d| ==> d[i] >= 0.0 by {
      forall i | 0 <= i < |d| ensures d[i] >= 0.0 {
        var x := xs[i] - Mean(xs);
        if x < 0.0 {
          assert x * x == (-x) * (-x);
        }
      }
    }
    SumNonNegative(d);
    Sum(d) / |xs| as real
  }

  /** `Math.max(lo, Math.min(hi, x))`. */
  function Clamp(x: real, lo: real, hi: real): (r: real)
    requires lo <= hi
    ensures lo <= r <= hi
    ensures lo <= x <= hi ==> r == x
  {
    if x > hi then hi else if x < lo then lo else x
  }

  /** The normalised drift of the recent prices, or 0 when their standard
      deviation is not positive. */
  function Normalized(recent: seq<real>, sqrt: real -> real): real
    requires |recent| > 1
  {
    var stddev := sqrt(Variance(recent));
    if stddev > 0.0 then Mean(Deltas(recent)) / stddev else 0.0
  }

  /** `calculateDynamicOffset(prices)`: 0 for fewer than five prices,
      otherwise the normalised drift of the newest twenty times the gain,
      clamped to `[-0.001, 0.001]`. */
  function DynamicOffset(prices: seq<real>, sqrt: real -> real): (r: real)
    ensures -MAX_ADJUST <= r <= MAX_ADJUST
    ensures |prices| < MIN_PRICES ==> r == 0.0
    ensures |prices| >= MIN_PRICES && sqrt(Variance(Recent(prices))) <= 0.0 ==> r == 0.0
  {
    if |prices| < MIN_PRICES then 0.0
    else Clamp(Normalized(Recent(prices), sqrt) * OFFSET_GAIN, -MAX_ADJUST, MAX_ADJUST)
  }

  /** Where there is an offset, it points the way the newest twenty prices
      moved from first to last: up for a rise, down for a fall, none for no
      net move. */
  lemma OffsetFollowsDrift(prices: seq<real>, sqrt: real -> real)
    requires |prices| >= MIN_PRICES
    requires sqrt(Variance(Recent(prices))) > 0.0
    ensures var recent := Recent(prices);
      var move := recent[|recent| - 1] - recent[0];
      (move > 0.0 <==> DynamicOffset(prices, sqrt) > 0.0) &&
      (move < 0.0 <==> DynamicOffset(prices, sqrt) < 0.0)
  {
    var recent := Recent(prices);
    var d := Deltas(recent);
    var sd := sqrt(Variance(recent));
    var move := recent[|recent| - 1] - recent[0];
    MeanStepIsMove(recent);
    QuotientSign(move, |d| as real);
    QuotientSign(Mean(d), sd);
    assert Normalized(recent, sqrt) == Mean(d) / sd;
    var x := Normalized(recent, sqrt);
    assert x > 0.0 <==> Clamp(x * OFFSET_GAIN, -MAX_ADJUST, MAX_ADJUST) > 0.0;
    assert x < 0.0 <==> Clamp(x * OFFSET_GAIN, -MAX_ADJUST, MAX_ADJUST) < 0.0;
  }

  /** The mean step of a series is its overall move spread over the steps. */
  lemma MeanStepIsMove(xs: seq<real>)
    requires |xs| > 1
    ensures Mean(Deltas(xs)) == (xs[|xs| - 1] - xs[0]) / (|xs| - 1) as real
  {
    Telescoping(xs);
  }

  /** `Test1CcxtFeed.getValue(feed)` on the ccxt price `base`: the price
      plus the dynamic offset, never more than 0.001 away from it. */
  function Test1Value(base: real, config: seq<FeedConfig>, latest: PriceMap, feed: FeedId, sqrt: real -> real): (r: FeedValue)
    ensures r.feed == feed
    ensures Abs(r.value - base) <= MAX_ADJUST
    ensures |LatestExchangePrices(config, latest, feed)| < MIN_PRICES ==> r.value == base
  {
    FeedValue(feed, base + DynamicOffset(LatestExchangePrices(config, latest, feed), sqrt))
  }

  /** `Test1CcxtFeed.getValue(feed)` on the provider state: `super.getValue`
      runs first, purging stale prices and updating the fallbacks, and the
      offset is taken from the exchange prices it leaves. The value stays
      within 0.001 of the ccxt value and equals it with fewer than five fresh
      prices; the state afterwards is the one the ccxt call leaves. */
  function Test1GetValue(fuel: nat, config: seq<FeedConfig>, latest: PriceMap, fallbacks: Fallback.FallbackMap, feed: FeedId,
                         now: int, decayRate: real, exp: real -> real, sqrt: real -> real): (r: (FeedValue, PriceMap, Fallback.FallbackMap))
    ensures var base := CcxtPrice.GetValue(fuel, config, latest, fallbacks, feed, now, decayRate, exp);
      r.0.feed == feed && Abs(r.0.value - base.0.value) <= MAX_ADJUST && r.1 == base.1 && r.2 == base.2
    ensures var base := CcxtPrice.GetValue(fuel, config, latest, fallbacks, feed, now, decayRate, exp);
      |LatestExchangePrices(config, PurgeStale(latest, CcxtPrice.PRICE_TTL_MS, now), feed)| < MIN_PRICES ==> r.0.value == base.0.value
  {
    var base := CcxtPrice.GetValue(fuel, config, latest, fallbacks, feed, now, decayRate, exp);
    (Test1Value(base.0.value, config, base.1, feed, sqrt), base.1, base.2)
  }

  /** A price past its time-to-live never moves the offset: asking on the
      purged state gives the same value and fallbacks. */
  lemma Test1IgnoresStale(fuel: nat, config: seq<FeedConfig>, latest: PriceMap, fallbacks: Fallback.FallbackMap, feed: FeedId,
                          now: int, decayRate: real, exp: real -> real, sqrt: real -> real)
    ensures var a := Test1GetValue(fuel, config, PurgeStale(latest, CcxtPrice.PRICE_TTL_MS, now), fallbacks, feed, now, decayRate, exp, sqrt);
      var b := Test1GetValue(fuel, config, latest, fallbacks, feed, now, decayRate, exp, sqrt);
      a.0 == b.0 && a.2 == b.2
  {
    CcxtPrice.GetValueIgnoresStale(fuel, config, latest, fallbacks, feed, now, decayRate, exp);
  }
}
