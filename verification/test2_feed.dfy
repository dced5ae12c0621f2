/** `Test2CcxtFeed`: the ccxt price scaled by a bias made of half the
    relative price change of the feed's symbol, a small discount under high
    traded volume and a random noise term. `Math.random()` is a parameter;
    a relative change that is not a finite number (a zero oldest price) is
    reported as NaN. */
module Test2Feed {
  import opened Common
  import opened Sorting
  import opened Market
  import opened CcxtState
  import CcxtPrice
  import Fallback
  import Volumes

  /** `getVolume(60)`: the volume of the last minute counts. */
  const VOLUME_WINDOW_SEC: int := 60

  /** Summed volume above this makes the feed bid slightly lower. */
  const HIGH_VOLUME: real := 50000.0
  const HIGH_VOLUME_BIAS: real := -0.00003

  /** The noise is a uniform draw scaled to this span. */
  const NOISE_SPAN: real := 0.00005

  /** The share of the relative price change that enters the bias. */
  const TREND_SHARE: real := 0.5

  // ---------------------------------------------------------------- trend

  function InfoTime(p: PriceInfo): real
  {
    p.time as real
  }

  /** `(latest - oldest) / oldest`, NaN where JavaScript gives a non-finite
      number (a zero oldest price). */
  function RelativeChange(oldest: real, newest: real): (r: Num)
    ensures r.NaN? <==> oldest == 0.0
    ensures oldest > 0.0 ==> (r.r > 0.0 <==> newest > oldest) && (r.r < 0.0 <==> newest < oldest)
  {
    if oldest == 0.0 then NaN
    else if oldest > 0.0 then
      QuotientSign(newest - oldest, oldest);
      Real((newest - oldest) / oldest)
    else Real((newest - oldest) / oldest)
  }

  /** `estimateTrend(symbol)`: 0 when the symbol has no prices or fewer than
      two; otherwise the relative change from the earliest to the latest
      price, ordered by time (ties keep the map order). */
  function EstimateTrend(latest: PriceMap, symbol: string): (r: Num)
    ensures Get(latest, symbol).None? ==> r == Real(0.0)
    ensures Get(latest, symbol).Some? && |Get(latest, symbol).value| < 2 ==> r == Real(0.0)
  {
    match Get(latest, symbol)
    case None => Real(0.0)
    case Some(m) =>
      var sorted := SortBy(Values(m), InfoTime);
      if |sorted| < 2 then Real(0.0)
      else RelativeChange(sorted[0].value, sorted[|sorted| - 1].value)
  }

  /** With at least two prices, the trend is the relative change between an
      entry of earliest time and an entry of latest time. */
  lemma TrendFromOldestToNewest(latest: PriceMap, symbol: string) returns (i: nat, j: nat)
    requires Get(latest, symbol).Some? && |Get(latest, symbol).value| >= 2
    ensures var m := Get(latest, symbol).value;
      i < |m| && j < |m| &&
      (forall k :: 0 <= k < |m| ==> m[i].1.time <= m[k].1.time <= m[j].1.time) &&
      EstimateTrend(latest, symbol) == RelativeChange(m[i].1.value, m[j].1.value)
  {
    var m := Get(latest, symbol).value;
    var vs := Values(m);
    i, j := SortedEnds(vs, InfoTime);
    var sorted := SortBy(vs, InfoTime);
    assert EstimateTrend(latest, symbol) == RelativeChange(sorted[0].value, sorted[|sorted| - 1].value);
    assert sorted[0] == m[i].1 && sorted[|sorted| - 1] == m[j].1;
    assert forall k :: 0 <= k < |m| ==> m[i].1.time <= m[k].1.time <= m[j].1.time by {
      forall k | 0 <= k < |m|
        ensures m[i].1.time <= m[k].1.time <= m[j].1.time
      {
        assert InfoTime(vs[i]) <= InfoTime(vs[k]) <= InfoTime(vs[j]);
      }
    }
  }

  /** The first element of a sorted copy has the least key of the input and
      the last one the greatest; both are input elements. */
  lemma SortedEnds<T>(s: seq<T>, key: T -> real) returns (i: nat, j: nat)
    requires |s| > 0
    ensures i < |s| && j < |s|
    ensures SortBy(s, key)[0] == s[i] && SortBy(s, key)[|s| - 1] == s[j]
    ensures forall k :: 0 <= k < |s| ==> key(s[i]) <= key(s[k]) <= key(s[j])
  {
    var sorted := SortBy(s, key);
    var lo, hi := sorted[0], sorted[|s| - 1];
    assert lo in multiset(s) && hi in multiset(s);
    i := PositionOf(s, lo);
    j := PositionOf(s, hi);
    forall k | 0 <= k < |s|
      ensures key(lo) <= key(s[k]) <= key(hi)
    {
      SortByEnds(s, key, k);
    }
  }

  // ---------------------------------------------------------------- volume

  /** `vol.getVolume(60)`, which never fails for a one-minute window. */
  function MinuteVolume(v: Volumes.VolumeStore, now: int): real
    requires Volumes.Valid(v)
  {
    Volumes.GetVolume(v, VOLUME_WINDOW_SEC, now).value
  }

  /** The minute volumes of every exchange of a symbol, added up. */
  function TotalVolume(m: OMap<string, Volumes.VolumeStore>, now: int): real
    requires CcxtPrice.ValidStores(m)
  {
    if |m| == 0 then 0.0
    else
      assert m[0] in m;
      assert forall e :: e in m[1..] ==> e in m;
      MinuteVolume(m[0].1, now) + TotalVolume(m[1..], now)
  }

  /** Stores that saw no trade report no volume. */
  lemma {:induction false} QuietStoresNoVolume(m: OMap<string, Volumes.VolumeStore>, now: int)
    requires CcxtPrice.ValidStores(m)
    requires forall e :: e in m ==> !Volumes.HasLast(e.1)
    ensures TotalVolume(m, now) == 0.0
    decreases |m|
  {
    if |m| > 0 {
      assert m[0] in m;
      assert forall e :: e in m[1..] ==> e in m;
      QuietStoresNoVolume(m[1..], now);
    }
  }

  /** `getVolumeBias(symbol)`: a discount of 0.00003 when the symbol's
      summed minute volume exceeds 50000, nothing otherwise or when the
      symbol has no stores. */
  function VolumeBias(vm: VolumeMap, symbol: string, now: int): (r: real)
    requires ValidVolumes(vm)
    ensures r == 0.0 || r == HIGH_VOLUME_BIAS
    ensures Get(vm, symbol).None? ==> r == 0.0
  {
    match Get(vm, symbol)
    case None => 0.0
    case Some(m) =>
      CcxtPrice.ValidStoresOf(vm, symbol);
      if TotalVolume(m, now) > HIGH_VOLUME then HIGH_VOLUME_BIAS else 0.0
  }

  /** The discount applies exactly when the symbol's exchanges traded more
      than 50000 in the last minute. */
  lemma VolumeBiasExact(vm: VolumeMap, symbol: string, now: int)
    requires ValidVolumes(vm)
    requires Get(vm, symbol).Some?
    ensures CcxtPrice.ValidStores(Get(vm, symbol).value)
    ensures VolumeBias(vm, symbol, now) == HIGH_VOLUME_BIAS <==> TotalVolume(Get(vm, symbol).value, now) > HIGH_VOLUME
  {
    CcxtPrice.ValidStoresOf(vm, symbol);
  }

  /** A symbol none of whose stores saw a trade gets no discount. */
  lemma QuietSymbolNoBias(vm: VolumeMap, symbol: string, now: int)
    requires ValidVolumes(vm)
    requires Get(vm, symbol).Some?
    requires forall e :: e in Get(vm, symbol).value ==> !Volumes.HasLast(e.1)
    ensures VolumeBias(vm, symbol, now) == 0.0
  {
    CcxtPrice.ValidStoresOf(vm, symbol);
    QuietStoresNoVolume(Get(vm, symbol).value, now);
  }

  // ---------------------------------------------------------------- adjustment

  /** `(Math.random() - 0.5) * 0.00005`. */
  function Noise(rand: real): real
  {
    (rand - 0.5) * NOISE_SPAN
  }

  /** For a draw in `[0, 1)` the noise lies in `[-0.000025, 0.000025)`. */
  lemma NoiseBound(rand: real)
    requires 0.0 <= rand < 1.0
    ensures -NOISE_SPAN / 2.0 <= Noise(rand) < NOISE_SPAN / 2.0
  {
  }

  /** `original * (1 + trend * 0.5 + volumeBias + noise)`; a non-finite
      trend makes the result non-finite. */
  function AdjustPrice(original: real, trend: Num, volumeBias: real, noise: real): (r: Num)
    ensures r.NaN? <==> trend.NaN?
  {
    match trend
    case NaN => NaN
    case Real(t) => Real(original * (1.0 + t * TREND_SHARE + volumeBias + noise))
  }

  /** For a positive price, the adjustment moves the price up exactly when
      the bias terms add up to more than zero, and down exactly when they
      add up to less. */
  lemma AdjustDirection(original: real, t: real, volumeBias: real, noise: real)
    requires original > 0.0
    ensures var r := AdjustPrice(original, Real(t), volumeBias, noise).r;
      var bias := t * TREND_SHARE + volumeBias + noise;
      (r > original <==> bias > 0.0) && (r < original <==> bias < 0.0)
  {
    var bias := t * TREND_SHARE + volumeBias + noise;
    assert original * (1.0 + bias) == original + original * bias;
    if bias > 0.0 {
      assert original * bias > 0.0;
    } else if bias < 0.0 {
      assert original * (-bias) > 0.0;
    }
  }

  /** The whole bias without trend is a small relative move: with no trend,
      the adjusted price stays within 0.0055 % of the original. */
  lemma FlatAdjustBound(original: real, volumeBias: real, rand: real)
    requires 0.0 <= rand < 1.0
    requires volumeBias == 0.0 || volumeBias == HIGH_VOLUME_BIAS
    ensures Abs(AdjustPrice(original, Real(0.0), volumeBias, Noise(rand)).r - original)
      <= Abs(original) * (NOISE_SPAN / 2.0 - HIGH_VOLUME_BIAS)
  {
    var b := volumeBias + Noise(rand);
    NoiseBound(rand);
    assert -(NOISE_SPAN / 2.0 - HIGH_VOLUME_BIAS) <= b <= NOISE_SPAN / 2.0 - HIGH_VOLUME_BIAS;
    assert AdjustPrice(original, Real(0.0), volumeBias, Noise(rand)).r - original == original * b;
    AbsProduct(original, b, NOISE_SPAN / 2.0 - HIGH_VOLUME_BIAS);
  }

  /** The largest move `getValue` can make to `original` with trend `t`:
      half the trend, the 0.00003 volume discount and half the noise span,
      relative to the price. */
  function MaxMove(original: real, t: real): real
  {
    Abs(original) * (TREND_SHARE * Abs(t) - HIGH_VOLUME_BIAS + NOISE_SPAN / 2.0)
  }

  /** Any adjustment moves the price by at most half the trend, the volume
      discount and half the noise span, relative to the price. */
  lemma AdjustBound(original: real, t: real, volumeBias: real, rand: real)
    requires 0.0 <= rand < 1.0
    requires volumeBias == 0.0 || volumeBias == HIGH_VOLUME_BIAS
    ensures Abs(AdjustPrice(original, Real(t), volumeBias, Noise(rand)).r - original)
      <= Abs(original) * (TREND_SHARE * Abs(t) + Abs(volumeBias) + NOISE_SPAN / 2.0)
    ensures Abs(AdjustPrice(original, Real(t), volumeBias, Noise(rand)).r - original) <= MaxMove(original, t)
  {
    var b := t * TREND_SHARE + volumeBias + Noise(rand);
    var bound := TREND_SHARE * Abs(t) + Abs(volumeBias) + NOISE_SPAN / 2.0;
    NoiseBound(rand);
    assert -bound <= b <= bound;
    assert AdjustPrice(original, Real(t), volumeBias, Noise(rand)).r - original == original * b;
    AbsProduct(original, b, bound);
    var widest := TREND_SHARE * Abs(t) - HIGH_VOLUME_BIAS + NOISE_SPAN / 2.0;
    assert bound <= widest;
    ScaleMonotone(Abs(original), bound, widest);
  }

  /** Scaling by a non-negative factor keeps the order. */
  lemma ScaleMonotone(a: real, x: real, y: real)
    requires a >= 0.0 && x <= y
    ensures a * x <= a * y
  {
  }

  /** The adjustment facts `getValue` relies on, for any trend: NaN only
      from a NaN trend, the direction for a positive price, the bound on the
      move, and a move by the noise alone without trend or discount. */
  lemma AdjustFacts(original: real, trend: Num, volumeBias: real, rand: real)
    requires volumeBias == 0.0 || volumeBias == HIGH_VOLUME_BIAS
    ensures var r := AdjustPrice(original, trend, volumeBias, Noise(rand));
      original > 0.0 && r.Real? ==>
        var bias := trend.r * TREND_SHARE + volumeBias + Noise(rand);
        (r.r > original <==> bias > 0.0) && (r.r < original <==> bias < 0.0)
    ensures var r := AdjustPrice(original, trend, volumeBias, Noise(rand));
      0.0 <= rand < 1.0 && r.Real? ==>
        Abs(r.r - original) <= MaxMove(original, trend.r)
    ensures var r := AdjustPrice(original, trend, volumeBias, Noise(rand));
      0.0 <= rand < 1.0 && trend == Real(0.0) && volumeBias == 0.0 ==>
        Abs(r.r - original) <= Abs(original) * NOISE_SPAN / 2.0
  {
    if trend.Real? {
      if original > 0.0 {
        AdjustDirection(original, trend.r, volumeBias, Noise(rand));
      }
      if 0.0 <= rand < 1.0 {
        AdjustBound(original, trend.r, volumeBias, rand);
        if trend.r == 0.0 && volumeBias == 0.0 {
          assert TREND_SHARE * Abs(trend.r) + Abs(volumeBias) + NOISE_SPAN / 2.0 == NOISE_SPAN / 2.0;
        }
      }
    }
  }

  /** `Test2CcxtFeed.getValue(feed)` on the ccxt price `original`, with
      `rand` the `Math.random()` draw: the feed echoed with the price moved
      by its trend, volume discount and noise. The value is NaN exactly when
      the trend is; a positive price rises exactly when the biases add up
      to more than zero and falls exactly when they add up to less; the
      move is at most half the trend plus 0.00003 plus 0.000025 of the
      price, and a feed with no stored prices and no volume stores moves
      only by the noise. */
  function Test2Value(feed: FeedId, original: real, latest: PriceMap, vm: VolumeMap, now: int, rand: real): (r: (FeedId, Num))
    requires ValidVolumes(vm)
    ensures r.0 == feed
    ensures r.1.NaN? <==> EstimateTrend(latest, feed.name).NaN?
    ensures original > 0.0 && r.1.Real? ==>
      var bias := EstimateTrend(latest, feed.name).r * TREND_SHARE + VolumeBias(vm, feed.name, now) + Noise(rand);
      (r.1.r > original <==> bias > 0.0) && (r.1.r < original <==> bias < 0.0)
    ensures 0.0 <= rand < 1.0 && r.1.Real? ==>
      Abs(r.1.r - original) <= MaxMove(original, EstimateTrend(latest, feed.name).r)
    ensures 0.0 <= rand < 1.0 && Get(latest, feed.name).None? && Get(vm, feed.name).None? ==>
      r.1.Real? && Abs(r.1.r - original) <= Abs(original) * NOISE_SPAN / 2.0
  {
    var trend := EstimateTrend(latest, feed.name);
    var bias := VolumeBias(vm, feed.name, now);
    AdjustFacts(original, trend, bias, rand);
    (feed, AdjustPrice(original, trend, bias, Noise(rand)))
  }

  /** `Test2CcxtFeed.getValue(feed)` on the provider state: `super.getValue`
      runs first, purging stale prices and updating the fallbacks, and the
      trend is estimated on the prices it leaves. The move from the ccxt value
      is bounded as for `Test2Value`, the value is NaN exactly when that
      trend is, and the state afterwards is the one the ccxt call leaves. */
  function Test2GetValue(fuel: nat, config: seq<FeedConfig>, latest: PriceMap, fallbacks: Fallback.FallbackMap, vm: VolumeMap, feed: FeedId,
                         now: int, decayRate: real, exp: real -> real, rand: real): (r: ((FeedId, Num), PriceMap, Fallback.FallbackMap))
    requires ValidVolumes(vm)
    ensures var base := CcxtPrice.GetValue(fuel, config, latest, fallbacks, feed, now, decayRate, exp);
      r.0.0 == feed && r.1 == base.1 && r.2 == base.2
    ensures var base := CcxtPrice.GetValue(fuel, config, latest, fallbacks, feed, now, decayRate, exp);
      r.0.1.NaN? <==> EstimateTrend(base.1, feed.name).NaN?
    ensures var base := CcxtPrice.GetValue(fuel, config, latest, fallbacks, feed, now, decayRate, exp);
      0.0 <= rand < 1.0 && r.0.1.Real? ==> Abs(r.0.1.r - base.0.value) <= MaxMove(base.0.value, EstimateTrend(base.1, feed.name).r)
  {
    var base := CcxtPrice.GetValue(fuel, config, latest, fallbacks, feed, now, decayRate, exp);
    (Test2Value(feed, base.0.value, base.1, vm, now, rand), base.1, base.2)
  }

  /** For a configured feed a price past its time-to-live never moves the
      trend: asking on the purged state gives the same answer. */
  lemma Test2IgnoresStale(fuel: nat, config: seq<FeedConfig>, latest: PriceMap, fallbacks: Fallback.FallbackMap, vm: VolumeMap, feed: FeedId,
                          now: int, decayRate: real, exp: real -> real, rand: real)
    requires ValidVolumes(vm) && FindConfig(config, feed).Some?
    ensures Test2GetValue(fuel, config, PurgeStale(latest, CcxtPrice.PRICE_TTL_MS, now), fallbacks, vm, feed, now, decayRate, exp, rand)
      == Test2GetValue(fuel, config, latest, fallbacks, vm, feed, now, decayRate, exp, rand)
  {
    CcxtPrice.GetValueIgnoresStale(fuel, config, latest, fallbacks, feed, now, decayRate, exp);
  }
}
