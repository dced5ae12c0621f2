/** The last-good-price memory shared by the feeds: a live price that is
    positive is remembered with the time it was seen, and when no live price
    is available a remembered one younger than five minutes is served in its
    place. */
module Fallback {
  import opened Common

  /** A remembered price stays usable for less than this, in milliseconds. */
  const FALLBACK_MAX_AGE_MS: int := 5 * 60000

  /** A remembered good price and when it was seen. */
  datatype Stored = Stored(value: real, time: int)

  /** `lastValidFeedPrice`, keyed by `${category}-${name}`. */
  type FallbackMap = OMap<string, Stored>

  /** The key `${category}-${name}`. */
  function FeedKey(category: int, name: string): string
  {
    IntToString(category) + "-" + name
  }

  ghost predicate AllPositive(m: FallbackMap)
  {
    forall e :: e in m ==> e.1.value > 0.0
  }

  /** The stored value under `key` if it is younger than five minutes,
      otherwise `dflt` (`getFallbackPrice`). */
  function StoredOr(fallbacks: FallbackMap, key: string, now: int, dflt: real): (r: real)
    ensures (Get(fallbacks, key).Some? && now - Get(fallbacks, key).value.time < FALLBACK_MAX_AGE_MS) ==>
      r == Get(fallbacks, key).value.value
    ensures !(Get(fallbacks, key).Some? && now - Get(fallbacks, key).value.time < FALLBACK_MAX_AGE_MS) ==> r == dflt
  {
    match Get(fallbacks, key)
    case Some(s) => if now - s.time < FALLBACK_MAX_AGE_MS then s.value else dflt
    case None => dflt
  }

  /** The safe price given the live `price`: a positive one is remembered
      with the current time and returned; otherwise the fresh stored value
      or `dflt`, with the memory unchanged. */
  function SafePrice(fallbacks: FallbackMap, key: string, price: Option<real>, now: int, dflt: real): (r: (real, FallbackMap))
    ensures price.Some? && price.value > 0.0 ==>
      r.0 == price.value && Get(r.1, key) == Some(Stored(price.value, now)) &&
      forall k :: k != key ==> Get(r.1, k) == Get(fallbacks, k)
    ensures !(price.Some? && price.value > 0.0) ==> r == (StoredOr(fallbacks, key, now, dflt), fallbacks)
  {
    if price.Some? && price.value > 0.0 then (price.value, Put(fallbacks, key, Stored(price.value, now)))
    else (StoredOr(fallbacks, key, now, dflt), fallbacks)
  }

  /** A fallback read from a memory of positive prices with a positive
      default is positive. */
  lemma StoredOrPositive(fallbacks: FallbackMap, key: string, now: int, dflt: real)
    requires AllPositive(fallbacks) && dflt > 0.0
    ensures StoredOr(fallbacks, key, now, dflt) > 0.0
  {
    if Get(fallbacks, key).Some? {
      var i := Find(fallbacks, key).value;
      assert fallbacks[i] in fallbacks;
    }
  }

  /** Only positive prices are ever remembered, so with a positive default
      the safe price is always positive and the memory stays positive. */
  lemma SafePricePositive(fallbacks: FallbackMap, key: string, price: Option<real>, now: int, dflt: real)
    ensures AllPositive(fallbacks) && dflt > 0.0 ==>
      SafePrice(fallbacks, key, price, now, dflt).0 > 0.0 && AllPositive(SafePrice(fallbacks, key, price, now, dflt).1)
  {
    if AllPositive(fallbacks) && dflt > 0.0 {
      if price.Some? && price.value > 0.0 {
        PutEntries(fallbacks, key, Stored(price.value, now));
      } else {
        StoredOrPositive(fallbacks, key, now, dflt);
      }
    }
  }
}
