/** `RandomFeed`: a random price around 0.05 for every feed, and no
    volumes. Each `Math.random()` draw is a parameter. */
module RandomFeed {
  import opened Market

  const BASE_VALUE: real := 0.05

  /** The lowest price and the bound no price reaches. */
  const LOW: real := 0.025
  const HIGH: real := 0.075

  /** `getValue(feed)` for the draw `rand`: `0.05 * (0.5 + rand)`. */
  function GetValue(feed: FeedId, rand: real): (r: FeedValue)
    ensures r.feed == feed
    ensures 0.0 <= rand < 1.0 ==> LOW <= r.value < HIGH
  {
    FeedValue(feed, BASE_VALUE * (0.5 + rand))
  }

  /** The price is an increasing affine image of the draw: two draws give
      the same price only when they are equal, and a larger draw a larger
      price. */
  lemma ValueOrdersDraws(feed: FeedId, a: real, b: real)
    ensures a < b <==> GetValue(feed, a).value < GetValue(feed, b).value
    ensures a == b <==> GetValue(feed, a).value == GetValue(feed, b).value
  {
  }

  /** `getValues(feeds)` with one draw per feed: one entry per feed, in
      request order. */
  function GetValues(feeds: seq<FeedId>, rands: seq<real>): (r: seq<FeedValue>)
    requires |rands| == |feeds|
    ensures |r| == |feeds|
    ensures forall i :: 0 <= i < |feeds| ==> r[i] == GetValue(feeds[i], rands[i])
  {
    if |feeds| == 0 then [] else [GetValue(feeds[0], rands[0])] + GetValues(feeds[1..], rands[1..])
  }

  /** With every draw in `[0, 1)`, every price is in `[0.025, 0.075)`. */
  lemma GetValuesInRange(feeds: seq<FeedId>, rands: seq<real>)
    requires |rands| == |feeds|
    requires forall i :: 0 <= i < |rands| ==> 0.0 <= rands[i] < 1.0
    ensures forall i :: 0 <= i < |feeds| ==> GetValues(feeds, rands)[i].feed == feeds[i]
    ensures forall i :: 0 <= i < |feeds| ==> LOW <= GetValues(feeds, rands)[i].value < HIGH
  {
  }

  /** `getVolumes(feeds, window)`: no volumes, whatever is asked. The random
      feed declares this method itself rather than inheriting it, so it is
      kept beside the feed's other operations; it answers as
      `FixedFeed.GetVolumes` does. */
  function GetVolumes(feeds: seq<FeedId>, windowSec: int): (r: seq<FeedVolume>)
    ensures r == []
  {
    []
  }
}
