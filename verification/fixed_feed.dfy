/** `FixedFeed`: the same safe price for every feed, and no volumes. */
module FixedFeed {
  import opened Market

  /** A price small enough not to overflow any default feed. */
  const DEFAULT_VALUE: real := 0.01

  /** `getValue(feed)`: the requested feed with the fixed price. */
  function GetValue(feed: FeedId): (r: FeedValue)
    ensures r.feed == feed && r.value == DEFAULT_VALUE
  {
    FeedValue(feed, DEFAULT_VALUE)
  }

  /** `getValues(feeds)`: one entry per requested feed, in request order,
      each with the fixed price. */
  function GetValues(feeds: seq<FeedId>): (r: seq<FeedValue>)
    ensures |r| == |feeds|
    ensures forall i :: 0 <= i < |feeds| ==> r[i].feed == feeds[i] && r[i].value == DEFAULT_VALUE
  {
    if |feeds| == 0 then [] else [GetValue(feeds[0])] + GetValues(feeds[1..])
  }

  /** Asking for two batches is asking for their concatenation. */
  lemma {:induction false} GetValuesAppend(a: seq<FeedId>, b: seq<FeedId>)
    ensures GetValues(a + b) == GetValues(a) + GetValues(b)
  {
    var l := GetValues(a + b);
    var r := GetValues(a) + GetValues(b);
    assert |l| == |r|;
    forall i | 0 <= i < |l|
      ensures l[i] == r[i]
    {
      if i < |a| {
        assert (a + b)[i] == a[i];
      } else {
        assert (a + b)[i] == b[i - |a|];
      }
    }
  }

  /** `getVolumes(feeds, window)`: no volumes, whatever is asked. */
  function GetVolumes(feeds: seq<FeedId>, windowSec: int): (r: seq<FeedVolume>)
    ensures r == []
  {
    []
  }
}
