/** Order statistics over price lists: `median`, `mad` (median absolute
    deviation) and the cumulative-weight median `getWeightedMedian`. */
module Statistics {
  import opened Common
  import opened Sorting
  import opened Market

  /** The middle of an already sorted list: the middle element for odd
      length, the mean of the two middle elements for even length, and NaN
      for the empty list (`(undefined + undefined) / 2`). */
  function MiddleOf(s: seq<real>): Num
  {
    var n := |s|;
    if n == 0 then NaN
    else if n % 2 == 0 then Real((s[n / 2 - 1] + s[n / 2]) / 2.0)
    else Real(s[n / 2])
  }

  /** `median(arr)`: the middle of a sorted copy; the input is not changed. */
  function Median(xs: seq<real>): (r: Num)
    ensures r.NaN? <==> |xs| == 0
    ensures r.Real? ==> Min(xs) <= r.r <= Max(xs)
  {
    var s := SortReals(xs);
    if |s| > 0 then
      assert forall i :: 0 <= i < |s| ==> Min(xs) <= s[i] <= Max(xs) by {
        forall i | 0 <= i < |s| ensures Min(xs) <= s[i] <= Max(xs) {
          assert s[i] in multiset(xs);
        }
      }
      MiddleOf(s)
    else MiddleOf(s)
  }

  /** The median depends only on the multiset of inputs. */
  lemma MedianPermutation(xs: seq<real>, ys: seq<real>)
    requires multiset(xs) == multiset(ys)
    ensures Median(xs) == Median(ys)
  {
    SortRealsPermutation(xs, ys);
  }

  function Below(m: real): real -> bool
  {
    x => x < m
  }

  function Above(m: real): real -> bool
  {
    x => x > m
  }

  /** In a sorted list, at most `i` elements are below `s[i]` and at most
      `|s| - 1 - i` are above it. */
  lemma SortedRank(s: seq<real>, i: nat)
    requires Sorted(s) && i < |s|
    ensures |Filter(s, Below(s[i]))| <= i
    ensures |Filter(s, Above(s[i]))| <= |s| - 1 - i
  {
    assert s == s[..i] + s[i..];
    FilterAppend(s[..i], s[i..], Below(s[i]));
    FilterNothing(s[i..], Below(s[i]));
    assert s == s[..i + 1] + s[i + 1..];
    FilterAppend(s[..i + 1], s[i + 1..], Above(s[i]));
    FilterNothing(s[..i + 1], Above(s[i]));
  }

  /** An odd-length median is an input element with at most half of the
      inputs strictly below it and at most half strictly above it. */
  lemma MedianOddBalanced(xs: seq<real>)
    requires |xs| % 2 == 1
    ensures Median(xs).Real?
    ensures Median(xs).r in xs
    ensures |Filter(xs, Below(Median(xs).r))| <= |xs| / 2
    ensures |Filter(xs, Above(Median(xs).r))| <= |xs| / 2
  {
    var s := SortReals(xs);
    var m := s[|s| / 2];
    assert m in multiset(xs);
    SortedRank(s, |s| / 2);
    FilterPermutation(s, xs, Below(m));
    FilterPermutation(s, xs, Above(m));
  }

  /** An even-length median is the mean of two inputs `a <= b`, the lower
      and the upper middle: at most `n/2 - 1` inputs lie below `a` and at
      most `n/2` above it, at most `n/2` lie below `b` and at most `n/2 - 1`
      above it. */
  lemma MedianEvenBalanced(xs: seq<real>) returns (a: real, b: real)
    requires |xs| > 0 && |xs| % 2 == 0
    ensures a in xs && b in xs && a <= b && Median(xs) == Real((a + b) / 2.0)
    ensures |Filter(xs, Below(a))| <= |xs| / 2 - 1 && |Filter(xs, Above(b))| <= |xs| / 2 - 1
    ensures |Filter(xs, Above(a))| <= |xs| / 2 && |Filter(xs, Below(b))| <= |xs| / 2
  {
    var s := SortReals(xs);
    var n := |s|;
    a, b := s[n / 2 - 1], s[n / 2];
    assert n % 2 == 0;
    assert MiddleOf(s) == Real((a + b) / 2.0);
    assert Median(xs) == MiddleOf(s);
    assert a in multiset(xs) && b in multiset(xs);
    SortedRank(s, n / 2 - 1);
    SortedRank(s, n / 2);
    FilterPermutation(s, xs, Below(a));
    FilterPermutation(s, xs, Above(b));
    FilterPermutation(s, xs, Above(a));
    FilterPermutation(s, xs, Below(b));
  }

  function AbsDeviations(xs: seq<real>, m: real): (r: seq<real>)
    ensures |r| == |xs|
    ensures forall i :: 0 <= i < |xs| ==> r[i] == Abs(xs[i] - m)
  {
    seq(|xs|, i requires 0 <= i < |xs| => Abs(xs[i] - m))
  }

  /** `mad(arr)`: the median of the absolute deviations from the median. It
      is NaN exactly for the empty list and otherwise non-negative. */
  function Mad(xs: seq<real>): (r: Num)
    ensures r.NaN? <==> |xs| == 0
    ensures r.Real? ==> r.r >= 0.0
  {
    match Median(xs)
    case NaN => Median([])
    case Real(m) =>
      var d := AbsDeviations(xs, m);
      var r := Median(d);
      assert r.Real? ==> r.r >= Min(d) >= 0.0;
      r
  }

  function DistanceFrom(m: real): real -> real
  {
    x => Abs(x - m)
  }

  /** The MAD, like the median, depends only on the multiset of inputs. */
  lemma MadPermutation(xs: seq<real>, ys: seq<real>)
    requires multiset(xs) == multiset(ys)
    ensures Mad(xs) == Mad(ys)
  {
    MedianPermutation(xs, ys);
    if Median(xs).Real? {
      var m := Median(xs).r;
      assert AbsDeviations(xs, m) == MapSeq(xs, DistanceFrom(m));
      assert AbsDeviations(ys, m) == MapSeq(ys, DistanceFrom(m));
      MapPermutation(xs, ys, DistanceFrom(m));
      MedianPermutation(AbsDeviations(xs, m), AbsDeviations(ys, m));
    }
  }

  /** The prefix weight `w[0] + ... + w[k-1]` of a list of weighted prices. */
  function CumWeight(s: seq<Weighted>, k: nat): real
    requires k <= |s|
  {
    Sum(WeightsOf(s[..k]))
  }

  lemma CumWeightStep(s: seq<Weighted>, k: nat)
    requires k < |s|
    ensures CumWeight(s, k + 1) == CumWeight(s, k) + s[k].weight
  {
    assert WeightsOf(s[..k + 1])[..k] == WeightsOf(s[..k]);
  }

  /** The first index `j >= i` at which the running weight reaches
      `target`, given the weight `acc` accumulated before `i`. */
  function FirstReaching(s: seq<Weighted>, i: nat, acc: real, target: real): (r: Option<nat>)
    requires i <= |s| && acc == CumWeight(s, i)
    ensures r.Some? ==> i <= r.value < |s| && CumWeight(s, r.value + 1) >= target
    ensures r.Some? ==> forall k :: i < k <= r.value ==> CumWeight(s, k) < target
    ensures r.None? ==> forall k :: i < k <= |s| ==> CumWeight(s, k) < target
    decreases |s| - i
  {
    if i == |s| then None
    else
      CumWeightStep(s, i);
      if acc + s[i].weight >= target then Some(i)
      else
        assert CumWeight(s, i + 1) < target;
        FirstReaching(s, i + 1, acc + s[i].weight, target)
  }

  /** The position of a sorted list at which the running weight first
      reaches `target`, else the last position. */
  function IndexReaching(s: seq<Weighted>, target: real): (j: nat)
    requires |s| > 0
    ensures j < |s|
    ensures forall k :: 0 < k <= j ==> CumWeight(s, k) < target
    ensures CumWeight(s, j + 1) >= target || (j == |s| - 1 && CumWeight(s, |s|) < target)
  {
    assert CumWeight(s, 0) == 0.0 by {
      assert WeightsOf(s[..0]) == [];
    }
    match FirstReaching(s, 0, 0.0, target)
    case Some(j) => j
    case None => |s| - 1
  }

  /** A non-empty list whose weights total at least `target` has a first
      position at which the running weight reaches it. */
  lemma FirstReachingFound(s: seq<Weighted>, target: real)
    requires |s| > 0 && Sum(WeightsOf(s)) >= target
    ensures CumWeight(s, 0) == 0.0
    ensures FirstReaching(s, 0, 0.0, target).Some?
  {
    assert WeightsOf(s[..0]) == [];
    assert s[..|s|] == s;
    assert CumWeight(s, |s|) >= target;
  }

  function SortByPrice(ws: seq<Weighted>): (r: seq<Weighted>)
    ensures |r| == |ws| && multiset(r) == multiset(ws)
    ensures SortedBy(r, PriceOf)
  {
    SortBy(ws, PriceOf)
  }

  /** The position in the sorted list whose price `getWeightedMedian`
      returns: the first at which the running weight reaches 0.5, else the
      last one. */
  function MedianIndex(s: seq<Weighted>): (j: nat)
    requires |s| > 0
    ensures j < |s|
    ensures forall k :: 0 < k <= j ==> CumWeight(s, k) < 0.5
    ensures CumWeight(s, j + 1) >= 0.5 || (j == |s| - 1 && CumWeight(s, |s|) < 0.5)
  {
    IndexReaching(s, 0.5)
  }

  /** `getWeightedMedian(entries)`: scanning the entries in ascending price
      order, the price at which the running weight first reaches 0.5, or the
      last (largest) price when it never does; undefined for no entries. */
  function GetWeightedMedian(entries: seq<Weighted>): (r: Option<real>)
    ensures r.None? <==> |entries| == 0
    ensures r.Some? ==> exists i :: 0 <= i < |entries| && entries[i].price == r.value
  {
    if |entries| == 0 then None
    else
      var s := SortByPrice(entries);
      var j := MedianIndex(s);
      assert s[j] in multiset(entries);
      Some(s[j].price)
  }

  /** When no prefix reaches half the weight, the result is the maximum price. */
  lemma WeightedMedianFallbackIsMax(entries: seq<Weighted>)
    requires |entries| > 0
    requires CumWeight(SortByPrice(entries), |entries|) < 0.5
    requires forall i :: 0 <= i < |entries| ==> entries[i].weight >= 0.0
    ensures forall i :: 0 <= i < |entries| ==> entries[i].price <= GetWeightedMedian(entries).value
  {
    var s := SortByPrice(entries);
    forall i | 0 <= i < |s| ensures s[i].weight >= 0.0 {
      assert s[i] in multiset(entries);
    }
    CumWeightMonotone(s, |s|);
    var j := MedianIndex(s);
    assert j == |s| - 1;
    assert GetWeightedMedian(entries).value == s[|s| - 1].price;
    forall i | 0 <= i < |entries|
      ensures entries[i].price <= s[|s| - 1].price
    {
      assert entries[i] in multiset(s);
      var k := PositionOf(s, entries[i]);
      assert k == |s| - 1 || PriceOf(s[k]) <= PriceOf(s[|s| - 1]);
    }
  }

  /** With non-negative weights the running weight never decreases. */
  lemma {:induction false} CumWeightMonotone(s: seq<Weighted>, k: nat)
    requires k <= |s|
    requires forall i :: 0 <= i < |s| ==> s[i].weight >= 0.0
    ensures forall j :: 0 <= j <= k ==> CumWeight(s, j) <= CumWeight(s, k)
    decreases k
  {
    if k > 0 {
      CumWeightMonotone(s, k - 1);
      CumWeightStep(s, k - 1);
    }
  }
}
