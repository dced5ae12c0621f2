/** Stable sorting by a real-valued key, the model of `Array.prototype.sort`
    with a numeric comparator such as `(a, b) => a.price - b.price`. */
module Sorting {

  ghost predicate SortedBy<T>(s: seq<T>, key: T -> real)
  {
    forall i, j :: 0 <= i < j < |s| ==> key(s[i]) <= key(s[j])
  }

  ghost predicate Sorted(s: seq<real>)
  {
    forall i, j :: 0 <= i < j < |s| ==> s[i] <= s[j]
  }

  /** Inserts `x` in front of the first element whose key is not smaller,
      so that equal keys keep their original order. */
  function InsertBy<T>(x: T, s: seq<T>, key: T -> real): (r: seq<T>)
    requires SortedBy(s, key)
    ensures |r| == |s| + 1
    ensures SortedBy(r, key)
    ensures multiset(r) == multiset(s) + multiset{x}
  {
    if |s| == 0 then [x]
    else if key(x) <= key(s[0]) then
      assert forall k :: 0 <= k < |s| ==> key(x) <= key(s[k]) by {
        forall k | 0 <= k < |s| ensures key(x) <= key(s[k]) {
          if k > 0 { assert key(s[0]) <= key(s[k]); }
        }
      }
      ConsSorted(x, s, key);
      [x] + s
    else
      var rest := InsertBy(x, s[1..], key);
      HeadBelowInserted(s, x, rest, key);
      ConsSorted(s[0], rest, key);
      assert s == [s[0]] + s[1..];
      [s[0]] + rest
  }

  /** Putting in front of a sorted sequence an element whose key is not
      larger than any of its keys keeps it sorted. */
  lemma ConsSorted<T>(h: T, s: seq<T>, key: T -> real)
    requires SortedBy(s, key)
    requires forall k :: 0 <= k < |s| ==> key(h) <= key(s[k])
    ensures SortedBy([h] + s, key)
  {
    var r := [h] + s;
    forall i, j | 0 <= i < j < |r| ensures key(r[i]) <= key(r[j]) {
      assert r[j] == s[j - 1];
      if i > 0 { assert r[i] == s[i - 1]; }
    }
  }

  /** Inserting a larger element behind the head of a sorted sequence keeps
      the head below everything. */
  lemma HeadBelowInserted<T>(s: seq<T>, x: T, rest: seq<T>, key: T -> real)
    requires |s| > 0 && SortedBy(s, key) && key(s[0]) < key(x)
    requires multiset(rest) == multiset(s[1..]) + multiset{x}
    ensures forall k :: 0 <= k < |rest| ==> key(s[0]) <= key(rest[k])
  {
    forall k | 0 <= k < |rest| ensures key(s[0]) <= key(rest[k]) {
      assert rest[k] in multiset(rest);
      if rest[k] != x {
        assert rest[k] in multiset(s[1..]);
        var p :| 0 <= p < |s[1..]| && s[1..][p] == rest[k];
        assert s[p + 1] == rest[k];
      }
    }
  }

  /** A sorted copy: `[...s].sort((a, b) => key(a) - key(b))`. */
  function SortBy<T>(s: seq<T>, key: T -> real): (r: seq<T>)
    ensures |r| == |s|
    ensures SortedBy(r, key)
    ensures multiset(r) == multiset(s)
  {
    if |s| == 0 then []
    else
      assert s == [s[0]] + s[1..];
      InsertBy(s[0], SortBy(s[1..], key), key)
  }

  /** Every element's key lies between the keys of the sorted copy's first
      and last elements. */
  lemma SortByEnds<T>(s: seq<T>, key: T -> real, k: nat)
    requires k < |s|
    ensures key(SortBy(s, key)[0]) <= key(s[k]) <= key(SortBy(s, key)[|s| - 1])
  {
    var sorted := SortBy(s, key);
    assert s[k] in multiset(sorted);
    var p :| 0 <= p < |sorted| && sorted[p] == s[k];
    if p > 0 { assert key(sorted[0]) <= key(sorted[p]); }
    if p < |s| - 1 { assert key(sorted[p]) <= key(sorted[|s| - 1]); }
  }

  /** A sequence already sorted by the key is its own sorted copy. */
  lemma {:induction false} SortBySorted<T>(s: seq<T>, key: T -> real)
    requires SortedBy(s, key)
    ensures SortBy(s, key) == s
    decreases |s|
  {
    if |s| > 0 {
      assert SortedBy(s[1..], key);
      SortBySorted(s[1..], key);
      if |s| > 1 {
        assert key(s[0]) <= key(s[1]);
      }
      assert s == [s[0]] + s[1..];
    }
  }

  function Identity(x: real): real { x }

  /** `[...xs].sort((a, b) => a - b)`. */
  function SortReals(xs: seq<real>): (r: seq<real>)
    ensures |r| == |xs|
    ensures Sorted(r)
    ensures multiset(r) == multiset(xs)
  {
    var r := SortBy(xs, Identity);
    assert SortedBy(r, Identity);
    r
  }

  lemma SortedTail(a: seq<real>)
    requires Sorted(a) && |a| > 0
    ensures Sorted(a[1..])
    ensures multiset(a[1..]) == multiset(a) - multiset{a[0]}
  {
    assert a == [a[0]] + a[1..];
  }

  /** Two sorted arrangements of the same numbers are the same sequence. */
  lemma {:induction false} SortedUnique(a: seq<real>, b: seq<real>)
    requires Sorted(a) && Sorted(b)
    requires multiset(a) == multiset(b)
    ensures a == b
    decreases |a|
  {
    assert |a| == |multiset(a)| == |multiset(b)| == |b|;
    if |a| > 0 {
      assert a[0] in multiset(a) && b[0] in multiset(b);
      SortedHeadLeast(a, b[0]);
      SortedHeadLeast(b, a[0]);
      assert a[0] == b[0];
      SortedTail(a);
      SortedTail(b);
      SortedUnique(a[1..], b[1..]);
      assert a == [a[0]] + a[1..] && b == [b[0]] + b[1..];
    }
  }

  /** The head of a sorted sequence is its least element. */
  lemma SortedHeadLeast(a: seq<real>, x: real)
    requires Sorted(a) && x in multiset(a)
    ensures |a| > 0 && a[0] <= x
  {
    var k :| 0 <= k < |a| && a[k] == x;
  }

  /** Sorting a permutation gives the same result. */
  lemma SortRealsPermutation(xs: seq<real>, ys: seq<real>)
    requires multiset(xs) == multiset(ys)
    ensures SortReals(xs) == SortReals(ys)
  {
    SortedUnique(SortReals(xs), SortReals(ys));
  }
}
