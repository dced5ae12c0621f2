/** Shared vocabulary of the model: optional values, JavaScript numbers that
    may be NaN, the truthiness fallbacks (`a || b`), ASCII string helpers and
    insertion-ordered maps (a JavaScript `Map` iterates in insertion order,
    which several operations make observable). */
module Common {

  datatype Option<+T> = None | Some(value: T)

  /** The outcome of an operation that may throw: a value or the thrown message. */
  datatype Result<+T> = Ok(value: T) | Failure(error: string)

  /** A JavaScript number as far as the model needs it: a real value or NaN. */
  datatype Num = Real(r: real) | NaN

  /** The hard-coded last-resort price used by most feeds and strategies. */
  const DEFAULT_PRICE: real := 0.01

  /** `a || b` for a number `a` that is never NaN: 0 is the only falsy value. */
  function OrElse(a: real, b: real): (r: real)
    ensures a != 0.0 ==> r == a
    ensures a == 0.0 ==> r == b
  {
    if a != 0.0 then a else b
  }

  /** `a || b` where `a` may be undefined. */
  function OptOrElse(a: Option<real>, b: real): (r: real)
    ensures a.Some? && a.value != 0.0 ==> r == a.value
    ensures (a.None? || a.value == 0.0) ==> r == b
  {
    if a.Some? && a.value != 0.0 then a.value else b
  }

  /** JavaScript `Math.round`: round half up. */
  function Round(x: real): (r: int)
    ensures x - 0.5 < r as real <= x + 0.5
  {
    (x + 0.5).Floor
  }

  function Abs(x: real): (r: real)
    ensures r >= 0.0 && (r == x || r == -x)
  {
    if x < 0.0 then -x else x
  }

  function Pow10(n: nat): (r: real)
    ensures r >= 1.0
  {
    if n == 0 then 1.0 else 10.0 * Pow10(n - 1)
  }

  /** Dividing by a positive number keeps the sign. */
  lemma QuotientSign(a: real, b: real)
    requires b > 0.0
    ensures a > 0.0 <==> a / b > 0.0
    ensures a < 0.0 <==> a / b < 0.0
  {
    assert a / b * b == a;
  }

  /** A factor bounded by `bound` scales the absolute value by at most `bound`. */
  lemma AbsProduct(a: real, b: real, bound: real)
    requires -bound <= b <= bound
    ensures Abs(a * b) <= Abs(a) * bound
  {
    if a >= 0.0 {
      assert a * b <= a * bound;
      assert -(a * bound) <= a * b;
    } else {
      assert (-a) * b <= (-a) * bound;
      assert -((-a) * bound) <= (-a) * b;
    }
  }

  // ---------------------------------------------------------------- sums

  function Sum(xs: seq<real>): real
  {
    if |xs| == 0 then 0.0 else Sum(xs[..|xs| - 1]) + xs[|xs| - 1]
  }

  lemma {:induction false} SumAppend(xs: seq<real>, ys: seq<real>)
    ensures Sum(xs + ys) == Sum(xs) + Sum(ys)
    decreases |ys|
  {
    if |ys| == 0 {
      assert xs + ys == xs;
    } else {
      assert (xs + ys)[..|xs + ys| - 1] == xs + ys[..|ys| - 1];
      SumAppend(xs, ys[..|ys| - 1]);
    }
  }

  lemma SumCons(x: real, xs: seq<real>)
    ensures Sum([x] + xs) == x + Sum(xs)
  {
    SumAppend([x], xs);
    assert Sum([x]) == Sum([x][..0]) + x;
  }

  /** Removing the i-th summand lowers the sum by exactly that summand. */
  lemma SumRemoveAt(ys: seq<real>, i: nat)
    requires i < |ys|
    ensures Sum(ys) == ys[i] + Sum(ys[..i] + ys[i + 1..])
  {
    var a, ax, b := ys[..i], ys[..i + 1], ys[i + 1..];
    assert ys == ax + b;
    SumAppend(ax, b);
    assert ax[..i] == a;
    assert Sum(ax) == Sum(a) + ys[i];
    SumAppend(a, b);
  }

  /** Taking the first element off one of two permutations and a matching
      element off the other leaves two permutations. */
  lemma RemoveMatching<T>(xs: seq<T>, ys: seq<T>, i: nat)
    requires multiset(xs) == multiset(ys)
    requires |xs| > 0 && i < |ys| && ys[i] == xs[0]
    ensures multiset(xs[1..]) == multiset(ys[..i] + ys[i + 1..])
  {
    calc {
      multiset(xs[1..]);
    == { assert xs == [xs[0]] + xs[1..]; }
      multiset(xs) - multiset{xs[0]};
    == { assert ys == ys[..i] + [ys[i]] + ys[i + 1..]; }
      multiset(ys[..i] + ys[i + 1..]);
    }
  }

  /** A position of an element of a permutation's multiset. */
  lemma PositionOf<T>(ys: seq<T>, x: T) returns (i: nat)
    requires x in multiset(ys)
    ensures i < |ys| && ys[i] == x
  {
    i :| 0 <= i < |ys| && ys[i] == x;
  }

  /** Sums depend only on the multiset of summands. */
  lemma {:induction false} SumPermutation(xs: seq<real>, ys: seq<real>)
    requires multiset(xs) == multiset(ys)
    ensures Sum(xs) == Sum(ys)
    decreases |xs|
  {
    if |xs| == 0 {
      assert |ys| == |multiset(ys)| == 0;
    } else {
      var i := PositionOf(ys, xs[0]);
      var ys' := ys[..i] + ys[i + 1..];
      RemoveMatching(xs, ys, i);
      SumPermutation(xs[1..], ys');
      SumRemoveAt(ys, i);
      assert xs == [xs[0]] + xs[1..];
      SumCons(xs[0], xs[1..]);
    }
  }

  /** Every summand non-negative gives a non-negative sum. */
  lemma {:induction false} SumNonNegative(xs: seq<real>)
    requires forall i :: 0 <= i < |xs| ==> xs[i] >= 0.0
    ensures Sum(xs) >= 0.0
    decreases |xs|
  {
    if |xs| > 0 {
      SumNonNegative(xs[..|xs| - 1]);
    }
  }

  /** A sum of non-negative terms is zero only if every term is zero. */
  lemma {:induction false} SumZeroAllZero(xs: seq<real>)
    requires forall i :: 0 <= i < |xs| ==> xs[i] >= 0.0
    requires Sum(xs) == 0.0
    ensures forall i :: 0 <= i < |xs| ==> xs[i] == 0.0
    decreases |xs|
  {
    if |xs| > 0 {
      SumNonNegative(xs[..|xs| - 1]);
      SumZeroAllZero(xs[..|xs| - 1]);
    }
  }

  /** The sum of n terms each between lo and hi lies between n*lo and n*hi. */
  lemma {:induction false} SumBounds(xs: seq<real>, lo: real, hi: real)
    requires forall i :: 0 <= i < |xs| ==> lo <= xs[i] <= hi
    ensures |xs| as real * lo <= Sum(xs) <= |xs| as real * hi
    decreases |xs|
  {
    if |xs| > 0 {
      var init := xs[..|xs| - 1];
      var m := |init| as real;
      forall i | 0 <= i < |init| ensures lo <= init[i] <= hi {
        assert init[i] == xs[i];
      }
      SumBounds(init, lo, hi);
      assert Sum(xs) == Sum(init) + xs[|xs| - 1];
      assert lo <= xs[|xs| - 1] <= hi;
      assert |xs| as real * lo == m * lo + lo by {
        assert |xs| as real == m + 1.0;
      }
      assert |xs| as real * hi == m * hi + hi by {
        assert |xs| as real == m + 1.0;
      }
    }
  }

  function Mean(xs: seq<real>): (r: real)
    requires |xs| > 0
  {
    Sum(xs) / |xs| as real
  }

  /** The arithmetic mean lies between any lower and upper bound of the terms. */
  lemma MeanBounds(xs: seq<real>, lo: real, hi: real)
    requires |xs| > 0
    requires forall i :: 0 <= i < |xs| ==> lo <= xs[i] <= hi
    ensures lo <= Mean(xs) <= hi
  {
    SumBounds(xs, lo, hi);
    var n := |xs| as real;
    assert n * lo <= Sum(xs) <= n * hi;
    assert lo == n * lo / n;
    assert hi == n * hi / n;
  }

  // ---------------------------------------------------------------- maps over sequences

  /** `xs.map(f)`. */
  function MapSeq<T, U>(xs: seq<T>, f: T -> U): (r: seq<U>)
    ensures |r| == |xs|
    ensures forall i :: 0 <= i < |xs| ==> r[i] == f(xs[i])
  {
    seq(|xs|, i requires 0 <= i < |xs| => f(xs[i]))
  }

  /** Mapping a permutation gives a permutation of the mapped values. */
  lemma {:induction false} MapPermutation<T, U>(xs: seq<T>, ys: seq<T>, f: T -> U)
    requires multiset(xs) == multiset(ys)
    ensures multiset(MapSeq(xs, f)) == multiset(MapSeq(ys, f))
    decreases |xs|
  {
    if |xs| == 0 {
      assert |ys| == |multiset(ys)| == 0;
    } else {
      var i := PositionOf(ys, xs[0]);
      var ys' := ys[..i] + ys[i + 1..];
      RemoveMatching(xs, ys, i);
      MapPermutation(xs[1..], ys', f);
      MapRemoveAt(ys, i, f);
      MapHead(xs, f);
    }
  }

  lemma MapRemoveAt<T, U>(ys: seq<T>, i: nat, f: T -> U)
    requires i < |ys|
    ensures multiset(MapSeq(ys, f)) == multiset(MapSeq(ys[..i] + ys[i + 1..], f)) + multiset{f(ys[i])}
  {
    var a, x, b := ys[..i], [ys[i]], ys[i + 1..];
    assert ys == a + x + b;
    assert MapSeq(a + x + b, f) == MapSeq(a + x, f) + MapSeq(b, f);
    assert MapSeq(a + x, f) == MapSeq(a, f) + MapSeq(x, f);
    assert MapSeq(a + b, f) == MapSeq(a, f) + MapSeq(b, f);
  }

  lemma MapHead<T, U>(xs: seq<T>, f: T -> U)
    requires |xs| > 0
    ensures multiset(MapSeq(xs, f)) == multiset(MapSeq(xs[1..], f)) + multiset{f(xs[0])}
  {
    assert MapSeq(xs, f) == [f(xs[0])] + MapSeq(xs[1..], f);
  }

  /** `xs.flatMap(f)`: the images of the elements one after another. */
  function FlatMap<T, U>(xs: seq<T>, f: T -> seq<U>): seq<U>
  {
    if |xs| == 0 then [] else f(xs[0]) + FlatMap(xs[1..], f)
  }

  lemma {:induction false} FlatMapAppend<T, U>(xs: seq<T>, ys: seq<T>, f: T -> seq<U>)
    ensures FlatMap(xs + ys, f) == FlatMap(xs, f) + FlatMap(ys, f)
    decreases |xs|
  {
    if |xs| == 0 {
      assert xs + ys == ys;
    } else {
      assert (xs + ys)[0] == xs[0] && (xs + ys)[1..] == xs[1..] + ys;
      FlatMapAppend(xs[1..], ys, f);
    }
  }

  /** Everything in a flat map comes from the image of one element. */
  lemma {:induction false} FlatMapSource<T, U>(xs: seq<T>, f: T -> seq<U>, x: U) returns (i: nat)
    requires x in FlatMap(xs, f)
    ensures i < |xs| && x in f(xs[i])
    decreases |xs|
  {
    if x in f(xs[0]) {
      i := 0;
    } else {
      var j := FlatMapSource(xs[1..], f, x);
      assert xs[1..][j] == xs[j + 1];
      i := j + 1;
    }
  }

  /** A flat map of empty images is empty. */
  lemma {:induction false} FlatMapEmpty<T, U>(xs: seq<T>, f: T -> seq<U>)
    requires forall i :: 0 <= i < |xs| ==> f(xs[i]) == []
    ensures FlatMap(xs, f) == []
    decreases |xs|
  {
    if |xs| > 0 {
      assert f(xs[0]) == [];
      forall i | 0 <= i < |xs| - 1 ensures f(xs[1..][i]) == [] {
        assert xs[1..][i] == xs[i + 1];
      }
      FlatMapEmpty(xs[1..], f);
    }
  }

  // ---------------------------------------------------------------- filters

  /** `xs.filter(p)`: the elements satisfying `p`, in their original order. */
  function Filter<T>(xs: seq<T>, p: T -> bool): (r: seq<T>)
    ensures |r| <= |xs|
    ensures forall i :: 0 <= i < |r| ==> r[i] in xs && p(r[i])
  {
    if |xs| == 0 then []
    else (if p(xs[0]) then [xs[0]] else []) + Filter(xs[1..], p)
  }

  /** Every element satisfying the predicate passes the filter. */
  lemma {:induction false} FilterKeeps<T>(xs: seq<T>, p: T -> bool, i: nat)
    requires i < |xs| && p(xs[i])
    ensures xs[i] in Filter(xs, p)
    decreases i
  {
    if i > 0 {
      FilterKeeps(xs[1..], p, i - 1);
    }
  }

  /** Everything passes the filter when every element satisfies the predicate. */
  lemma {:induction false} FilterEverything<T>(xs: seq<T>, p: T -> bool)
    requires forall i :: 0 <= i < |xs| ==> p(xs[i])
    ensures Filter(xs, p) == xs
    decreases |xs|
  {
    if |xs| > 0 {
      FilterEverything(xs[1..], p);
      assert xs == [xs[0]] + xs[1..];
    }
  }

  /** Nothing passes the filter when no element satisfies the predicate. */
  lemma {:induction false} FilterNothing<T>(xs: seq<T>, p: T -> bool)
    requires forall i :: 0 <= i < |xs| ==> !p(xs[i])
    ensures Filter(xs, p) == []
    decreases |xs|
  {
    if |xs| > 0 {
      FilterNothing(xs[1..], p);
    }
  }

  lemma {:induction false} FilterAppend<T>(xs: seq<T>, ys: seq<T>, p: T -> bool)
    ensures Filter(xs + ys, p) == Filter(xs, p) + Filter(ys, p)
    decreases |xs|
  {
    if |xs| == 0 {
      assert xs + ys == ys;
    } else {
      assert (xs + ys)[1..] == xs[1..] + ys;
      FilterAppend(xs[1..], ys, p);
    }
  }

  /** Filtering keeps exactly the multiset of satisfying elements, so two
      permutations filter to sequences of the same length. */
  lemma {:induction false} FilterPermutation<T>(xs: seq<T>, ys: seq<T>, p: T -> bool)
    requires multiset(xs) == multiset(ys)
    ensures |Filter(xs, p)| == |Filter(ys, p)|
    decreases |xs|
  {
    if |xs| == 0 {
      assert |ys| == |multiset(ys)| == 0;
    } else {
      var i := PositionOf(ys, xs[0]);
      var ys' := ys[..i] + ys[i + 1..];
      RemoveMatching(xs, ys, i);
      FilterPermutation(xs[1..], ys', p);
      FilterRemoveAt(ys, i, p);
      FilterRemoveAt(xs, 0, p);
      assert xs[..0] + xs[1..] == xs[1..];
    }
  }

  lemma FilterRemoveAt<T>(ys: seq<T>, i: nat, p: T -> bool)
    requires i < |ys|
    ensures |Filter(ys, p)| == |Filter([ys[i]], p)| + |Filter(ys[..i] + ys[i + 1..], p)|
  {
    var a, x, b := ys[..i], [ys[i]], ys[i + 1..];
    assert ys == a + (x + b);
    FilterAppend(a, x + b, p);
    FilterAppend(x, b, p);
    FilterAppend(a, b, p);
  }

  // ---------------------------------------------------------------- min / max

  function Min(xs: seq<real>): (m: real)
    requires |xs| > 0
    ensures m in xs
    ensures forall i :: 0 <= i < |xs| ==> m <= xs[i]
  {
    if |xs| == 1 then xs[0]
    else var t := Min(xs[1..]); if xs[0] <= t then xs[0] else t
  }

  function Max(xs: seq<real>): (m: real)
    requires |xs| > 0
    ensures m in xs
    ensures forall i :: 0 <= i < |xs| ==> xs[i] <= m
  {
    if |xs| == 1 then xs[0]
    else var t := Max(xs[1..]); if xs[0] >= t then xs[0] else t
  }

  // ---------------------------------------------------------------- strings

  function LowerChar(c: char): char
  {
    if 'A' <= c <= 'Z' then (c as int + 32) as char else c
  }

  function UpperChar(c: char): char
  {
    if 'a' <= c <= 'z' then (c as int - 32) as char else c
  }

  /** `toLowerCase` on ASCII letters. */
  function Lower(s: string): (r: string)
    ensures |r| == |s|
    ensures forall i :: 0 <= i < |s| ==> r[i] == LowerChar(s[i])
  {
    seq(|s|, i requires 0 <= i < |s| => LowerChar(s[i]))
  }

  /** `toUpperCase` on ASCII letters. */
  function Upper(s: string): (r: string)
    ensures |r| == |s|
    ensures forall i :: 0 <= i < |s| ==> r[i] == UpperChar(s[i])
  {
    seq(|s|, i requires 0 <= i < |s| => UpperChar(s[i]))
  }

  predicate StartsWith(s: string, p: string)
  {
    |p| <= |s| && s[..|p|] == p
  }

  predicate EndsWith(s: string, p: string)
  {
    |p| <= |s| && s[|s| - |p|..] == p
  }

  predicate OccursAt(s: string, p: string, i: nat)
  {
    i + |p| <= |s| && s[i..i + |p|] == p
  }

  /** The first index at which `p` occurs in `s`, searching from `from`. */
  function IndexOfFrom(s: string, p: string, from: nat): (r: Option<nat>)
    ensures r.Some? ==> from <= r.value && OccursAt(s, p, r.value)
    ensures r.Some? ==> forall j :: from <= j < r.value ==> !OccursAt(s, p, j)
    ensures r.None? ==> forall j :: from <= j ==> !OccursAt(s, p, j)
    decreases |s| - from
  {
    if from + |p| > |s| then None
    else if OccursAt(s, p, from) then Some(from)
    else IndexOfFrom(s, p, from + 1)
  }

  function IndexOf(s: string, p: string): Option<nat>
  {
    IndexOfFrom(s, p, 0)
  }

  predicate Contains(s: string, p: string)
  {
    IndexOf(s, p).Some?
  }

  /** `s.replace(p, q)` with a string pattern: only the first occurrence is replaced. */
  function ReplaceFirst(s: string, p: string, q: string): string
  {
    match IndexOf(s, p)
    case None => s
    case Some(i) => s[..i] + q + s[i + |p|..]
  }

  /** Decimal text of a natural number, as `${n}` prints it. */
  function NatToString(n: nat): (r: string)
    ensures |r| > 0
  {
    if n < 10 then ["0123456789"[n]] else NatToString(n / 10) + ["0123456789"[n % 10]]
  }

  function IntToString(n: int): (r: string)
    ensures |r| > 0
  {
    if n < 0 then "-" + NatToString(-n) else NatToString(n)
  }

  /** The characters JavaScript's `trim` removes: the white space
      characters, the Unicode space separators and the line terminators. */
  predicate IsSpace(c: char)
  {
    c == ' ' || c == '\t' || c == '\n' || c == '\r' || c == '\U{000B}' || c == '\U{000C}' ||
    c == '\U{00A0}' || c == '\U{1680}' || '\U{2000}' <= c <= '\U{200A}' ||
    c == '\U{2028}' || c == '\U{2029}' || c == '\U{202F}' || c == '\U{205F}' ||
    c == '\U{3000}' || c == '\U{FEFF}'
  }

  /** `trim`: white space removed from both ends. */
  function Trim(s: string): (r: string)
    ensures |r| <= |s|
    ensures |r| > 0 ==> !IsSpace(r[0]) && !IsSpace(r[|r| - 1])
    decreases |s|
  {
    if |s| > 0 && IsSpace(s[0]) then Trim(s[1..])
    else if |s| > 0 && IsSpace(s[|s| - 1]) then Trim(s[..|s| - 1])
    else s
  }

  /** `s.split(sep)[0]`: the text before the first separator, or all of `s`. */
  function BeforeFirst(s: string, sep: string): string
  {
    match IndexOf(s, sep)
    case None => s
    case Some(i) => s[..i]
  }

  // ---------------------------------------------------------------- ordered maps

  /** A JavaScript `Map`: entries in insertion order, keys distinct. */
  type OMap<K, V> = seq<(K, V)>

  ghost predicate DistinctKeys<K, V>(m: OMap<K, V>)
  {
    forall i, j :: 0 <= i < j < |m| ==> m[i].0 != m[j].0
  }

  function Keys<K, V>(m: OMap<K, V>): (r: seq<K>)
    ensures |r| == |m|
    ensures forall i :: 0 <= i < |m| ==> r[i] == m[i].0
  {
    seq(|m|, i requires 0 <= i < |m| => m[i].0)
  }

  function Values<K, V>(m: OMap<K, V>): (r: seq<V>)
    ensures |r| == |m|
    ensures forall i :: 0 <= i < |m| ==> r[i] == m[i].1
  {
    seq(|m|, i requires 0 <= i < |m| => m[i].1)
  }

  /** The position of key `k`, if present. */
  function Find<K(==), V>(m: OMap<K, V>, k: K): (r: Option<nat>)
    ensures r.Some? ==> r.value < |m| && m[r.value].0 == k
    ensures r.Some? ==> forall j :: 0 <= j < r.value ==> m[j].0 != k
    ensures r.None? ==> forall j :: 0 <= j < |m| ==> m[j].0 != k
  {
    if |m| == 0 then None
    else if m[0].0 == k then Some(0)
    else match Find(m[1..], k)
      case None => None
      case Some(i) => Some(i + 1)
  }

  /** `m.get(k)`. */
  function Get<K(==), V>(m: OMap<K, V>, k: K): Option<V>
  {
    match Find(m, k)
    case None => None
    case Some(i) => Some(m[i].1)
  }

  predicate HasKey<K(==), V>(m: OMap<K, V>, k: K)
  {
    Find(m, k).Some?
  }

  /** `m.set(k, v)`: replaces the value in place when `k` is present, appends otherwise. */
  function Put<K(==, !new), V>(m: OMap<K, V>, k: K, v: V): (r: OMap<K, V>)
    ensures Get(r, k) == Some(v)
    ensures forall k' :: k' != k ==> Get(r, k') == Get(m, k')
    ensures HasKey(m, k) ==> |r| == |m| && Keys(r) == Keys(m)
    ensures !HasKey(m, k) ==> r == m + [(k, v)]
    ensures DistinctKeys(m) ==> DistinctKeys(r)
  {
    match Find(m, k)
    case Some(i) =>
      var r := m[i := (k, v)];
      assert forall k' :: k' != k ==> Find(r, k') == Find(m, k') by {
        forall k' | k' != k ensures Find(r, k') == Find(m, k') {
          FindSameKeys(m, r, k');
        }
      }
      assert Keys(r) == Keys(m);
      r
    case None =>
      var r := m + [(k, v)];
      assert forall k' :: k' != k ==> Get(r, k') == Get(m, k') by {
        forall k' | k' != k ensures Get(r, k') == Get(m, k') {
          FindAppend(m, k, v, k');
        }
      }
      FindAppend(m, k, v, k);
      r
  }

  /** Every entry after a `set` is an old entry or the new one. */
  lemma PutEntries<K(!new), V>(m: OMap<K, V>, k: K, v: V)
    ensures forall e :: e in Put(m, k, v) ==> e in m || e == (k, v)
  {
    match Find(m, k)
    case None =>
    case Some(i) =>
      forall e | e in Put(m, k, v) ensures e in m || e == (k, v) {
        var j :| 0 <= j < |m| && Put(m, k, v)[j] == e;
        assert j == i || e == m[j];
      }
  }

  lemma {:induction false} FindSameKeys<K, V, W>(m: OMap<K, V>, r: OMap<K, W>, k: K)
    requires |m| == |r|
    requires forall i :: 0 <= i < |m| ==> m[i].0 == r[i].0
    ensures Find(r, k) == Find(m, k)
    decreases |m|
  {
    if |m| > 0 && m[0].0 != k {
      FindSameKeys(m[1..], r[1..], k);
    }
  }

  lemma {:induction false} FindAppend<K, V>(m: OMap<K, V>, k: K, v: V, k': K)
    requires !HasKey(m, k)
    ensures k' != k ==> Find(m + [(k, v)], k') == Find(m, k')
    ensures Find(m + [(k, v)], k) == Some(|m|)
    decreases |m|
  {
    if |m| > 0 {
      assert (m + [(k, v)])[1..] == m[1..] + [(k, v)];
      FindAppend(m[1..], k, v, k');
    }
  }

  /** `get` looks at the first entry, then at the rest. */
  lemma GetHead<K, V>(m: OMap<K, V>, k: K)
    requires |m| > 0
    ensures Get(m, k) == if m[0].0 == k then Some(m[0].1) else Get(m[1..], k)
  {
  }

  /** Without its first entry a map keeps distinct keys and no longer has
      the first key. */
  lemma DistinctTail<K, V>(m: OMap<K, V>)
    requires DistinctKeys(m) && |m| > 0
    ensures DistinctKeys(m[1..])
    ensures Get(m[1..], m[0].0).None?
  {
    assert forall j :: 0 <= j < |m| - 1 ==> m[1..][j].0 == m[j + 1].0 != m[0].0;
  }

  /** `m.get(k) ?? d`. */
  function GetOr<K(==), V>(m: OMap<K, V>, k: K, d: V): V
  {
    match Get(m, k)
    case None => d
    case Some(v) => v
  }

  /** Keeps the entries whose value satisfies `keep`, in order. */
  function FilterValues<K(!new), V(!new)>(m: OMap<K, V>, keep: V -> bool): (r: OMap<K, V>)
    ensures |r| <= |m|
    ensures forall e :: e in r <==> e in m && keep(e.1)
    ensures DistinctKeys(m) ==> DistinctKeys(r)
  {
    if |m| == 0 then []
    else
      var rest := FilterValues(m[1..], keep);
      FilterValuesStep(m, keep, rest);
      if keep(m[0].1) then [m[0]] + rest else rest
  }

  /** One step of `FilterValues`: the head is kept or dropped in front of
      the filtered tail. */
  lemma FilterValuesStep<K, V>(m: OMap<K, V>, keep: V -> bool, rest: OMap<K, V>)
    requires |m| > 0 && |rest| <= |m| - 1
    requires forall e :: e in rest <==> e in m[1..] && keep(e.1)
    requires DistinctKeys(m[1..]) ==> DistinctKeys(rest)
    ensures var r := if keep(m[0].1) then [m[0]] + rest else rest;
      |r| <= |m| && (forall e :: e in r <==> e in m && keep(e.1)) && (DistinctKeys(m) ==> DistinctKeys(r))
  {
    assert m == [m[0]] + m[1..];
    if keep(m[0].1) {
      ConsDistinct(m, rest);
    } else if DistinctKeys(m) {
      DistinctTail(m);
    }
  }

  /** The first entry's key is not among entries taken from the tail. */
  lemma ConsDistinct<K, V>(m: OMap<K, V>, rest: OMap<K, V>)
    requires |m| > 0
    requires forall e :: e in rest ==> e in m[1..]
    requires DistinctKeys(m[1..]) ==> DistinctKeys(rest)
    ensures DistinctKeys(m) ==> DistinctKeys([m[0]] + rest)
  {
    if DistinctKeys(m) {
      DistinctTail(m);
      var r := [m[0]] + rest;
      forall i, j | 0 <= i < j < |r| ensures r[i].0 != r[j].0 {
        assert r[j] == rest[j - 1] && rest[j - 1] in m[1..];
        var k :| 0 <= k < |m| - 1 && m[1..][k] == rest[j - 1];
        if i == 0 {
          assert m[k + 1] == r[j];
        } else {
          assert r[i] == rest[i - 1];
        }
      }
    }
  }

  /** Deleting, in place, every entry whose value fails `keep` leaves the
      other keys' values where `get` finds them. */
  lemma {:induction false} FilterValuesGet<K(!new), V(!new)>(m: OMap<K, V>, keep: V -> bool, k: K)
    requires DistinctKeys(m)
    ensures Get(FilterValues(m, keep), k) == if Get(m, k).Some? && keep(Get(m, k).value) then Get(m, k) else None
    decreases |m|
  {
    if |m| > 0 {
      var rest := FilterValues(m[1..], keep);
      DistinctTail(m);
      FilterValuesGet(m[1..], keep, k);
      GetHead(m, k);
      if keep(m[0].1) {
        assert FilterValues(m, keep) == [m[0]] + rest;
        assert ([m[0]] + rest)[1..] == rest;
        GetHead([m[0]] + rest, k);
      } else {
        assert FilterValues(m, keep) == rest;
      }
    }
  }

  /** Replaces every value by its image under `f`, keeping the keys and their order. */
  function MapValues<K, V, W>(m: OMap<K, V>, f: V -> W): (r: OMap<K, W>)
    ensures |r| == |m|
    ensures forall i :: 0 <= i < |m| ==> r[i] == (m[i].0, f(m[i].1))
  {
    seq(|m|, i requires 0 <= i < |m| => (m[i].0, f(m[i].1)))
  }

  /** `get` after mapping the values is the image of `get` before. */
  lemma MapValuesGet<K, V, W>(m: OMap<K, V>, f: V -> W, k: K)
    ensures Get(MapValues(m, f), k) == if Get(m, k).Some? then Some(f(Get(m, k).value)) else None
    ensures DistinctKeys(m) ==> DistinctKeys(MapValues(m, f))
  {
    FindSameKeys(m, MapValues(m, f), k);
  }
}
