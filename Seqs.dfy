/** Generic sequence operations matching JavaScript's Array.prototype.map,
    Array.prototype.filter,
    Array.prototype.find and Array.prototype.includes. */
module Seqs {
  import opened Wrappers

  /** `xs.filter(p)`: the elements satisfying `p`, in their original order. */
  function Filter<T>(xs: seq<T>, p: T -> bool): (r: seq<T>)
    ensures |r| <= |xs|
    ensures forall x :: x in r ==> x in xs && p(x)
    ensures forall x :: x in xs && p(x) ==> x in r
  {
    if xs == [] then []
    else if p(xs[0]) then [xs[0]] + Filter(xs[1..], p)
    else Filter(xs[1..], p)
  }

  /** `r` holds, in order, exactly the elements of `xs` that pass `p`: as
      many elements as pass, and each passing element at the position given
      by the number of passing elements before it. */
  ghost predicate KeepsExactly<T>(r: seq<T>, xs: seq<T>, p: T -> bool) {
    |r| == CountWhere(xs, p) &&
    forall i :: 0 <= i < |xs| && p(xs[i]) ==> CountWhere(xs[..i], p) < |r| && r[CountWhere(xs[..i], p)] == xs[i]
  }

  /** `filter` keeps the passing elements in their order and as often as they
      occur. */
  lemma FilterKeepsOrder<T>(xs: seq<T>, p: T -> bool)
    ensures KeepsExactly(Filter(xs, p), xs, p)
  {
    FilterLength(xs, p);
    forall i | 0 <= i < |xs| && p(xs[i])
      ensures CountWhere(xs[..i], p) < |Filter(xs, p)| && Filter(xs, p)[CountWhere(xs[..i], p)] == xs[i]
    {
      FilterAt(xs, p, i);
    }
  }

  /** `filter` keeps as many elements as pass. */
  lemma {:induction false} FilterLength<T>(xs: seq<T>, p: T -> bool)
    ensures |Filter(xs, p)| == CountWhere(xs, p)
  {
    if xs != [] {
      FilterLength(xs[1..], p);
    }
  }

  /** A passing element lands after the passing elements before it. */
  lemma {:induction false} FilterAt<T>(xs: seq<T>, p: T -> bool, i: nat)
    requires i < |xs| && p(xs[i])
    ensures CountWhere(xs[..i], p) < |Filter(xs, p)| && Filter(xs, p)[CountWhere(xs[..i], p)] == xs[i]
  {
    if i > 0 {
      var c := CountWhere(xs[1..][..i - 1], p);
      var rest := Filter(xs[1..], p);
      assert xs[1..][i - 1] == xs[i];
      FilterAt(xs[1..], p, i - 1);
      CountPrefixTail(xs, p, i);
      if p(xs[0]) {
        assert Filter(xs, p) == [xs[0]] + rest;
        assert CountWhere(xs[..i], p) == 1 + c;
        assert ([xs[0]] + rest)[1 + c] == rest[c];
      } else {
        assert Filter(xs, p) == rest;
        assert CountWhere(xs[..i], p) == c;
      }
    } else {
      assert xs[..i] == [];
      assert Filter(xs, p) == [xs[0]] + Filter(xs[1..], p);
    }
  }

  /** Past the first element, the filtered list is the filtered rest, shifted
      by one when the first element passes. */
  lemma FilterShift<T>(xs: seq<T>, p: T -> bool, k: nat)
    requires xs != [] && k < |Filter(xs[1..], p)|
    ensures (if p(xs[0]) then 1 else 0) + k < |Filter(xs, p)|
    ensures Filter(xs, p)[(if p(xs[0]) then 1 else 0) + k] == Filter(xs[1..], p)[k]
  {
  }

  /** Counting over a prefix is counting the first element and the rest of
      the prefix. */
  lemma CountPrefixTail<T>(xs: seq<T>, p: T -> bool, i: nat)
    requires 1 <= i <= |xs|
    ensures CountWhere(xs[..i], p) == (if p(xs[0]) then 1 else 0) + CountWhere(xs[1..][..i - 1], p)
  {
    assert xs[..i][1..] == xs[1..][..i - 1];
  }

  /** `filter` keeps every passing value exactly as often as it occurs and
      drops every other value. */
  lemma {:induction false} FilterCounts<T>(xs: seq<T>, p: T -> bool, y: T)
    ensures multiset(Filter(xs, p))[y] == if p(y) then multiset(xs)[y] else 0
  {
    if xs != [] {
      FilterCounts(xs[1..], p, y);
      assert xs == [xs[0]] + xs[1..];
    }
  }

  /** `xs.map(f)`: `f` applied to each element, in order. */
  function Map<T, U>(xs: seq<T>, f: T -> U): (r: seq<U>)
    ensures |r| == |xs|
    ensures forall i :: 0 <= i < |xs| ==> r[i] == f(xs[i])
  {
    if xs == [] then [] else [f(xs[0])] + Map(xs[1..], f)
  }

  /** `xs.filter(p).length`. */
  function CountWhere<T>(xs: seq<T>, p: T -> bool): (n: nat)
    ensures n <= |xs|
    ensures n == 0 <==> forall i :: 0 <= i < |xs| ==> !p(xs[i])
  {
    if xs == [] then 0
    else (if p(xs[0]) then 1 else 0) + CountWhere(xs[1..], p)
  }

  /** `xs.find(p)`: the first element satisfying `p`, or `undefined`. */
  function FindFirst<T>(xs: seq<T>, p: T -> bool): (r: Option<T>)
    ensures r.None? <==> forall i :: 0 <= i < |xs| ==> !p(xs[i])
    ensures r.Some? ==> exists i :: 0 <= i < |xs| && xs[i] == r.value && p(xs[i]) &&
                                    forall j :: 0 <= j < i ==> !p(xs[j])
  {
    if xs == [] then None
    else if p(xs[0]) then Some(xs[0])
    else
      var rest := FindFirst(xs[1..], p);
      assert forall j :: 1 <= j < |xs| ==> xs[j] == xs[1..][j - 1];
      rest
  }

  /** The test that both `q` and `p` pass. */
  function Both<T>(q: T -> bool, p: T -> bool): T -> bool
  {
    x => q(x) && p(x)
  }

  /** Looking for the first match of `p` among the elements of `xs` that satisfy
      `q` is the same as looking for the first element satisfying both. */
  lemma {:induction false} FindFirstInFilter<T>(xs: seq<T>, q: T -> bool, p: T -> bool)
    ensures FindFirst(Filter(xs, q), p) == FindFirst(xs, Both(q, p))
  {
    if xs != [] {
      FindFirstInFilter(xs[1..], q, p);
    }
  }

  /** The position of the element `FindFirst` returns. */
  lemma {:induction false} FindFirstIndex<T>(xs: seq<T>, p: T -> bool) returns (i: nat)
    requires FindFirst(xs, p).Some?
    ensures i < |xs| && xs[i] == FindFirst(xs, p).value && p(xs[i])
    ensures forall j :: 0 <= j < i ==> !p(xs[j])
  {
    if p(xs[0]) {
      i := 0;
    } else {
      var k := FindFirstIndex(xs[1..], p);
      i := k + 1;
      assert forall j :: 1 <= j < i ==> xs[j] == xs[1..][j - 1];
    }
  }

  /** Nothing passes a filter that rejects every element. */
  lemma {:induction false} FilterRejectsAll<T>(xs: seq<T>, p: T -> bool)
    requires forall i :: 0 <= i < |xs| ==> !p(xs[i])
    ensures Filter(xs, p) == []
  {
    if xs != [] {
      FilterRejectsAll(xs[1..], p);
    }
  }

  /** The test that keeps every value except `x`. */
  function Unequal<T(==)>(x: T): T -> bool
  {
    z => z != x
  }

  /** Removing every occurrence of `x` keeps the count of every other value. */
  lemma {:induction false} FilterOutKeepsOthers<T>(xs: seq<T>, x: T, y: T)
    requires y != x
    ensures multiset(Filter(xs, Unequal(x)))[y] == multiset(xs)[y]
  {
    if xs != [] {
      FilterOutKeepsOthers(xs[1..], x, y);
      assert xs == [xs[0]] + xs[1..];
    }
  }

  /** Filtering out a value that does not occur changes nothing. */
  lemma {:induction false} FilterOutAbsent<T>(xs: seq<T>, x: T)
    requires x !in xs
    ensures Filter(xs, Unequal(x)) == xs
  {
    if xs != [] {
      assert x !in xs[1..];
      FilterOutAbsent(xs[1..], x);
      assert xs == [xs[0]] + xs[1..];
    }
  }

  /** Filtering distributes over concatenation. */
  lemma {:induction false} FilterAppend<T>(xs: seq<T>, ys: seq<T>, p: T -> bool)
    ensures Filter(xs + ys, p) == Filter(xs, p) + Filter(ys, p)
  {
    if xs != [] {
      assert (xs + ys)[1..] == xs[1..] + ys;
      FilterAppend(xs[1..], ys, p);
    } else {
      assert xs + ys == ys;
    }
  }

  /** Regrouping a concatenation behind its first part. */
  lemma RegroupTail4<T>(a: seq<T>, b: seq<T>, c: seq<T>, d: seq<T>)
    ensures a + b + c + d == a + (b + c + d)
  {
  }

  /** Regrouping a concatenation of three parts. */
  lemma RegroupPair<T>(a: seq<T>, b: seq<T>, c: seq<T>)
    ensures a + (b + c) == a + b + c
  {
  }

  /** Flattening a concatenation nested to the right. */
  lemma RegroupNested<T>(a: seq<T>, b: seq<T>, c: seq<T>, d: seq<T>)
    ensures a + (b + (c + d)) == a + b + c + d
  {
  }

  /** Regrouping a longer concatenation behind its first part. */
  lemma RegroupTail6<T>(a: seq<T>, b: seq<T>, c: seq<T>, d: seq<T>, e: seq<T>, f: seq<T>)
    ensures a + b + c + d + e + f == a + (b + c + d + e + f)
  {
    RegroupTail4(a, b + c + d, e, f);
  }

  /** A slice of the tail is the slice one position further on. */
  lemma SliceOfTail<T>(s: seq<T>, i: nat, j: nat)
    requires i <= j < |s|
    ensures s[1..][i..j] == s[i + 1..j + 1]
  {
  }

  /** Regrouping the last two parts of a concatenation. */
  lemma RegroupLast<T>(a: seq<T>, b: seq<T>, c: seq<T>, d: seq<T>)
    ensures a + b + c + d == a + b + (c + d)
  {
  }

  /** The position an element of a mapped list comes from. */
  lemma MapIndex<T, U>(xs: seq<T>, f: T -> U, y: U) returns (k: nat)
    requires y in Map(xs, f)
    ensures k < |xs| && y == f(xs[k])
  {
    var ys := Map(xs, f);
    k :| k < |ys| && ys[k] == y;
  }
}
