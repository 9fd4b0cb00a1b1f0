/**
  `Array.prototype.sort` with a consistent comparator. Since the 2019 edition
  of ECMA-262 the sort must be stable, and a stable sort is determined by its
  comparator: `Sort` below is an insertion sort, and `StableSortUnique` shows
  that every sorted, stable permutation of the input equals its result.

  Elements are compared on one sort value (`key`) in one direction.
 */
module StableSort {
  import opened Ordering

  /** Inserts `x` before the first element it may precede. */
  function Insert<T>(x: T, s: seq<T>, key: T -> Field, d: Direction): (r: seq<T>)
    ensures multiset(r) == multiset(s) + multiset{x}
    ensures |r| == |s| + 1
  {
    if |s| == 0 then [x]
    else if InOrder(key(x), key(s[0]), d) then [x] + s
    else
      assert s == [s[0]] + s[1..];
      [s[0]] + Insert(x, s[1..], key, d)
  }

  /** `[...xs].sort(comparator)`. */
  function Sort<T>(xs: seq<T>, key: T -> Field, d: Direction): (r: seq<T>)
    ensures multiset(r) == multiset(xs)
    ensures |r| == |xs|
  {
    if |xs| == 0 then []
    else
      assert xs == [xs[0]] + xs[1..];
      Insert(xs[0], Sort(xs[1..], key, d), key, d)
  }

  /** Every element may precede every later one. */
  ghost predicate Sorted<T>(s: seq<T>, key: T -> Field, d: Direction) {
    forall i, j :: 0 <= i < j < |s| ==> InOrder(key(s[i]), key(s[j]), d)
  }

  /** The elements of `s` whose sort value is `k`, in their order in `s`. */
  function Class<T>(s: seq<T>, key: T -> Field, k: Field): seq<T> {
    if |s| == 0 then []
    else (if key(s[0]) == k then [s[0]] else []) + Class(s[1..], key, k)
  }

  /** Elements that compare equal keep their relative order. */
  ghost predicate Stable<T>(out: seq<T>, xs: seq<T>, key: T -> Field) {
    forall k :: Class(out, key, k) == Class(xs, key, k)
  }

  ghost predicate IsStableSortOf<T>(out: seq<T>, xs: seq<T>, key: T -> Field, d: Direction) {
    && Sorted(out, key, d)
    && multiset(out) == multiset(xs)
    && Stable(out, xs, key)
  }

  /** A sorted list stays sorted under a new head that may precede all of it. */
  lemma ConsSorted<T>(h: T, t: seq<T>, key: T -> Field, d: Direction)
    requires Sorted(t, key, d)
    requires forall y :: y in t ==> InOrder(key(h), key(y), d)
    ensures Sorted([h] + t, key, d)
  {
    var r := [h] + t;
    forall i, j | 0 <= i < j < |r|
      ensures InOrder(key(r[i]), key(r[j]), d)
    {
      assert r[j] == t[j - 1];
      if i > 0 {
        assert r[i] == t[i - 1];
      }
    }
  }

  lemma {:induction false} InsertSorted<T>(x: T, s: seq<T>, key: T -> Field, d: Direction)
    requires Sorted(s, key, d)
    ensures Sorted(Insert(x, s, key, d), key, d)
  {
    if |s| == 0 {
    } else if InOrder(key(x), key(s[0]), d) {
      forall y | y in s
        ensures InOrder(key(x), key(y), d)
      {
        var j :| 0 <= j < |s| && s[j] == y;
        if j > 0 {
          InOrderTotalPreorder(key(x), key(s[0]), key(y), d);
        }
      }
      ConsSorted(x, s, key, d);
    } else {
      var t := s[1..];
      var rest := Insert(x, t, key, d);
      assert Sorted(t, key, d);
      InsertSorted(x, t, key, d);
      InOrderTotalPreorder(key(x), key(s[0]), key(x), d);
      forall y | y in rest
        ensures InOrder(key(s[0]), key(y), d)
      {
        assert y in multiset(rest);
        if y != x {
          assert y in multiset(t);
          var m :| 0 <= m < |t| && t[m] == y;
          assert s[m + 1] == y;
        }
      }
      ConsSorted(s[0], rest, key, d);
    }
  }

  lemma {:induction false} SortSorted<T>(xs: seq<T>, key: T -> Field, d: Direction)
    ensures Sorted(Sort(xs, key, d), key, d)
  {
    if |xs| > 0 {
      SortSorted(xs[1..], key, d);
      InsertSorted(xs[0], Sort(xs[1..], key, d), key, d);
    }
  }

  lemma {:induction false} ClassAppend<T>(a: seq<T>, b: seq<T>, key: T -> Field, k: Field)
    ensures Class(a + b, key, k) == Class(a, key, k) + Class(b, key, k)
  {
    if |a| > 0 {
      assert (a + b)[1..] == a[1..] + b;
      ClassAppend(a[1..], b, key, k);
    } else {
      assert a + b == b;
    }
  }

  /** The inserted element comes before every element with the same sort value. */
  lemma {:induction false} InsertClass<T>(x: T, s: seq<T>, key: T -> Field, d: Direction, k: Field)
    ensures Class(Insert(x, s, key, d), key, k)
         == (if key(x) == k then [x] else []) + Class(s, key, k)
    decreases |s|, 1
  {
    if |s| == 0 {
    } else if InOrder(key(x), key(s[0]), d) {
      ClassAppend([x], s, key, k);
    } else {
      InsertClassSkip(x, s, key, d, k);
    }
  }

  lemma ClassCons<T>(h: T, t: seq<T>, key: T -> Field, k: Field)
    ensures Class([h] + t, key, k) == (if key(h) == k then [h] else []) + Class(t, key, k)
  {
    assert ([h] + t)[1..] == t;
  }

  /** Passing over a head that strictly precedes `x` cannot reorder `x`'s class. */
  lemma {:induction false} InsertClassSkip<T>(x: T, s: seq<T>, key: T -> Field, d: Direction, k: Field)
    requires |s| > 0 && !InOrder(key(x), key(s[0]), d)
    ensures Class(Insert(x, s, key, d), key, k)
         == (if key(x) == k then [x] else []) + Class(s, key, k)
    decreases |s|, 0
  {
    var h, t := s[0], s[1..];
    var rest := Insert(x, t, key, d);
    assert Insert(x, s, key, d) == [h] + rest;
    assert key(h) != key(x);
    var px: seq<T> := if key(x) == k then [x] else [];
    var ph: seq<T> := if key(h) == k then [h] else [];
    InsertClass(x, t, key, d, k);
    ClassCons(h, rest, key, k);
    ClassCons(h, t, key, k);
    assert s == [h] + t;
    assert ph + (px + Class(t, key, k)) == px + (ph + Class(t, key, k)) by {
      assert px == [] || ph == [];
    }
  }

  lemma {:induction false} SortStable<T>(xs: seq<T>, key: T -> Field, d: Direction)
    ensures Stable(Sort(xs, key, d), xs, key)
  {
    forall k
      ensures Class(Sort(xs, key, d), key, k) == Class(xs, key, k)
    {
      SortClass(xs, key, d, k);
    }
  }

  lemma {:induction false} SortClass<T>(xs: seq<T>, key: T -> Field, d: Direction, k: Field)
    ensures Class(Sort(xs, key, d), key, k) == Class(xs, key, k)
  {
    if |xs| > 0 {
      SortClass(xs[1..], key, d, k);
      InsertClass(xs[0], Sort(xs[1..], key, d), key, d, k);
    }
  }

  /** The insertion sort is a stable sort. */
  lemma SortIsStableSort<T>(xs: seq<T>, key: T -> Field, d: Direction)
    ensures IsStableSortOf(Sort(xs, key, d), xs, key, d)
  {
    SortSorted(xs, key, d);
    SortStable(xs, key, d);
  }

  /** At most one sequence is a sorted, stable permutation of a given input. */
  lemma {:induction false} StableSortUnique<T>(a: seq<T>, b: seq<T>, xs: seq<T>, key: T -> Field, d: Direction)
    requires IsStableSortOf(a, xs, key, d)
    requires IsStableSortOf(b, xs, key, d)
    ensures a == b
  {
    SortedStableEqual(a, b, key, d);
  }

  /** Two sorted, stable permutations of each other start with the same element. */
  lemma SameHead<T>(a: seq<T>, b: seq<T>, key: T -> Field, d: Direction)
    requires |a| > 0
    requires Sorted(a, key, d) && Sorted(b, key, d)
    requires multiset(a) == multiset(b)
    requires Stable(a, b, key)
    ensures |b| > 0 && a[0] == b[0]
  {
    assert a[0] in multiset(b);
    assert b[0] in multiset(a);
    var i :| 0 <= i < |b| && b[i] == a[0];
    var j :| 0 <= j < |a| && a[j] == b[0];
    InOrderTotalPreorder(key(a[0]), key(b[0]), key(a[0]), d);
    InOrderTotalPreorder(key(b[0]), key(a[0]), key(b[0]), d);
    if j > 0 {
      assert InOrder(key(a[0]), key(b[0]), d);
    }
    if i > 0 {
      assert InOrder(key(b[0]), key(a[0]), d);
    }
    var k0 := key(a[0]);
    assert key(b[0]) == k0;
    assert Class(a, key, k0) == Class(b, key, k0);
    assert Class(a, key, k0)[0] == a[0];
    assert Class(b, key, k0)[0] == b[0];
  }

  /** Dropping a common head keeps two sequences stable permutations of each other. */
  lemma DropHead<T>(a: seq<T>, b: seq<T>, key: T -> Field)
    requires |a| > 0 && |b| > 0 && a[0] == b[0]
    requires multiset(a) == multiset(b)
    requires Stable(a, b, key)
    ensures multiset(a[1..]) == multiset(b[1..])
    ensures Stable(a[1..], b[1..], key)
  {
    forall k
      ensures Class(a[1..], key, k) == Class(b[1..], key, k)
    {
      DropHeadClass(a, b, key, k);
    }
    assert a == [a[0]] + a[1..] && b == [b[0]] + b[1..];
    assert multiset(a[1..]) == multiset(a) - multiset{a[0]};
    assert multiset(b[1..]) == multiset(b) - multiset{b[0]};
  }

  lemma DropHeadClass<T>(a: seq<T>, b: seq<T>, key: T -> Field, k: Field)
    requires |a| > 0 && |b| > 0 && a[0] == b[0]
    requires Class(a, key, k) == Class(b, key, k)
    ensures Class(a[1..], key, k) == Class(b[1..], key, k)
  {
    var p := if key(a[0]) == k then [a[0]] else [];
    assert Class(a, key, k) == p + Class(a[1..], key, k);
    assert Class(b, key, k) == p + Class(b[1..], key, k);
    assert Class(a[1..], key, k) == Class(a, key, k)[|p|..];
    assert Class(b[1..], key, k) == Class(b, key, k)[|p|..];
  }

  lemma {:induction false} SortedStableEqual<T>(a: seq<T>, b: seq<T>, key: T -> Field, d: Direction)
    requires Sorted(a, key, d) && Sorted(b, key, d)
    requires multiset(a) == multiset(b)
    requires Stable(a, b, key)
    ensures a == b
    decreases |a|
  {
    if |a| == 0 {
      assert |multiset(b)| == 0;
    } else {
      SameHead(a, b, key, d);
      DropHead(a, b, key);
      SortedStableEqual(a[1..], b[1..], key, d);
      assert a == [a[0]] + a[1..] && b == [b[0]] + b[1..];
    }
  }

  /** Sorting again on the same key and direction changes nothing. */
  lemma SortIdempotent<T>(xs: seq<T>, key: T -> Field, d: Direction)
    ensures Sort(Sort(xs, key, d), key, d) == Sort(xs, key, d)
  {
    var s := Sort(xs, key, d);
    SortIsStableSort(s, key, d);
    SortIsStableSort(xs, key, d);
    SortOfSorted(s, key, d);
  }

  /** An already sorted list is left exactly as it is. */
  lemma SortOfSorted<T>(xs: seq<T>, key: T -> Field, d: Direction)
    requires Sorted(xs, key, d)
    ensures Sort(xs, key, d) == xs
  {
    SortIsStableSort(xs, key, d);
    SortedStableEqual(Sort(xs, key, d), xs, key, d);
  }
}
