/** `Array.prototype.filter` and the subsequence relation it establishes. */
module Seqs {

  /** `a` can be obtained from `b` by deleting elements: same relative order, nothing new. */
  ghost predicate IsSubsequence<T>(a: seq<T>, b: seq<T>)
    decreases |b|
  {
    if |a| == 0 then true
    else if |b| == 0 then false
    else (a[0] == b[0] && IsSubsequence(a[1..], b[1..])) || IsSubsequence(a, b[1..])
  }

  /** `xs.filter(keep)`: the elements satisfying `keep`, in their original order. */
  function Filter<T(!new)>(xs: seq<T>, keep: T -> bool): (r: seq<T>)
    ensures IsSubsequence(r, xs)
    ensures forall x :: multiset(r)[x] == if keep(x) then multiset(xs)[x] else 0
    ensures forall i :: 0 <= i < |r| ==> keep(r[i])
    ensures |r| <= |xs|
  {
    if |xs| == 0 then []
    else
      assert xs == [xs[0]] + xs[1..];
      var rest := Filter(xs[1..], keep);
      if keep(xs[0]) then
        assert ([xs[0]] + rest)[1..] == rest;
        [xs[0]] + rest
      else rest
  }

  /** Nothing is dropped exactly when every element is kept. */
  lemma {:induction false} FilterKeepsLengthIffAllKept<T(!new)>(xs: seq<T>, keep: T -> bool)
    ensures |Filter(xs, keep)| == |xs| <==> forall i :: 0 <= i < |xs| ==> keep(xs[i])
  {
    if |xs| > 0 {
      var tail := xs[1..];
      FilterKeepsLengthIffAllKept(tail, keep);
      if !keep(xs[0]) {
        assert |Filter(xs, keep)| == |Filter(tail, keep)|;
      } else if |Filter(tail, keep)| == |tail| {
        forall i | 0 <= i < |xs|
          ensures keep(xs[i])
        {
          if i > 0 {
            assert xs[i] == tail[i - 1];
          }
        }
      } else {
        var j :| 0 <= j < |tail| && !keep(tail[j]);
        assert xs[j + 1] == tail[j];
      }
    }
  }

  /** Nothing is kept exactly when no element satisfies `keep`. */
  lemma {:induction false} FilterEmptyIffNoneKept<T(!new)>(xs: seq<T>, keep: T -> bool)
    ensures |Filter(xs, keep)| == 0 <==> forall i :: 0 <= i < |xs| ==> !keep(xs[i])
  {
    if |xs| > 0 {
      var tail := xs[1..];
      FilterEmptyIffNoneKept(tail, keep);
      assert (forall i :: 0 <= i < |xs| ==> !keep(xs[i]))
         <==> !keep(xs[0]) && forall i :: 0 <= i < |tail| ==> !keep(tail[i]) by {
        assert forall i :: 1 <= i < |xs| ==> xs[i] == tail[i - 1];
      }
    }
  }

  /** Keeping every element is the identity. */
  lemma {:induction false} FilterKeepsAll<T(!new)>(xs: seq<T>, keep: T -> bool)
    requires forall i :: 0 <= i < |xs| ==> keep(xs[i])
    ensures Filter(xs, keep) == xs
  {
    if |xs| > 0 {
      FilterKeepsAll(xs[1..], keep);
      assert xs == [xs[0]] + xs[1..];
    }
  }
}
