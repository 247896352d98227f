/** Slice helpers shared by the listing commands: keeping the elements that
    pass a test, in order, and truncating to a limit. */
module Seqs {

  /** `a` is `b` with some elements left out, the rest in the same order. */
  predicate Subsequence<T(==)>(a: seq<T>, b: seq<T>)
    decreases |b|
  {
    if a == [] then true
    else if b == [] then false
    else (a[0] == b[0] && Subsequence(a[1..], b[1..])) || Subsequence(a, b[1..])
  }

  /** The elements of `xs` that pass `keep`, in order: what a loop appending
      the elements that survive every `continue` builds. */
  function Filter<T>(xs: seq<T>, keep: T -> bool): seq<T>
    decreases |xs|
  {
    if xs == [] then []
    else (if keep(xs[0]) then [xs[0]] else []) + Filter(xs[1..], keep)
  }

  /** One step of such a loop, at index `i`. */
  lemma FilterStep<T>(xs: seq<T>, i: nat, keep: T -> bool)
    requires i < |xs|
    ensures keep(xs[i]) ==> Filter(xs[i..], keep) == [xs[i]] + Filter(xs[i + 1..], keep)
    ensures !keep(xs[i]) ==> Filter(xs[i..], keep) == Filter(xs[i + 1..], keep)
  {
    assert xs[i..][0] == xs[i] && xs[i..][1..] == xs[i + 1..];
  }

  /** The filter keeps an order-preserving subsequence: exactly the elements
      that pass. */
  lemma {:induction false} FilterSpec<T>(xs: seq<T>, keep: T -> bool)
    ensures Subsequence(Filter(xs, keep), xs)
    ensures forall x :: x in Filter(xs, keep) <==> x in xs && keep(x)
    decreases |xs|
  {
    if xs != [] {
      FilterSpec(xs[1..], keep);
      var s, s1 := Filter(xs, keep), Filter(xs[1..], keep);
      assert forall x :: x in xs <==> x == xs[0] || x in xs[1..];
      if keep(xs[0]) {
        assert s == [xs[0]] + s1 && s[1..] == s1;
      } else {
        assert s == s1;
      }
    }
  }

  /** Two tests that agree on every element filter alike. */
  lemma {:induction false} FilterAgree<T>(xs: seq<T>, keep1: T -> bool, keep2: T -> bool)
    requires forall i | 0 <= i < |xs| :: keep1(xs[i]) == keep2(xs[i])
    ensures Filter(xs, keep1) == Filter(xs, keep2)
    decreases |xs|
  {
    if xs != [] {
      assert forall i | 0 <= i < |xs[1..]| :: xs[1..][i] == xs[i + 1];
      FilterAgree(xs[1..], keep1, keep2);
    }
  }

  /** `p` is a prefix of `s`. */
  predicate IsPrefix<T(==)>(p: seq<T>, s: seq<T>) {
    |p| <= |s| && s[..|p|] == p
  }

  /** The limit: the first `limit` elements when 0 < limit < |xs|, otherwise all. */
  function Limit<T>(xs: seq<T>, limit: int): (r: seq<T>)
    ensures IsPrefix(r, xs)
    ensures 0 < limit < |xs| ==> |r| == limit
    ensures !(0 < limit < |xs|) ==> r == xs
  {
    if 0 < limit && limit < |xs| then xs[..limit] else xs
  }
}
