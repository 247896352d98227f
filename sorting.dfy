/** Sorting a slice in place with a three-way comparator (negative, zero,
    positive), as slices.SortStableFunc does. Any stable sort under a total
    preorder yields the same sequence, so the model sorts by insertion: a
    method on an array, proved equal to a function on sequences whose
    properties (permutation, order, stability) are lemmas. */
module Sorting {

  /** cmp is a total preorder: its sign flips with its arguments and "not
      after" is transitive. */
  ghost predicate Preorder<T(!new)>(cmp: (T, T) -> int) {
    Antisymmetric(cmp) && Transitive(cmp)
  }

  ghost predicate Antisymmetric<T(!new)>(cmp: (T, T) -> int) {
    forall x, y {:trigger Opposite(cmp, x, y)} :: Opposite(cmp, x, y)
  }

  ghost predicate Opposite<T>(cmp: (T, T) -> int, x: T, y: T) {
    cmp(x, y) == -cmp(y, x)
  }

  lemma Anti<T(!new)>(cmp: (T, T) -> int, x: T, y: T)
    requires Antisymmetric(cmp)
    ensures cmp(x, y) == -cmp(y, x)
  {
    assert Opposite(cmp, x, y);
  }

  ghost predicate Transitive<T(!new)>(cmp: (T, T) -> int) {
    forall x, y, z {:trigger NotAfter(cmp, x, y), NotAfter(cmp, y, z)} ::
      NotAfter(cmp, x, y) && NotAfter(cmp, y, z) ==> NotAfter(cmp, x, z)
  }

  ghost predicate NotAfter<T>(cmp: (T, T) -> int, x: T, y: T) {
    cmp(x, y) <= 0
  }

  lemma Trans<T(!new)>(cmp: (T, T) -> int, x: T, y: T, z: T)
    requires Transitive(cmp)
    ensures cmp(x, y) <= 0 && cmp(y, z) <= 0 ==> cmp(x, z) <= 0
  {
    assert NotAfter(cmp, x, y) && NotAfter(cmp, y, z) ==> NotAfter(cmp, x, z);
  }

  /** The reversed order of `reverse`: the comparator negated. */
  function Negate<T>(cmp: (T, T) -> int): (T, T) -> int {
    (x, y) => -cmp(x, y)
  }

  predicate Sorted<T>(s: seq<T>, cmp: (T, T) -> int) {
    forall i, j | 0 <= i < j < |s| :: cmp(s[i], s[j]) <= 0
  }

  /** Put `x` after the last element of `s` that is not after it. */
  function Insert<T>(x: T, s: seq<T>, cmp: (T, T) -> int): (r: seq<T>)
    ensures |r| == |s| + 1
  {
    if s == [] || cmp(s[|s| - 1], x) <= 0 then s + [x]
    else Insert(x, s[..|s| - 1], cmp) + [s[|s| - 1]]
  }

  /** Insertion sort, inserting the elements from left to right. */
  function InsertionSort<T>(s: seq<T>, cmp: (T, T) -> int): (r: seq<T>)
    ensures |r| == |s|
  {
    if s == [] then [] else Insert(s[|s| - 1], InsertionSort(s[..|s| - 1], cmp), cmp)
  }

  /** The elements of `s` the comparator cannot tell from `y`, in order. */
  function Ties<T>(s: seq<T>, y: T, cmp: (T, T) -> int): seq<T> {
    if s == [] then []
    else Ties(s[..|s| - 1], y, cmp) + (if cmp(y, s[|s| - 1]) == 0 then [s[|s| - 1]] else [])
  }

  // ---------------------------------------------------------------------
  // The array method

  /** Insertion sort in place. */
  method SortStable<T>(a: array<T>, cmp: (T, T) -> int)
    modifies a
    ensures a[..] == InsertionSort(old(a[..]), cmp)
  {
    ghost var input := a[..];
    var i := 0;
    while i < a.Length
      invariant 0 <= i <= a.Length
      invariant a[..] == InsertionSort(input[..i], cmp) + input[i..]
    {
      Split(a[..], InsertionSort(input[..i], cmp), input[i..]);
      InsertLast(a, i, cmp);
      SortStep(input, i, cmp);
      i := i + 1;
    }
    assert input[..a.Length] == input;
  }

  lemma Split<T>(s: seq<T>, p: seq<T>, q: seq<T>)
    requires s == p + q && q != []
    ensures s[..|p|] == p && s[|p|] == q[0] && s[|p| + 1..] == q[1..]
  {
  }

  lemma SortStep<T>(s: seq<T>, i: nat, cmp: (T, T) -> int)
    requires i < |s|
    ensures InsertionSort(s[..i + 1], cmp) == Insert(s[i], InsertionSort(s[..i], cmp), cmp)
    ensures s[i..][1..] == s[i + 1..]
  {
    assert s[..i + 1][..i] == s[..i];
  }

  /** One pass of the outer loop: shift the larger elements of the sorted
      prefix `a[..i]` one place right and drop `a[i]` into the gap. */
  method InsertLast<T>(a: array<T>, i: nat, cmp: (T, T) -> int)
    requires i < a.Length
    modifies a
    ensures a[..] == Insert(old(a[i]), old(a[..i]), cmp) + old(a[i + 1..])
  {
    var key := a[i];
    ghost var before := a[..i];
    ghost var tail := a[i + 1..];
    assert a[..] == before + [key] + tail;
    var j := i;
    while j > 0 && cmp(a[j - 1], key) > 0
      invariant 0 <= j <= i
      invariant Gap(a[..], before, j, tail)
      invariant forall k | j <= k < i :: cmp(before[k], key) > 0
    {
      ghost var s := a[..];
      assert s[..j][j - 1] == before[..j][j - 1];
      a[j] := a[j - 1];
      assert a[..] == s[j := s[j - 1]];
      ShiftStep(s, before, j, tail);
      j := j - 1;
    }
    ghost var s := a[..];
    a[j] := key;
    assert a[..] == s[j := key];
    Fill(s, before, j, tail, key);
    InsertAt(key, before, j, cmp);
  }

  /** The array holds `before` with a gap at `j`, then `tail`. */
  ghost predicate Gap<T>(s: seq<T>, before: seq<T>, j: nat, tail: seq<T>) {
    j <= |before| && |s| == |before| + 1 + |tail| && s[..j] == before[..j] && s[j + 1..] == before[j..] + tail
  }

  lemma ShiftStep<T>(s: seq<T>, before: seq<T>, j: nat, tail: seq<T>)
    requires 0 < j && Gap(s, before, j, tail)
    ensures Gap(s[j := s[j - 1]], before, j - 1, tail)
  {
    var t := s[j := s[j - 1]];
    assert t[..j - 1] == s[..j][..j - 1];
    assert t[j..] == [s[j - 1]] + s[j + 1..];
  }

  lemma Fill<T>(s: seq<T>, before: seq<T>, j: nat, tail: seq<T>, key: T)
    requires Gap(s, before, j, tail)
    ensures s[j := key] == before[..j] + [key] + before[j..] + tail
  {
    var t := s[j := key];
    assert t == t[..j] + [key] + t[j + 1..];
  }

  /** Where the inner loop stops is where Insert puts the element. */
  lemma {:induction false} InsertAt<T>(x: T, s: seq<T>, j: nat, cmp: (T, T) -> int)
    requires j <= |s| && (j == 0 || cmp(s[j - 1], x) <= 0)
    requires forall k | j <= k < |s| :: cmp(s[k], x) > 0
    ensures Insert(x, s, cmp) == s[..j] + [x] + s[j..]
    decreases |s|
  {
    if j == |s| {
      assert s[..j] == s && s[j..] == [];
    } else {
      var init := s[..|s| - 1];
      assert init[..j] == s[..j];
      if j > 0 {
        assert init[j - 1] == s[j - 1];
      }
      InsertAt(x, init, j, cmp);
      assert init[j..] + [s[|s| - 1]] == s[j..];
    }
  }

  // ---------------------------------------------------------------------
  // Properties of the specification

  lemma {:induction false} InsertPermutation<T>(x: T, s: seq<T>, cmp: (T, T) -> int)
    ensures multiset(Insert(x, s, cmp)) == multiset(s) + multiset{x}
    decreases |s|
  {
    if s != [] && cmp(s[|s| - 1], x) > 0 {
      InsertPermutation(x, s[..|s| - 1], cmp);
      assert s == s[..|s| - 1] + [s[|s| - 1]];
    }
  }

  /** The sort is a permutation of its input. */
  lemma {:induction false} SortPermutation<T>(s: seq<T>, cmp: (T, T) -> int)
    ensures multiset(InsertionSort(s, cmp)) == multiset(s)
    decreases |s|
  {
    if s != [] {
      SortPermutation(s[..|s| - 1], cmp);
      InsertPermutation(s[|s| - 1], InsertionSort(s[..|s| - 1], cmp), cmp);
      assert s == s[..|s| - 1] + [s[|s| - 1]];
    }
  }

  lemma {:induction false} InsertSorted<T(!new)>(x: T, s: seq<T>, cmp: (T, T) -> int)
    requires Preorder(cmp) && Sorted(s, cmp)
    ensures Sorted(Insert(x, s, cmp), cmp)
    decreases |s|
  {
    if s != [] && cmp(s[|s| - 1], x) > 0 {
      var init := s[..|s| - 1];
      var last := s[|s| - 1];
      InsertSorted(x, init, cmp);
      var r := Insert(x, init, cmp);
      InsertMembers(x, init, cmp);
      forall i | 0 <= i < |r| ensures cmp(r[i], last) <= 0 {
        if r[i] == x {
          Anti(cmp, last, x);
        } else {
          var k :| 0 <= k < |init| && r[i] == init[k];
          assert s[k] == init[k];
        }
      }
    } else if s != [] {
      var r := Insert(x, s, cmp);
      forall i, j | 0 <= i < j < |r| ensures cmp(r[i], r[j]) <= 0 {
        assert r[i] == s[i];
        if j < |s| {
          assert r[j] == s[j];
        } else {
          Trans(cmp, s[i], s[|s| - 1], x);
        }
      }
    }
  }

  /** What Insert holds: the inserted element and the elements of `s`. */
  lemma {:induction false} InsertMembers<T>(x: T, s: seq<T>, cmp: (T, T) -> int)
    ensures forall i | 0 <= i < |Insert(x, s, cmp)| ::
      Insert(x, s, cmp)[i] == x || exists k | 0 <= k < |s| :: Insert(x, s, cmp)[i] == s[k]
    decreases |s|
  {
    if s != [] && cmp(s[|s| - 1], x) > 0 {
      var init := s[..|s| - 1];
      InsertMembers(x, init, cmp);
      var r := Insert(x, s, cmp);
      forall i | 0 <= i < |r| ensures r[i] == x || exists k | 0 <= k < |s| :: r[i] == s[k] {
        if i == |r| - 1 {
          assert r[i] == s[|s| - 1];
        } else {
          assert r[i] == Insert(x, init, cmp)[i];
          if r[i] != x {
            var k :| 0 <= k < |init| && r[i] == init[k];
            assert s[k] == init[k];
          }
        }
      }
    } else {
      var r := Insert(x, s, cmp);
      forall i | 0 <= i < |r| ensures r[i] == x || exists k | 0 <= k < |s| :: r[i] == s[k] {
        if i < |s| {
          assert r[i] == s[i];
        }
      }
    }
  }

  /** Under a total preorder the sort puts its output in order. */
  lemma {:induction false} SortSorted<T(!new)>(s: seq<T>, cmp: (T, T) -> int)
    requires Preorder(cmp)
    ensures Sorted(InsertionSort(s, cmp), cmp)
    decreases |s|
  {
    if s != [] {
      SortSorted(s[..|s| - 1], cmp);
      InsertSorted(s[|s| - 1], InsertionSort(s[..|s| - 1], cmp), cmp);
    }
  }

  lemma {:induction false} TiesAppend<T>(a: seq<T>, b: seq<T>, y: T, cmp: (T, T) -> int)
    ensures Ties(a + b, y, cmp) == Ties(a, y, cmp) + Ties(b, y, cmp)
    decreases |b|
  {
    if b == [] {
      assert a + b == a;
    } else {
      assert (a + b)[..|a + b| - 1] == a + b[..|b| - 1];
      TiesAppend(a, b[..|b| - 1], y, cmp);
    }
  }

  /** No element after `x`'s place is a tie of anything tied with `x`. */
  lemma {:induction false} NoTiesAfter<T(!new)>(s: seq<T>, x: T, y: T, cmp: (T, T) -> int)
    requires Preorder(cmp)
    requires forall k | 0 <= k < |s| :: cmp(s[k], x) > 0
    requires cmp(y, x) == 0
    ensures Ties(s, y, cmp) == []
    decreases |s|
  {
    if s != [] {
      NoTiesAfter(s[..|s| - 1], x, y, cmp);
      var last := s[|s| - 1];
      Anti(cmp, y, last);
      Trans(cmp, last, y, x);
    }
  }

  /** An element dropped between `left` and `right` joins the ties of `y`
      when it is tied with `y` and no tie of `y` follows it. */
  lemma TiesInsertTied<T>(left: seq<T>, x: T, right: seq<T>, y: T, cmp: (T, T) -> int)
    requires cmp(y, x) == 0 && Ties(right, y, cmp) == []
    ensures Ties(left + [x] + right, y, cmp) == Ties(left + right, y, cmp) + [x]
  {
    TiesAppend(left + [x], right, y, cmp);
    TiesAppend(left, right, y, cmp);
    assert (left + [x])[..|left + [x]| - 1] == left;
    assert Ties(left + [x], y, cmp) == Ties(left, y, cmp) + [x];
  }

  /** An element not tied with `y` leaves the ties of `y` as they were. */
  lemma TiesInsertUntied<T>(left: seq<T>, x: T, right: seq<T>, y: T, cmp: (T, T) -> int)
    requires cmp(y, x) != 0
    ensures Ties(left + [x] + right, y, cmp) == Ties(left + right, y, cmp)
  {
    TiesAppend(left + [x], right, y, cmp);
    TiesAppend(left, right, y, cmp);
    assert (left + [x])[..|left + [x]| - 1] == left;
    assert Ties(left + [x], y, cmp) == Ties(left, y, cmp) + [];
  }

  /** In a sorted sequence, the place where `x` goes. */
  lemma InsertPoint<T>(x: T, s: seq<T>, cmp: (T, T) -> int) returns (j: nat)
    ensures j <= |s| && (j == 0 || cmp(s[j - 1], x) <= 0)
    ensures forall k | j <= k < |s| :: cmp(s[k], x) > 0
  {
    j := |s|;
    while j > 0 && cmp(s[j - 1], x) > 0
      invariant 0 <= j <= |s|
      invariant forall k | j <= k < |s| :: cmp(s[k], x) > 0
    {
      j := j - 1;
    }
  }

  /** Stability: for every element, the elements tied with it appear in the
      output in the order they had in the input. */
  lemma {:induction false} SortStableTies<T(!new)>(s: seq<T>, y: T, cmp: (T, T) -> int)
    requires Preorder(cmp)
    ensures Ties(InsertionSort(s, cmp), y, cmp) == Ties(s, y, cmp)
    decreases |s|
  {
    if s != [] {
      var init := s[..|s| - 1];
      SortStableTies(init, y, cmp);
      var x, sorted := s[|s| - 1], InsertionSort(init, cmp);
      var j := InsertPoint(x, sorted, cmp);
      InsertAt(x, sorted, j, cmp);
      var left, right := sorted[..j], sorted[j..];
      assert left + right == sorted;
      if cmp(y, x) == 0 {
        NoTiesAfter(right, x, y, cmp);
        TiesInsertTied(left, x, right, y, cmp);
      } else {
        TiesInsertUntied(left, x, right, y, cmp);
      }
    }
  }

  /** Elements that all compare equal come out in input order. */
  lemma {:induction false} AllTiedKeepOrder<T>(s: seq<T>, cmp: (T, T) -> int)
    requires forall i, j | 0 <= i < |s| && 0 <= j < |s| :: cmp(s[i], s[j]) == 0
    ensures InsertionSort(s, cmp) == s
    decreases |s|
  {
    if s != [] {
      var init, x := s[..|s| - 1], s[|s| - 1];
      AllTiedKeepOrder(init, cmp) by {
        forall i, j | 0 <= i < |init| && 0 <= j < |init|
          ensures cmp(init[i], init[j]) == 0
        {
          assert init[i] == s[i] && init[j] == s[j];
        }
      }
      assert InsertionSort(s, cmp) == Insert(x, init, cmp);
      if init != [] {
        assert cmp(init[|init| - 1], x) == 0 by {
          assert init[|init| - 1] == s[|s| - 2];
        }
      }
      assert init + [x] == s;
    }
  }

  /** The negated comparator of a total preorder is one. */
  lemma NegatePreorder<T(!new)>(cmp: (T, T) -> int)
    requires Preorder(cmp)
    ensures Preorder(Negate(cmp))
  {
    forall x, y ensures Opposite(Negate(cmp), x, y) {
      Anti(cmp, x, y);
    }
    forall x, y, z ensures NotAfter(Negate(cmp), x, y) && NotAfter(Negate(cmp), y, z) ==> NotAfter(Negate(cmp), x, z) {
      Anti(cmp, x, y);
      Anti(cmp, y, z);
      Anti(cmp, x, z);
      Trans(cmp, z, y, x);
    }
  }

  /** Sorting with the negated comparator is not reversing the sort: two
      distinct elements that compare equal keep their input order both ways. */
  lemma ReverseKeepsTies<T>(x: T, y: T, cmp: (T, T) -> int)
    requires cmp(x, y) == 0 && cmp(y, x) == 0
    ensures InsertionSort([x, y], cmp) == [x, y]
    ensures InsertionSort([x, y], Negate(cmp)) == [x, y]
  {
    assert [x, y][..1] == [x];
    assert [x][..0] == [];
  }
}
