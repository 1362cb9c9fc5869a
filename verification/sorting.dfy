/**
 * Ordering of execution lists by an integer key (StartedAt ascending for the DAG
 * timeline, StartedAt descending for incidents, ...). Go's sort.Slice is not
 * stable; the model fixes one order among equal keys: the stable insertion order.
 */
module Sorting {

  /** Non-decreasing by `key`. */
  predicate SortedBy<T>(xs: seq<T>, key: T -> int)
  {
    forall i, j :: 0 <= i < j < |xs| ==> key(xs[i]) <= key(xs[j])
  }

  lemma SortedSnoc<T>(xs: seq<T>, y: T, key: T -> int)
    requires SortedBy(xs, key)
    requires forall i :: 0 <= i < |xs| ==> key(xs[i]) <= key(y)
    ensures SortedBy(xs + [y], key)
  {
    var r := xs + [y];
    forall i, j | 0 <= i < j < |r|
      ensures key(r[i]) <= key(r[j])
    {
      assert r[i] == xs[i];
      if j < |xs| { assert r[j] == xs[j]; }
    }
  }

  /** Insert `x` after every element whose key is not larger. */
  function InsertBy<T(==)>(sorted: seq<T>, x: T, key: T -> int): (r: seq<T>)
    requires SortedBy(sorted, key)
    ensures SortedBy(r, key)
    ensures multiset(r) == multiset(sorted) + multiset{x}
    ensures |r| == |sorted| + 1
    decreases |sorted|
  {
    if sorted == [] then [x]
    else if key(sorted[|sorted| - 1]) <= key(x) then
      SortedSnoc(sorted, x, key);
      sorted + [x]
    else
      var front := InsertBy(sorted[..|sorted| - 1], x, key);
      PutBackLast(sorted, x, key, front);
      front + [sorted[|sorted| - 1]]
  }

  /** Re-appending the largest element after inserting `x` below it keeps the order. */
  lemma PutBackLast<T>(sorted: seq<T>, x: T, key: T -> int, front: seq<T>)
    requires sorted != [] && SortedBy(sorted, key)
    requires SortedBy(front, key) && multiset(front) == multiset(sorted[..|sorted| - 1]) + multiset{x}
    requires key(x) < key(sorted[|sorted| - 1])
    ensures SortedBy(front + [sorted[|sorted| - 1]], key)
    ensures multiset(front + [sorted[|sorted| - 1]]) == multiset(sorted) + multiset{x}
  {
    var init := sorted[..|sorted| - 1];
    var last := sorted[|sorted| - 1];
    assert sorted == init + [last];
    assert forall i :: 0 <= i < |front| ==> front[i] in multiset(init) + multiset{x};
    assert forall i :: 0 <= i < |init| ==> key(init[i]) <= key(last);
    SortedSnoc(front, last, key);
  }

  /** Insertion sort, inserting the elements front to back. */
  function SortBy<T(==)>(xs: seq<T>, key: T -> int): (r: seq<T>)
    ensures SortedBy(r, key)
    ensures multiset(r) == multiset(xs)
    ensures |r| == |xs|
  {
    if xs == [] then []
    else
      var init := xs[..|xs| - 1];
      assert xs == init + [xs[|xs| - 1]];
      InsertBy(SortBy(init, key), xs[|xs| - 1], key)
  }

  /**
   * The sort as the handlers run it: one pass inserting each element into the
   * already-sorted prefix. The result is a sorted permutation of the input.
   */
  method SortExecutions<T(==)>(xs: seq<T>, key: T -> int) returns (r: seq<T>)
    ensures r == SortBy(xs, key)
    ensures SortedBy(r, key) && multiset(r) == multiset(xs)
  {
    r := [];
    var i := 0;
    while i < |xs|
      invariant 0 <= i <= |xs|
      invariant r == SortBy(xs[..i], key)
    {
      assert xs[..i + 1][..i] == xs[..i];
      r := InsertBy(r, xs[i], key);
      i := i + 1;
    }
    assert xs[..i] == xs;
  }

  /**
   * Cutting a sorted sequence after `n` elements keeps the `n` smallest keys:
   * an element that was cut has a key no smaller than any element kept.
   */
  lemma KeptBeforeCut<T>(s: seq<T>, key: T -> int, n: nat, x: T)
    requires SortedBy(s, key) && x in s && n <= |s|
    ensures x in s[..n] || forall k :: 0 <= k < n ==> key(s[k]) <= key(x)
  {
    var j :| 0 <= j < |s| && s[j] == x;
    if j < n {
      assert s[..n][j] == x;
    }
  }

  /** A property every element has survives reordering. */
  lemma PermutationKeepsAll<T>(xs: seq<T>, ys: seq<T>, p: T -> bool)
    requires multiset(xs) == multiset(ys)
    requires forall k :: 0 <= k < |xs| ==> p(xs[k])
    ensures forall k :: 0 <= k < |ys| ==> p(ys[k])
  {
    forall k | 0 <= k < |ys|
      ensures p(ys[k])
    {
      assert ys[k] in multiset(xs);
    }
  }

  /** No two elements share a key. */
  predicate UniqueKeys<T>(xs: seq<T>, key: T -> string)
  {
    forall i, j :: 0 <= i < j < |xs| ==> key(xs[i]) != key(xs[j])
  }

  /** An element occurs at most once in a sequence whose keys are unique. */
  lemma {:induction false} AtMostOneCopy<T>(xs: seq<T>, x: T, key: T -> string)
    requires UniqueKeys(xs, key)
    ensures multiset(xs)[x] <= 1
  {
    if xs != [] {
      var init := xs[..|xs| - 1];
      assert xs == init + [xs[|xs| - 1]];
      AtMostOneCopy(init, x, key);
      if x == xs[|xs| - 1] {
        forall k | 0 <= k < |init|
          ensures init[k] != x
        {
          assert xs[k] == init[k];
        }
      }
    }
  }

  lemma TwoCopies<T>(ys: seq<T>, i: nat, j: nat)
    requires i < j < |ys| && ys[i] == ys[j]
    ensures multiset(ys)[ys[i]] >= 2
  {
    assert ys == ys[..j] + [ys[j]] + ys[j + 1..];
    assert ys[i] in ys[..j];
  }

  /** Reordering a sequence with unique keys keeps them unique. */
  lemma PermutationKeepsUniqueKeys<T>(xs: seq<T>, ys: seq<T>, key: T -> string)
    requires UniqueKeys(xs, key) && multiset(xs) == multiset(ys)
    ensures UniqueKeys(ys, key)
  {
    forall i, j | 0 <= i < j < |ys|
      ensures key(ys[i]) != key(ys[j])
    {
      if key(ys[i]) == key(ys[j]) {
        assert ys[i] in multiset(xs) && ys[j] in multiset(xs);
        var a :| 0 <= a < |xs| && xs[a] == ys[i];
        var b :| 0 <= b < |xs| && xs[b] == ys[j];
        assert a == b;
        TwoCopies(ys, i, j);
        AtMostOneCopy(xs, ys[i], key);
      }
    }
  }

  // ---------------------------------------------------------------------------
  // The same insertion sort for real-valued keys
  // ---------------------------------------------------------------------------

  /** Non-decreasing by a real-valued `key` (Python float scores). */
  predicate SortedByReal<T>(xs: seq<T>, key: T -> real)
  {
    forall i, j :: 0 <= i < j < |xs| ==> key(xs[i]) <= key(xs[j])
  }

  lemma SortedSnocReal<T>(xs: seq<T>, y: T, key: T -> real)
    requires SortedByReal(xs, key)
    requires forall i :: 0 <= i < |xs| ==> key(xs[i]) <= key(y)
    ensures SortedByReal(xs + [y], key)
  {
    var r := xs + [y];
    forall i, j | 0 <= i < j < |r|
      ensures key(r[i]) <= key(r[j])
    {
      assert r[i] == xs[i];
      if j < |xs| { assert r[j] == xs[j]; }
    }
  }

  /** Insert `x` after every element whose key is not larger. */
  function InsertByReal<T(==)>(sorted: seq<T>, x: T, key: T -> real): (r: seq<T>)
    requires SortedByReal(sorted, key)
    ensures SortedByReal(r, key)
    ensures multiset(r) == multiset(sorted) + multiset{x}
    ensures |r| == |sorted| + 1
    decreases |sorted|
  {
    if sorted == [] then [x]
    else if key(sorted[|sorted| - 1]) <= key(x) then
      SortedSnocReal(sorted, x, key);
      sorted + [x]
    else
      var front := InsertByReal(sorted[..|sorted| - 1], x, key);
      PutBackLastReal(sorted, x, key, front);
      front + [sorted[|sorted| - 1]]
  }

  /** Re-appending the largest element after inserting `x` below it keeps the order. */
  lemma PutBackLastReal<T>(sorted: seq<T>, x: T, key: T -> real, front: seq<T>)
    requires sorted != [] && SortedByReal(sorted, key)
    requires SortedByReal(front, key) && multiset(front) == multiset(sorted[..|sorted| - 1]) + multiset{x}
    requires key(x) < key(sorted[|sorted| - 1])
    ensures SortedByReal(front + [sorted[|sorted| - 1]], key)
    ensures multiset(front + [sorted[|sorted| - 1]]) == multiset(sorted) + multiset{x}
  {
    var init := sorted[..|sorted| - 1];
    var last := sorted[|sorted| - 1];
    assert sorted == init + [last];
    assert forall i :: 0 <= i < |front| ==> front[i] in multiset(init) + multiset{x};
    assert forall i :: 0 <= i < |init| ==> key(init[i]) <= key(last);
    SortedSnocReal(front, last, key);
  }

  /** Insertion sort, inserting the elements front to back. */
  function SortByReal<T(==)>(xs: seq<T>, key: T -> real): (r: seq<T>)
    ensures SortedByReal(r, key)
    ensures multiset(r) == multiset(xs)
    ensures |r| == |xs|
  {
    if xs == [] then []
    else
      var init := xs[..|xs| - 1];
      assert xs == init + [xs[|xs| - 1]];
      InsertByReal(SortByReal(init, key), xs[|xs| - 1], key)
  }

  /**
   * Cutting a sorted sequence after `n` elements keeps the `n` smallest keys:
   * an element that was cut has a key no smaller than any element kept.
   */
  lemma KeptBeforeCutReal<T>(s: seq<T>, key: T -> real, n: nat, x: T)
    requires SortedByReal(s, key) && x in s && n <= |s|
    ensures x in s[..n] || forall k :: 0 <= k < n ==> key(s[k]) <= key(x)
  {
    var j :| 0 <= j < |s| && s[j] == x;
    if j < n {
      assert s[..n][j] == x;
    }
  }
}
