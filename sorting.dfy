/*
 * The lexicons keep their items ordered with java.util.Collections.sort and
 * a comparator on an integer key. That sort is stable, so its result is the
 * unique stable ordering of the input by the key. This module defines that
 * ordering as a stable insertion sort and proves what the lexicons rely on:
 * the result is sorted, is a permutation of the input, leaves an already
 * sorted list alone, and keeps any per-element key distinct.
 */
module Sorting {

  /** `s` is in ascending order of `key` */
  ghost predicate Sorted<T>(s: seq<T>, key: T -> int) {
    forall i, j :: 0 <= i < j < |s| ==> key(s[i]) <= key(s[j])
  }

  /** `s` is in strictly ascending order of `key` */
  ghost predicate StrictlySorted<T>(s: seq<T>, key: T -> int) {
    forall i, j :: 0 <= i < j < |s| ==> key(s[i]) < key(s[j])
  }

  /** no two elements of `s` share a value of `key` */
  ghost predicate DistinctBy<T, K>(s: seq<T>, key: T -> K) {
    forall i, j :: 0 <= i < j < |s| ==> key(s[i]) != key(s[j])
  }

  /** `f` applied to every element, in order */
  function Map<T, U>(f: T -> U, s: seq<T>): (r: seq<U>)
    ensures |r| == |s|
  {
    if s == [] then [] else Map(f, s[..|s| - 1]) + [f(s[|s| - 1])]
  }

  /**
   * Places `x` after every element of `s` whose key is at most key(x):
   * scanning from the back, `x` passes only elements with a larger key.
   */
  function InsertSorted<T>(s: seq<T>, x: T, key: T -> int): seq<T>
  {
    if s == [] || key(s[|s| - 1]) <= key(x) then s + [x]
    else InsertSorted(s[..|s| - 1], x, key) + [s[|s| - 1]]
  }

  /** Stable sort of `s` by `key`. */
  function SortBy<T>(s: seq<T>, key: T -> int): seq<T>
  {
    if s == [] then [] else InsertSorted(SortBy(s[..|s| - 1], key), s[|s| - 1], key)
  }

  lemma {:induction false} MapIndex<T, U>(f: T -> U, s: seq<T>, i: int)
    requires 0 <= i < |s|
    ensures Map(f, s)[i] == f(s[i])
    decreases |s|
  {
    if i < |s| - 1 {
      MapIndex(f, s[..|s| - 1], i);
    }
  }

  lemma MapSnoc<T, U>(f: T -> U, s: seq<T>, x: T)
    ensures Map(f, s + [x]) == Map(f, s) + [f(x)]
  {
    assert (s + [x])[..|s + [x]| - 1] == s;
  }

  lemma MapSnocMultiset<T, U>(f: T -> U, s: seq<T>, x: T)
    ensures multiset(Map(f, s + [x])) == multiset(Map(f, s)) + multiset{f(x)}
  {
    MapSnoc(f, s, x);
  }

  lemma {:induction false} InsertSortedMap<T, U>(s: seq<T>, x: T, key: T -> int, f: T -> U)
    ensures multiset(Map(f, InsertSorted(s, x, key))) == multiset(Map(f, s)) + multiset{f(x)}
    decreases |s|
  {
    if s == [] || key(s[|s| - 1]) <= key(x) {
      MapSnoc(f, s, x);
    } else {
      var init, last := s[..|s| - 1], s[|s| - 1];
      var t := InsertSorted(init, x, key);
      assert InsertSorted(s, x, key) == t + [last];
      assert s == init + [last];
      InsertSortedMap(init, x, key, f);
      MapSnocMultiset(f, t, last);
      MapSnocMultiset(f, init, last);
    }
  }

  /** Sorting permutes the elements, so any per-element projection keeps its multiset. */
  lemma {:induction false} SortByMap<T, U>(s: seq<T>, key: T -> int, f: T -> U)
    ensures multiset(Map(f, SortBy(s, key))) == multiset(Map(f, s))
    decreases |s|
  {
    if s != [] {
      var init, last := s[..|s| - 1], s[|s| - 1];
      var t := SortBy(init, key);
      assert SortBy(s, key) == InsertSorted(t, last, key);
      SortByMap(init, key, f);
      InsertSortedMap(t, last, key, f);
      assert s == init + [last];
      MapSnocMultiset(f, init, last);
    }
  }

  lemma {:induction false} InsertSortedPermutes<T>(s: seq<T>, x: T, key: T -> int)
    ensures multiset(InsertSorted(s, x, key)) == multiset(s) + multiset{x}
    decreases |s|
  {
    if !(s == [] || key(s[|s| - 1]) <= key(x)) {
      var init := s[..|s| - 1];
      InsertSortedPermutes(init, x, key);
      assert s == init + [s[|s| - 1]];
    }
  }

  lemma {:induction false} InsertSortedKeepsOrder<T>(s: seq<T>, x: T, key: T -> int)
    requires Sorted(s, key)
    ensures Sorted(InsertSorted(s, x, key), key)
    decreases |s|
  {
    if !(s == [] || key(s[|s| - 1]) <= key(x)) {
      var init, last := s[..|s| - 1], s[|s| - 1];
      InsertSortedKeepsOrder(init, x, key);
      var t := InsertSorted(init, x, key);
      InsertSortedPermutes(init, x, key);
      forall i | 0 <= i < |t|
        ensures key(t[i]) <= key(last)
      {
        assert t[i] in multiset(t);
        assert t[i] in multiset(init) + multiset{x};
        if t[i] != x {
          assert t[i] in init;
        }
      }
    }
  }

  /** The sort returns a sorted permutation of its input. */
  lemma {:induction false} SortBySortedPermutation<T>(s: seq<T>, key: T -> int)
    ensures Sorted(SortBy(s, key), key)
    ensures multiset(SortBy(s, key)) == multiset(s)
    ensures |SortBy(s, key)| == |s|
    decreases |s|
  {
    if s != [] {
      var init, last := s[..|s| - 1], s[|s| - 1];
      SortBySortedPermutation(init, key);
      InsertSortedKeepsOrder(SortBy(init, key), last, key);
      InsertSortedPermutes(SortBy(init, key), last, key);
      assert s == init + [last];
    }
    assert |SortBy(s, key)| == |multiset(SortBy(s, key))|;
  }

  /** A list that is already in order comes back unchanged. */
  lemma {:induction false} SortedIsFixpoint<T>(s: seq<T>, key: T -> int)
    requires Sorted(s, key)
    ensures SortBy(s, key) == s
    decreases |s|
  {
    if s != [] {
      var init := s[..|s| - 1];
      SortedIsFixpoint(init, key);
      assert s == init + [s[|s| - 1]];
    }
  }

  /** Sorting twice gives the same list as sorting once. */
  lemma SortIdempotent<T>(s: seq<T>, key: T -> int)
    ensures SortBy(SortBy(s, key), key) == SortBy(s, key)
  {
    SortBySortedPermutation(s, key);
    SortedIsFixpoint(SortBy(s, key), key);
  }

  lemma {:induction false} InsertSortedDistinct<T, K>(s: seq<T>, x: T, key: T -> int, k: T -> K)
    requires DistinctBy(s, k)
    requires forall y :: y in s ==> k(y) != k(x)
    ensures DistinctBy(InsertSorted(s, x, key), k)
    decreases |s|
  {
    if !(s == [] || key(s[|s| - 1]) <= key(x)) {
      var init, last := s[..|s| - 1], s[|s| - 1];
      InsertSortedDistinct(init, x, key, k);
      var t := InsertSorted(init, x, key);
      InsertSortedPermutes(init, x, key);
      forall i | 0 <= i < |t|
        ensures k(t[i]) != k(last)
      {
        assert t[i] in multiset(init) + multiset{x};
        if t[i] != x {
          assert t[i] in init;
          var m :| 0 <= m < |init| && init[m] == t[i];
          assert s[m] == t[i] && s[|s| - 1] == last;
        }
      }
    }
  }

  /** Sorting never makes two elements share a key that were distinct before. */
  lemma {:induction false} SortByDistinct<T, K>(s: seq<T>, key: T -> int, k: T -> K)
    requires DistinctBy(s, k)
    ensures DistinctBy(SortBy(s, key), k)
    decreases |s|
  {
    if s != [] {
      var init, last := s[..|s| - 1], s[|s| - 1];
      SortByDistinct(init, key, k);
      SortBySortedPermutation(init, key);
      forall y | y in SortBy(init, key)
        ensures k(y) != k(last)
      {
        assert y in multiset(SortBy(init, key));
        assert y in init;
        var m :| 0 <= m < |init| && init[m] == y;
        assert s[m] == y;
      }
      InsertSortedDistinct(SortBy(init, key), last, key, k);
    }
  }

  /**
   * Two lists with the same members and length, both in strictly ascending key
   * order, are equal: a strictly sorted list is determined by its members.
   */
  lemma {:induction false} StrictlySortedUnique<T>(a: seq<T>, b: seq<T>, key: T -> int)
    requires StrictlySorted(a, key) && StrictlySorted(b, key)
    requires |a| == |b|
    requires forall y :: y in a <==> y in b
    ensures a == b
    decreases |a|
  {
    if a != [] {
      assert a[0] in b;
      assert b[0] in a;
      var i :| 0 <= i < |a| && a[i] == b[0];
      var j :| 0 <= j < |b| && b[j] == a[0];
      assert i == 0;
      forall y
        ensures y in a[1..] <==> y in b[1..]
      {
        if y in a[1..] {
          var m :| 1 <= m < |a| && a[m] == y;
          assert y in a;
          var n :| 0 <= n < |b| && b[n] == y;
          assert b[n] in b[1..];
        }
        if y in b[1..] {
          var n :| 1 <= n < |b| && b[n] == y;
          assert y in b;
          var m :| 0 <= m < |a| && a[m] == y;
          assert a[m] in a[1..];
        }
      }
      StrictlySortedUnique(a[1..], b[1..], key);
      assert a == [a[0]] + a[1..] && b == [b[0]] + b[1..];
    }
  }

  lemma SortedDistinctIsStrict<T>(s: seq<T>, key: T -> int)
    requires Sorted(s, key) && DistinctBy(s, key)
    ensures StrictlySorted(s, key)
  {
  }

  /** `perm` lists every position 0..n-1 exactly once (the order a shuffle leaves them in) */
  ghost predicate IsPermutation(perm: seq<nat>, n: nat) {
    && |perm| == n
    && (forall i :: 0 <= i < n ==> perm[i] < n)
    && (forall i, j :: 0 <= i < j < n ==> perm[i] != perm[j])
    && (forall k :: 0 <= k < n ==> k in perm)
  }

  /** `s` rearranged so that position i holds the element that was at perm[i] */
  function Shuffle<T>(s: seq<T>, perm: seq<nat>): (r: seq<T>)
    requires |perm| == |s| && forall i :: 0 <= i < |perm| ==> perm[i] < |s|
    ensures |r| == |s|
  {
    seq(|s|, i requires 0 <= i < |s| => s[perm[i]])
  }

  /** A shuffle neither loses nor invents elements. */
  lemma ShuffleMembers<T>(s: seq<T>, perm: seq<nat>)
    requires IsPermutation(perm, |s|)
    ensures forall y :: y in Shuffle(s, perm) <==> y in s
  {
    var r := Shuffle(s, perm);
    forall y | y in s
      ensures y in r
    {
      var k :| 0 <= k < |s| && s[k] == y;
      assert k in perm;
      var i :| 0 <= i < |perm| && perm[i] == k;
      assert r[i] == y;
    }
  }

  /** Keys that were distinct stay distinct when the elements are shuffled. */
  lemma ShuffleDistinct<T, K>(s: seq<T>, perm: seq<nat>, k: T -> K)
    requires IsPermutation(perm, |s|) && DistinctBy(s, k)
    ensures DistinctBy(Shuffle(s, perm), k)
  {
    var r := Shuffle(s, perm);
    forall i, j | 0 <= i < j < |r|
      ensures k(r[i]) != k(r[j])
    {
      if perm[i] < perm[j] {
        assert k(s[perm[i]]) != k(s[perm[j]]);
      } else {
        assert k(s[perm[j]]) != k(s[perm[i]]);
      }
    }
  }

  /**
   * Shuffling a strictly ordered list and sorting it again restores the
   * original list: with distinct keys there is only one sorted order.
   */
  lemma ResortAfterShuffle<T>(s: seq<T>, perm: seq<nat>, key: T -> int)
    requires IsPermutation(perm, |s|)
    requires Sorted(s, key) && DistinctBy(s, key)
    ensures SortBy(Shuffle(s, perm), key) == s
  {
    var p := Shuffle(s, perm);
    var t := SortBy(p, key);
    ShuffleMembers(s, perm);
    ShuffleDistinct(s, perm, key);
    SortBySortedPermutation(p, key);
    SortByDistinct(p, key, key);
    forall y
      ensures y in t <==> y in s
    {
      assert y in t <==> y in multiset(t);
      assert y in p <==> y in multiset(p);
    }
    StrictlySortedUnique(t, s, key);
  }

  // ---------------------------------------------------------------------------
  // Random draws given as data
  // ---------------------------------------------------------------------------

  /**
   * The position drawn from a list of `n` elements: the only one when there
   * is one, otherwise nextInt(n) for the draw `pick`.
   */
  function DrawIndex(n: nat, pick: nat): (k: nat)
    requires n > 0
    ensures k < n
    ensures n == 1 ==> k == 0
  {
    if n == 1 then 0 else pick % n
  }

  /** `p` with positions i and j exchanged */
  function Swap(p: seq<nat>, i: nat, j: nat): (r: seq<nat>)
    requires i < |p| && j < |p|
    ensures |r| == |p|
  {
    p[i := p[j]][j := p[i]]
  }

  /** Exchanging two positions of a permutation gives a permutation. */
  lemma SwapKeepsPermutation(p: seq<nat>, n: nat, i: nat, j: nat)
    requires IsPermutation(p, n) && i < n && j < n
    ensures IsPermutation(Swap(p, i, j), n)
  {
    var r := Swap(p, i, j);
    forall k | 0 <= k < n
      ensures k in r
    {
      assert k in p;
      var m :| 0 <= m < |p| && p[m] == k;
      if m == i {
        assert r[j] == k;
      } else if m == j {
        assert r[i] == k;
      } else {
        assert r[m] == k;
      }
    }
  }

  /**
   * A permutation of 0..n-1 drawn by swaps, the way a list shuffle draws it:
   * for i from n down to 2, position i-1 is exchanged with position
   * `draws[k] % i`. Draws beyond the given ones read as 0.
   */
  method DrawPermutation(n: nat, draws: seq<nat>) returns (perm: seq<nat>)
    ensures IsPermutation(perm, n)
  {
    perm := seq(n, i => i);
    forall k | 0 <= k < n
      ensures k in perm
    {
      assert perm[k] == k;
    }
    var i := n;
    var k := 0;
    while i > 1
      invariant 0 <= i <= n || (n == 0 && i == 0)
      invariant IsPermutation(perm, n)
    {
      var d := if k < |draws| then draws[k] else 0;
      SwapKeepsPermutation(perm, n, i - 1, d % i);
      perm := Swap(perm, i - 1, d % i);
      i := i - 1;
      k := k + 1;
    }
  }
}
