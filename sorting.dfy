/** Stable sorting by a numeric key, as `Array.prototype.sort` does with a
    comparator that subtracts the second key from the first: ascending by key, elements with
    equal keys kept in their original relative order. */
module Sorting {

  import Seqs

  ghost predicate SortedBy<T>(s: seq<T>, key: T -> real)
  {
    forall i, j :: 0 <= i < j < |s| ==> key(s[i]) <= key(s[j])
  }

  /** Places `x` into `s` after every element whose key is not greater than
      its own (so an equal key keeps `x` behind it). */
  function Insert<T>(s: seq<T>, x: T, key: T -> real): (r: seq<T>)
    ensures |r| == |s| + 1
  {
    if s != [] && key(x) < key(s[|s| - 1]) then
      Insert(s[..|s| - 1], x, key) + [s[|s| - 1]]
    else
      s + [x]
  }

  /** Insertion adds exactly `x`. */
  lemma {:induction false} InsertPermutes<T>(s: seq<T>, x: T, key: T -> real)
    ensures multiset(Insert(s, x, key)) == multiset(s) + multiset{x}
  {
    if s != [] && key(x) < key(s[|s| - 1]) {
      InsertPermutes(s[..|s| - 1], x, key);
      assert s == s[..|s| - 1] + [s[|s| - 1]];
    }
  }

  /** Insertion into a sorted sequence keeps it sorted. */
  lemma {:induction false} InsertKeepsSorted<T>(s: seq<T>, x: T, key: T -> real)
    requires SortedBy(s, key)
    ensures SortedBy(Insert(s, x, key), key)
  {
    if s != [] && key(x) < key(s[|s| - 1]) {
      var init, last := s[..|s| - 1], s[|s| - 1];
      InsertKeepsSorted(init, x, key);
      InsertPermutes(init, x, key);
      var r := Insert(init, x, key);
      forall k | 0 <= k < |r| ensures key(r[k]) <= key(last) {
        assert r[k] in multiset(init) + multiset{x};
        if r[k] != x {
          var m :| 0 <= m < |init| && init[m] == r[k];
        }
      }
    }
  }

  /** Insertion sort: the functional description of the in-place sort. */
  function SortBy<T>(s: seq<T>, key: T -> real): (r: seq<T>)
    ensures |r| == |s|
  {
    if s == [] then [] else Insert(SortBy(s[..|s| - 1], key), s[|s| - 1], key)
  }

  /** Sorting only rearranges: the result is a permutation of the input. */
  lemma {:induction false} SortByPermutes<T>(s: seq<T>, key: T -> real)
    ensures multiset(SortBy(s, key)) == multiset(s)
  {
    if s != [] {
      var init, last := s[..|s| - 1], s[|s| - 1];
      SortByPermutes(init, key);
      InsertPermutes(SortBy(init, key), last, key);
      assert s == init + [last];
    }
  }

  /** The result is in ascending key order. */
  lemma {:induction false} SortBySorted<T>(s: seq<T>, key: T -> real)
    ensures SortedBy(SortBy(s, key), key)
  {
    if s != [] {
      SortBySorted(s[..|s| - 1], key);
      InsertKeepsSorted(SortBy(s[..|s| - 1], key), s[|s| - 1], key);
    }
  }

  /** The elements of `s` whose key is `k`, in their order in `s`. */
  function WithKey<T>(s: seq<T>, key: T -> real, k: real): (r: seq<T>)
    ensures forall i :: 0 <= i < |r| ==> key(r[i]) == k
  {
    Seqs.Filter(s, x => key(x) == k)
  }

  /** Insertion puts `x` behind every element of its key. */
  lemma {:induction false} InsertStable<T>(s: seq<T>, x: T, key: T -> real, k: real)
    ensures WithKey(Insert(s, x, key), key, k) == WithKey(s, key, k) + (if key(x) == k then [x] else [])
  {
    var keep := y => key(y) == k;
    if s != [] && key(x) < key(s[|s| - 1]) {
      var init, last := s[..|s| - 1], s[|s| - 1];
      InsertStable(init, x, key, k);
      Seqs.FilterAppend(Insert(init, x, key), [last], keep);
      assert Seqs.Filter([last], keep) == if keep(last) then [last] else [] by {
        assert [last][..0] == [];
      }
    } else {
      Seqs.FilterAppend(s, [x], keep);
      assert Seqs.Filter([x], keep) == if keep(x) then [x] else [] by {
        assert [x][..0] == [];
      }
    }
  }

  /** The sort is stable: the elements of any one key come out in their
      input order. */
  lemma {:induction false} SortByStable<T>(s: seq<T>, key: T -> real, k: real)
    ensures WithKey(SortBy(s, key), key, k) == WithKey(s, key, k)
  {
    if s != [] {
      var init, last := s[..|s| - 1], s[|s| - 1];
      SortByStable(init, key, k);
      InsertStable(SortBy(init, key), last, key, k);
    }
  }

  /** `x` belongs at position `j` of the sorted `s`: right after an element
      with a key not greater than its own, before elements with greater keys. */
  lemma {:induction false} InsertAt<T>(s: seq<T>, x: T, j: nat, key: T -> real)
    requires j <= |s|
    requires j > 0 ==> key(s[j - 1]) <= key(x)
    requires forall k :: j <= k < |s| ==> key(x) < key(s[k])
    ensures Insert(s, x, key) == s[..j] + [x] + s[j..]
    decreases |s|
  {
    if j < |s| {
      var init := s[..|s| - 1];
      InsertAt(init, x, j, key);
      assert init[..j] == s[..j];
      assert init[j..] + [s[|s| - 1]] == s[j..];
    } else {
      assert s[..j] == s;
    }
  }

  /** Moves `a[i]` left past the elements of `a[..i]` whose key is strictly
      greater than its own: on a sorted prefix, this is `Insert`. */
  method InsertInPlace<T>(a: array<T>, i: nat, key: T -> real)
    requires i < a.Length
    modifies a
    ensures a[..i + 1] == Insert(old(a[..i]), old(a[i]), key)
    ensures a[i + 1..] == old(a[i + 1..])
  {
    ghost var before := a[..];
    var x := a[i];
    var j := i;
    while j > 0 && key(x) < key(a[j - 1])
      invariant 0 <= j <= i
      invariant forall k :: 0 <= k < j ==> a[k] == before[k]
      invariant forall k :: j < k <= i ==> a[k] == before[k - 1]
      invariant forall k :: i < k < a.Length ==> a[k] == before[k]
      invariant forall k :: j <= k < i ==> key(x) < key(before[k])
    {
      a[j] := a[j - 1];
      j := j - 1;
    }
    a[j] := x;
    Shifted(before, a[..], i, j, key);
  }

  /** After the shifting loop: `after` is `before` with `before[i]` moved to
      position `j`, which is its place in the sorted prefix. */
  lemma Shifted<T>(before: seq<T>, after: seq<T>, i: nat, j: nat, key: T -> real)
    requires j <= i < |before| == |after|
    requires forall k :: 0 <= k < j ==> after[k] == before[k]
    requires after[j] == before[i]
    requires forall k :: j < k <= i ==> after[k] == before[k - 1]
    requires forall k :: i < k < |after| ==> after[k] == before[k]
    requires j > 0 ==> key(before[j - 1]) <= key(before[i])
    requires forall k :: j <= k < i ==> key(before[i]) < key(before[k])
    ensures after[..i + 1] == Insert(before[..i], before[i], key)
    ensures after[i + 1..] == before[i + 1..]
  {
    var sorted := before[..i];
    InsertAt(sorted, before[i], j, key);
    assert after[..i + 1] == sorted[..j] + [before[i]] + sorted[j..];
  }

  /** Sorting a longer prefix inserts its last element. */
  lemma SortBySnoc<T>(s: seq<T>, i: nat, key: T -> real)
    requires i < |s|
    ensures SortBy(s[..i + 1], key) == Insert(SortBy(s[..i], key), s[i], key)
  {
    assert s[..i + 1][..i] == s[..i];
  }

  /** Sorts `a` in place by insertion, one element at a time. */
  method SortInPlace<T>(a: array<T>, key: T -> real)
    modifies a
    ensures a[..] == SortBy(old(a[..]), key)
  {
    ghost var orig := a[..];
    var i := 0;
    assert a[..i] == SortBy(orig[..i], key) by { assert orig[..i] == []; }
    while i < a.Length
      invariant 0 <= i <= a.Length
      invariant a[..i] == SortBy(orig[..i], key)
      invariant a[i..] == orig[i..]
    {
      assert a[i] == orig[i] by { assert orig[i] == orig[i..][0]; }
      assert a[i + 1..] == orig[i + 1..] by {
        assert a[i + 1..] == a[i..][1..] && orig[i + 1..] == orig[i..][1..];
      }
      InsertInPlace(a, i, key);
      SortBySnoc(orig, i, key);
      i := i + 1;
    }
    assert a[..] == a[..a.Length];
    assert orig == orig[..a.Length];
  }
}
