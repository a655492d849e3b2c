/**
 * A stable sort by a real-valued key, the behaviour of
 * `Array.prototype.sort((a, b) => a.time - b.time)`.
 */
module Sorting {

  ghost predicate SortedBy<T>(s: seq<T>, key: T -> real)
  {
    forall i, j :: 0 <= i < j < |s| ==> key(s[i]) <= key(s[j])
  }

  /** Inserts `x` after every element whose key is at most `x`'s key. */
  function Insert<T>(x: T, s: seq<T>, key: T -> real): seq<T>
    decreases |s|
  {
    if s == [] then [x]
    else if key(s[|s| - 1]) <= key(x) then s + [x]
    else Insert(x, s[..|s| - 1], key) + [s[|s| - 1]]
  }

  /** Insertion sort: each element in turn is inserted into the sorted prefix. */
  function SortBy<T>(s: seq<T>, key: T -> real): seq<T>
    decreases |s|
  {
    if s == [] then [] else Insert(s[|s| - 1], SortBy(s[..|s| - 1], key), key)
  }

  /** The elements whose key is `k`, in order. */
  function KeyFilter<T>(s: seq<T>, key: T -> real, k: real): seq<T>
    decreases |s|
  {
    if s == [] then []
    else KeyFilter(s[..|s| - 1], key, k) + (if key(s[|s| - 1]) == k then [s[|s| - 1]] else [])
  }

  lemma {:induction false} InsertPermutation<T>(x: T, s: seq<T>, key: T -> real)
    ensures multiset(Insert(x, s, key)) == multiset(s) + multiset{x}
    ensures |Insert(x, s, key)| == |s| + 1
    decreases |s|
  {
    if s != [] && key(s[|s| - 1]) > key(x) {
      InsertPermutation(x, s[..|s| - 1], key);
      assert s == s[..|s| - 1] + [s[|s| - 1]];
    }
  }

  lemma {:induction false} InsertSorted<T>(x: T, s: seq<T>, key: T -> real)
    requires SortedBy(s, key)
    ensures SortedBy(Insert(x, s, key), key)
    decreases |s|
  {
    var r := Insert(x, s, key);
    if s == [] {
    } else if key(s[|s| - 1]) <= key(x) {
    } else {
      var init, last := s[..|s| - 1], s[|s| - 1];
      InsertSorted(x, init, key);
      InsertPermutation(x, init, key);
      var r0 := Insert(x, init, key);
      assert r == r0 + [last];
      forall i | 0 <= i < |r0| ensures key(r0[i]) <= key(last) {
        assert r0[i] in multiset(r0);
        if r0[i] != x {
          assert r0[i] in multiset(init);
          var m :| 0 <= m < |init| && init[m] == r0[i];
          assert init[m] == s[m];
        }
      }
    }
  }

  lemma {:induction false} InsertFilter<T>(x: T, s: seq<T>, key: T -> real, k: real)
    ensures KeyFilter(Insert(x, s, key), key, k)
         == KeyFilter(s, key, k) + (if key(x) == k then [x] else [])
    decreases |s|
  {
    var r := Insert(x, s, key);
    if s == [] {
      assert r == [x] && r[..0] == [];
    } else if key(s[|s| - 1]) <= key(x) {
      assert r[..|r| - 1] == s;
    } else {
      var init, last := s[..|s| - 1], s[|s| - 1];
      InsertFilter(x, init, key, k);
      var r0 := Insert(x, init, key);
      assert r == r0 + [last];
      assert r[..|r| - 1] == r0;
    }
  }

  /** The sorted sequence is ordered by key. */
  lemma {:induction false} SortBySorted<T>(s: seq<T>, key: T -> real)
    ensures SortedBy(SortBy(s, key), key)
    ensures multiset(SortBy(s, key)) == multiset(s)
    ensures |SortBy(s, key)| == |s|
    decreases |s|
  {
    if s != [] {
      SortBySorted(s[..|s| - 1], key);
      InsertSorted(s[|s| - 1], SortBy(s[..|s| - 1], key), key);
      InsertPermutation(s[|s| - 1], SortBy(s[..|s| - 1], key), key);
      assert s == s[..|s| - 1] + [s[|s| - 1]];
    }
  }

  /** Stability: elements with equal keys keep their original order. */
  lemma {:induction false} SortByStable<T>(s: seq<T>, key: T -> real, k: real)
    ensures KeyFilter(SortBy(s, key), key, k) == KeyFilter(s, key, k)
    decreases |s|
  {
    if s != [] {
      SortByStable(s[..|s| - 1], key, k);
      InsertFilter(s[|s| - 1], SortBy(s[..|s| - 1], key), key, k);
    }
  }
}
