/** The stable sort `Array.prototype.sort` performs with a numeric
    comparator `(a, b) => key(a) - key(b)`: ascending by key, and elements
    with equal keys keep their relative order. */
module Sorting {

  predicate SortedBy<T>(s: seq<T>, key: T -> real) {
    forall i, j :: 0 <= i < j < |s| ==> key(s[i]) <= key(s[j])
  }

  /** An element no greater than any of a sorted sequence can go in front. */
  lemma SortedCons<T>(x: T, s: seq<T>, key: T -> real)
    requires SortedBy(s, key)
    requires forall y :: y in s ==> key(x) <= key(y)
    ensures SortedBy([x] + s, key)
  {
    var r := [x] + s;
    forall i, j | 0 <= i < j < |r| ensures key(r[i]) <= key(r[j]) {
      assert r[j] == s[j - 1];
      if i == 0 { assert s[j - 1] in s; } else { assert r[i] == s[i - 1]; }
    }
  }

  /** Inserts `x` after every element whose key is not greater than its own. */
  function Insert<T>(t: seq<T>, x: T, key: T -> real): (r: seq<T>)
    ensures multiset(r) == multiset(t) + multiset{x}
    ensures |r| == |t| + 1
    decreases |t|
  {
    if t != [] && key(x) < key(t[|t| - 1]) then
      assert t == t[..|t| - 1] + [t[|t| - 1]];
      Insert(t[..|t| - 1], x, key) + [t[|t| - 1]]
    else t + [x]
  }

  /** Insertion sort, inserting the elements from left to right. */
  function SortBy<T>(s: seq<T>, key: T -> real): (r: seq<T>)
    ensures multiset(r) == multiset(s)
    ensures |r| == |s|
  {
    if s == [] then []
    else
      assert s == s[..|s| - 1] + [s[|s| - 1]];
      Insert(SortBy(s[..|s| - 1], key), s[|s| - 1], key)
  }

  /** The elements whose key equals `k`, in order. */
  function WithKey<T>(s: seq<T>, key: T -> real, k: real): (r: seq<T>)
    ensures |r| <= |s|
  {
    if s == [] then []
    else WithKey(s[..|s| - 1], key, k) + (if key(s[|s| - 1]) == k then [s[|s| - 1]] else [])
  }

  lemma {:induction false} InsertSorted<T>(t: seq<T>, x: T, key: T -> real)
    requires SortedBy(t, key)
    ensures SortedBy(Insert(t, x, key), key)
    ensures forall i :: 0 <= i < |Insert(t, x, key)| ==> Insert(t, x, key)[i] == x || Insert(t, x, key)[i] in t
    decreases |t|
  {
    if t != [] && key(x) < key(t[|t| - 1]) {
      var t' := t[..|t| - 1];
      var last := t[|t| - 1];
      InsertSorted(t', x, key);
      var u := Insert(t', x, key);
      forall i | 0 <= i < |u| ensures key(u[i]) <= key(last) {
        if u[i] != x {
          var j :| 0 <= j < |t'| && t'[j] == u[i];
        }
      }
    }
  }

  /** The result of the sort is ordered by key. */
  lemma {:induction false} SortBySorted<T>(s: seq<T>, key: T -> real)
    ensures SortedBy(SortBy(s, key), key)
  {
    if s != [] {
      SortBySorted(s[..|s| - 1], key);
      InsertSorted(SortBy(s[..|s| - 1], key), s[|s| - 1], key);
    }
  }

  lemma {:induction false} WithKeyConcat<T>(a: seq<T>, b: seq<T>, key: T -> real, k: real)
    ensures WithKey(a + b, key, k) == WithKey(a, key, k) + WithKey(b, key, k)
    decreases |b|
  {
    if b == [] {
      assert a + b == a;
    } else {
      assert (a + b)[..|a + b| - 1] == a + b[..|b| - 1];
      WithKeyConcat(a, b[..|b| - 1], key, k);
    }
  }

  lemma WithKeySingle<T>(x: T, key: T -> real, k: real)
    ensures WithKey([x], key, k) == if key(x) == k then [x] else []
  {
    assert [x][..0] == [];
  }

  lemma {:induction false} InsertStable<T>(t: seq<T>, x: T, key: T -> real, k: real)
    ensures WithKey(Insert(t, x, key), key, k) == WithKey(t, key, k) + WithKey([x], key, k)
    decreases |t|
  {
    if t != [] && key(x) < key(t[|t| - 1]) {
      var t' := t[..|t| - 1];
      var last := t[|t| - 1];
      var u := Insert(t', x, key);
      assert Insert(t, x, key) == u + [last];
      assert t' + [last] == t;
      InsertStable(t', x, key, k);
      WithKeyConcat(u, [last], key, k);
      WithKeyConcat(t', [last], key, k);
      WithKeySingle(x, key, k);
      WithKeySingle(last, key, k);
      var a, wx, wl := WithKey(t', key, k), WithKey([x], key, k), WithKey([last], key, k);
      assert wx == [] || wl == [];
      assert (a + wx) + wl == (a + wl) + wx;
    } else {
      WithKeyConcat(t, [x], key, k);
    }
  }

  /** Stability: for every key value, the elements carrying it appear in
      the result in the same order as in the input. */
  lemma {:induction false} SortByStable<T>(s: seq<T>, key: T -> real, k: real)
    ensures WithKey(SortBy(s, key), key, k) == WithKey(s, key, k)
  {
    if s != [] {
      var s' := s[..|s| - 1];
      var last := s[|s| - 1];
      assert SortBy(s, key) == Insert(SortBy(s', key), last, key);
      assert s' + [last] == s;
      SortByStable(s', key, k);
      InsertStable(SortBy(s', key), last, key, k);
      WithKeyConcat(s', [last], key, k);
    }
  }

  /** An element is in the sorted result exactly when it is in the input. */
  lemma SortByMembers<T>(s: seq<T>, key: T -> real, x: T)
    ensures x in SortBy(s, key) <==> x in s
  {
    assert x in multiset(SortBy(s, key)) <==> x in multiset(s);
  }
}
