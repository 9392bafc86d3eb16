/** `Array.prototype.filter` and counting, on sequences. */
module Seqs {
  /** `s.filter(p)`: the elements satisfying `p`, in their order. */
  function Filter<T(!new)>(s: seq<T>, p: T -> bool): (r: seq<T>)
    ensures |r| <= |s|
    ensures forall x :: x in r <==> x in s && p(x)
    ensures forall i :: 0 <= i < |r| ==> p(r[i])
  {
    if s == [] then []
    else
      var rest := Filter(s[1..], p);
      assert forall x :: x in s <==> x == s[0] || x in s[1..];
      if p(s[0]) then [s[0]] + rest else rest
  }

  /** `s.filter(p).length`. */
  function Count<T(!new)>(s: seq<T>, p: T -> bool): (n: nat)
    ensures n <= |s|
    ensures n == |Filter(s, p)|
    ensures n == 0 <==> forall x :: x in s ==> !p(x)
  {
    var r := Filter(s, p);
    assert |r| > 0 ==> r[0] in r;
    |r|
  }

  /** Filtering with a condition every element meets changes nothing. */
  lemma {:induction false} FilterAll<T(!new)>(s: seq<T>, p: T -> bool)
    requires forall x :: x in s ==> p(x)
    ensures Filter(s, p) == s
  {
    if s != [] {
      assert forall x :: x in s[1..] ==> x in s;
      FilterAll(s[1..], p);
    }
  }

  /** A filter keeps the order: filtering a concatenation filters each
      part. */
  lemma {:induction false} FilterConcat<T(!new)>(a: seq<T>, b: seq<T>, p: T -> bool)
    ensures Filter(a + b, p) == Filter(a, p) + Filter(b, p)
  {
    if a != [] {
      assert (a + b)[1..] == a[1..] + b;
      FilterConcat(a[1..], b, p);
    } else {
      assert a + b == b;
    }
  }

  /** Filtering with two conditions that agree on every element gives the
      same result. */
  lemma {:induction false} FilterSame<T(!new)>(s: seq<T>, p: T -> bool, q: T -> bool)
    requires forall x :: x in s ==> p(x) == q(x)
    ensures Filter(s, p) == Filter(s, q)
  {
    if s != [] {
      assert forall x :: x in s[1..] ==> x in s;
      FilterSame(s[1..], p, q);
    }
  }

  /** Filtering what an earlier, weaker filter kept is filtering once. */
  lemma {:induction false} FilterFilter<T(!new)>(s: seq<T>, p: T -> bool, q: T -> bool)
    requires forall x :: x in s && q(x) ==> p(x)
    ensures Filter(Filter(s, p), q) == Filter(s, q)
  {
    if s != [] {
      assert forall x :: x in s[1..] ==> x in s;
      FilterFilter(s[1..], p, q);
    }
  }

  /** A part whose elements all fail the condition adds nothing. */
  lemma FilterNone<T(!new)>(a: seq<T>, b: seq<T>, p: T -> bool)
    requires forall x :: x in a ==> !p(x)
    ensures Filter(a + b, p) == Filter(b, p) && Filter(b + a, p) == Filter(b, p)
  {
    FilterConcat(a, b, p);
    FilterConcat(b, a, p);
    FilterEmpty(a, p);
  }

  /** Nothing passes a condition no element meets. */
  lemma {:induction false} FilterEmpty<T(!new)>(s: seq<T>, p: T -> bool)
    requires forall x :: x in s ==> !p(x)
    ensures Filter(s, p) == []
  {
    if s != [] {
      assert forall x :: x in s[1..] ==> x in s;
      FilterEmpty(s[1..], p);
    }
  }

  /** Leaving out a prefix none of whose elements passes changes nothing. */
  lemma {:induction false} FilterSkip<T(!new)>(s: seq<T>, k: nat, p: T -> bool)
    requires k <= |s| && forall i :: 0 <= i < k ==> !p(s[i])
    ensures Filter(s[k..], p) == Filter(s, p)
  {
    if k > 0 {
      assert s[1..][k - 1..] == s[k..];
      FilterSkip(s[1..], k - 1, p);
    }
  }

  /** Leaving out a suffix none of whose elements passes changes nothing. */
  lemma {:induction false} FilterCut<T(!new)>(s: seq<T>, k: nat, p: T -> bool)
    requires k <= |s| && forall i :: k <= i < |s| ==> !p(s[i])
    ensures Filter(s[..k], p) == Filter(s, p)
    decreases |s|
  {
    if s != [] {
      if k == 0 {
        FilterCut(s[1..], 0, p);
        assert s[1..][..0] == s[..0];
      } else {
        assert s[..k][1..] == s[1..][..k - 1];
        FilterCut(s[1..], k - 1, p);
      }
    }
  }

  /** No element occurs twice. */
  predicate NoDups<T(==)>(s: seq<T>) {
    forall i, j :: 0 <= i < j < |s| ==> s[i] != s[j]
  }

  /** The first occurrence of every element of `s`, in the order of those
      occurrences (`new Map()` filled in order and read back by `values()`,
      or `[...new Set(s)]`). */
  function Dedup<T(==,!new)>(s: seq<T>): (r: seq<T>)
    ensures forall x :: x in r <==> x in s
    ensures NoDups(r)
    ensures |r| <= |s|
  {
    if s == [] then []
    else
      var p := s[..|s| - 1];
      var d := Dedup(p);
      assert forall x :: x in s <==> x in p || x == s[|s| - 1];
      if s[|s| - 1] in d then d else d + [s[|s| - 1]]
  }

  /** Appending an element adds it to the distinct elements unless it is
      already among them. */
  lemma DedupSnoc<T(!new)>(s: seq<T>, x: T)
    ensures Dedup(s + [x]) == if x in Dedup(s) then Dedup(s) else Dedup(s) + [x]
  {
    assert (s + [x])[..|s|] == s;
  }

  /** `s.indexOf(x)` for an element of `s`. */
  function FirstIndex<T(==)>(s: seq<T>, x: T): (i: nat)
    requires x in s
    ensures i < |s| && s[i] == x && forall j :: 0 <= j < i ==> s[j] != x
  {
    if s[0] == x then 0 else 1 + FirstIndex(s[1..], x)
  }

  lemma FirstIndexPrefix<T>(p: seq<T>, y: T, x: T)
    requires x in p
    ensures FirstIndex(p + [y], x) == FirstIndex(p, x)
  {
    var s := p + [y];
    var k, m := FirstIndex(s, x), FirstIndex(p, x);
    assert s[m] == x;
  }

  /** `Dedup` keeps the order of first occurrences. */
  lemma {:induction false} DedupOrder<T(!new)>(s: seq<T>, i: int, j: int)
    requires 0 <= i < j < |Dedup(s)|
    ensures FirstIndex(s, Dedup(s)[i]) < FirstIndex(s, Dedup(s)[j])
  {
    var p := s[..|s| - 1];
    var y := s[|s| - 1];
    var d := Dedup(p);
    assert s == p + [y];
    var r := Dedup(s);
    assert r[i] in r && r[j] in r;
    if y in d {
      assert r == d;
      DedupOrder(p, i, j);
      FirstIndexPrefix(p, y, d[i]);
      FirstIndexPrefix(p, y, d[j]);
    } else if j < |d| {
      assert r[i] == d[i] && r[j] == d[j];
      DedupOrder(p, i, j);
      FirstIndexPrefix(p, y, d[i]);
      FirstIndexPrefix(p, y, d[j]);
    } else {
      assert r[j] == y && r[i] == d[i];
      assert d[i] in d;
      FirstIndexPrefix(p, y, d[i]);
      assert FirstIndex(s, y) == |p| by {
        assert y !in p;
      }
    }
  }
}
