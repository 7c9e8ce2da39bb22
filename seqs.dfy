/** Sequence operations the source gets from `Array.prototype`: `filter`,
    `filter(...).length` and a stable `sort` by a numeric key. */
module Seqs {

  /** No element occurs twice. */
  predicate Distinct<T(==)>(s: seq<T>) {
    forall i, j :: 0 <= i < j < |s| ==> s[i] != s[j]
  }

  /** `s.filter(p)`: the elements satisfying `p`, in their original order. */
  function Filter<T(==,!new)>(s: seq<T>, p: T -> bool): (r: seq<T>)
    ensures |r| <= |s|
    ensures forall i :: 0 <= i < |r| ==> p(r[i])
    ensures forall x :: multiset(r)[x] == if p(x) then multiset(s)[x] else 0
    ensures forall x :: x in r <==> x in s && p(x)
  {
    if s == [] then []
    else
      var rest := Filter(s[1..], p);
      assert s == [s[0]] + s[1..];
      if p(s[0]) then [s[0]] + rest else rest
  }

  lemma {:induction false} FilterConcat<T(!new)>(a: seq<T>, b: seq<T>, p: T -> bool)
    ensures Filter(a + b, p) == Filter(a, p) + Filter(b, p)
  {
    if a == [] {
      assert a + b == b;
    } else {
      assert (a + b)[1..] == a[1..] + b;
      FilterConcat(a[1..], b, p);
    }
  }

  /** Filtering a one-element sequence. */
  lemma FilterSingle<T(!new)>(x: T, p: T -> bool)
    ensures Filter([x], p) == if p(x) then [x] else []
  {
    assert [x][1..] == [];
  }

  /** Filtering commutes with permutation: it depends only on the multiset. */
  lemma FilterPermutation<T(!new)>(a: seq<T>, b: seq<T>, p: T -> bool)
    requires multiset(a) == multiset(b)
    ensures multiset(Filter(a, p)) == multiset(Filter(b, p))
    ensures |Filter(a, p)| == |Filter(b, p)|
  {
    var fa, fb := Filter(a, p), Filter(b, p);
    assert forall x :: multiset(fa)[x] == multiset(fb)[x];
    assert multiset(fa) == multiset(fb);
    assert |fa| == |multiset(fa)| == |multiset(fb)| == |fb|;
  }

  /** Filtering keeps a sequence whose every element passes. */
  lemma {:induction false} FilterKeepsAll<T(!new)>(s: seq<T>, p: T -> bool)
    requires forall i :: 0 <= i < |s| ==> p(s[i])
    ensures Filter(s, p) == s
  {
    if s != [] {
      FilterKeepsAll(s[1..], p);
      assert s == [s[0]] + s[1..];
    }
  }

  /** Filtering never creates a duplicate. */
  lemma {:induction false} FilterDistinct<T(!new)>(s: seq<T>, p: T -> bool)
    requires Distinct(s)
    ensures Distinct(Filter(s, p))
  {
    if s != [] {
      FilterDistinct(s[1..], p);
    }
  }

  /** `a` is `b` with some elements left out, the rest in their order. */
  predicate SubsequenceOf<T(==)>(a: seq<T>, b: seq<T>)
    decreases |b|
  {
    if a == [] then true
    else if b == [] then false
    else if a[0] == b[0] then SubsequenceOf(a[1..], b[1..])
    else SubsequenceOf(a, b[1..])
  }

  /** A filtered sequence is a subsequence of its input. */
  lemma {:induction false} FilterSubsequence<T(!new)>(s: seq<T>, p: T -> bool)
    ensures SubsequenceOf(Filter(s, p), s)
  {
    if s != [] {
      FilterSubsequence(s[1..], p);
    }
  }

  /** Two filters in a row are one filter by both conditions. */
  lemma {:induction false} FilterFilter<T(!new)>(s: seq<T>, p: T -> bool, q: T -> bool, both: T -> bool)
    requires forall x :: both(x) == (p(x) && q(x))
    ensures Filter(Filter(s, p), q) == Filter(s, both)
  {
    if s != [] {
      FilterFilter(s[1..], p, q, both);
      if p(s[0]) {
        assert Filter(s, p)[1..] == Filter(s[1..], p);
      }
    }
  }

  /** `s.filter(p).length`. */
  function Count<T(==,!new)>(s: seq<T>, p: T -> bool): nat {
    |Filter(s, p)|
  }

  /** Sorted ascending by `key`. */
  predicate SortedBy<T>(s: seq<T>, key: T -> int) {
    forall i, j :: 0 <= i < j < |s| ==> key(s[i]) <= key(s[j])
  }

  /** Inserts `x` before the first element of larger-or-equal key, so that
      an element coming earlier in the input stays earlier (stability). */
  function Insert<T(==,!new)>(x: T, s: seq<T>, key: T -> int): (r: seq<T>)
    requires SortedBy(s, key)
    ensures SortedBy(r, key)
    ensures forall y :: y in r <==> y == x || y in s
    ensures multiset(r) == multiset(s) + multiset{x}
  {
    if s == [] || key(x) <= key(s[0]) then [x] + s
    else
      var rest := Insert(x, s[1..], key);
      assert s == [s[0]] + s[1..];
      InsertAfterHead(x, s, rest, key);
      [s[0]] + rest
  }

  /** The head of a sorted sequence may precede whatever inserting a larger
      element into its tail gives. */
  lemma InsertAfterHead<T>(x: T, s: seq<T>, rest: seq<T>, key: T -> int)
    requires s != [] && SortedBy(s, key) && key(s[0]) < key(x)
    requires SortedBy(rest, key) && forall y :: y in rest <==> y == x || y in s[1..]
    ensures SortedBy([s[0]] + rest, key)
  {
    forall j | 0 <= j < |rest| ensures key(s[0]) <= key(rest[j]) {
      assert rest[j] in rest;
      if rest[j] != x {
        var i :| 0 <= i < |s[1..]| && s[1..][i] == rest[j];
        assert s[1..][i] == s[i + 1];
      }
    }
  }

  /** An insertion sort ascending by `key`, as `Array.prototype.sort` with
      the comparator `(a, b) => key(a) - key(b)` orders. Each head goes before
      the first element of greater or equal key, so equal keys keep their
      input order; the contract states only sorted and a permutation. */
  function SortBy<T(==,!new)>(s: seq<T>, key: T -> int): (r: seq<T>)
    ensures SortedBy(r, key)
    ensures multiset(r) == multiset(s)
    ensures |r| == |s|
  {
    if s == [] then []
    else
      assert s == [s[0]] + s[1..];
      Insert(s[0], SortBy(s[1..], key), key)
  }

  /** An element occurs at most once in a sequence without duplicates. */
  lemma {:induction false} DistinctOccursOnce<T>(s: seq<T>, x: T)
    requires Distinct(s)
    ensures multiset(s)[x] <= 1
  {
    if s != [] {
      var n := |s| - 1;
      assert s == s[..n] + [s[n]];
      assert Distinct(s[..n]);
      DistinctOccursOnce(s[..n], x);
      if s[n] == x {
        assert x !in s[..n];
      }
    }
  }

  /** A permutation of a sequence without duplicates has none either. */
  lemma DistinctPermutation<T>(a: seq<T>, b: seq<T>)
    requires Distinct(a) && multiset(a) == multiset(b)
    ensures Distinct(b)
  {
    forall i, j | 0 <= i < j < |b| ensures b[i] != b[j] {
      if b[i] == b[j] {
        assert b == b[..i] + [b[i]] + b[i + 1..j] + [b[j]] + b[j + 1..];
        assert multiset(b)[b[i]] >= 2;
        DistinctOccursOnce(a, b[i]);
        assert false;
      }
    }
  }

  /** A permutation has the same length. */
  lemma PermutationLength<T>(a: seq<T>, b: seq<T>)
    requires multiset(a) == multiset(b)
    ensures |a| == |b|
  {
    assert |a| == |multiset(a)|;
    assert |b| == |multiset(b)|;
  }
}
