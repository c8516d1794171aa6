/** Sequence operations shared by the whole model: JavaScript's order-preserving
    `Array.prototype.filter`, the subsequence relation, duplicate-freedom and
    index permutations (the model of a random reordering). */
module Seqs {

  /** The elements of `s` satisfying `f`, in their original order (Array.prototype.filter). */
  function Filter<T>(s: seq<T>, f: T -> bool): (r: seq<T>)
    ensures |r| <= |s|
    ensures forall i :: 0 <= i < |r| ==> f(r[i])
  {
    if s == [] then [] else (if f(s[0]) then [s[0]] else []) + Filter(s[1..], f)
  }

  /** `a` can be obtained from `b` by deleting elements: it keeps b's order. */
  predicate IsSubsequence<T(==)>(a: seq<T>, b: seq<T>)
    decreases |b|
  {
    a == [] || (b != [] && ((a[0] == b[0] && IsSubsequence(a[1..], b[1..])) || IsSubsequence(a, b[1..])))
  }

  /** How often each value occurs in a filtered sequence: as often as in the input
      when it satisfies the predicate, never otherwise. */
  lemma {:induction false} FilterCount<T>(s: seq<T>, f: T -> bool, x: T)
    ensures multiset(Filter(s, f))[x] == if f(x) then multiset(s)[x] else 0
  {
    if s != [] {
      FilterCount(s[1..], f, x);
      assert s == [s[0]] + s[1..];
    }
  }

  /** A filter that rejects some element is strictly shorter than its input. */
  lemma {:induction false} FilterDropsOne<T>(s: seq<T>, f: T -> bool, i: nat)
    requires i < |s| && !f(s[i])
    ensures |Filter(s, f)| < |s|
  {
    if i > 0 {
      FilterDropsOne(s[1..], f, i - 1);
    }
  }

  lemma FilterMembership<T>(s: seq<T>, f: T -> bool)
    ensures forall x :: x in Filter(s, f) <==> x in s && f(x)
  {
    forall x ensures x in Filter(s, f) <==> x in s && f(x) {
      FilterCount(s, f, x);
      assert x in Filter(s, f) <==> x in multiset(Filter(s, f));
      assert x in s <==> x in multiset(s);
    }
  }

  lemma {:induction false} FilterIsSubsequence<T>(s: seq<T>, f: T -> bool)
    ensures IsSubsequence(Filter(s, f), s)
  {
    if s != [] {
      FilterIsSubsequence(s[1..], f);
      if f(s[0]) {
        assert Filter(s, f) == [s[0]] + Filter(s[1..], f);
      } else {
        assert Filter(s, f) == Filter(s[1..], f);
      }
    }
  }

  lemma {:induction false} FilterConcat<T>(a: seq<T>, b: seq<T>, f: T -> bool)
    ensures Filter(a + b, f) == Filter(a, f) + Filter(b, f)
  {
    if a != [] {
      FilterConcat(a[1..], b, f);
      assert (a + b)[0] == a[0];
      assert (a + b)[1..] == a[1..] + b;
    } else {
      assert a + b == b;
    }
  }

  /** Filtering by a predicate every element satisfies is the identity. */
  lemma {:induction false} FilterKeepsAll<T>(s: seq<T>, f: T -> bool)
    requires forall i :: 0 <= i < |s| ==> f(s[i])
    ensures Filter(s, f) == s
  {
    if s != [] {
      FilterKeepsAll(s[1..], f);
    }
  }

  /** Filtering commutes with reordering: the counts of the result depend only on the
      multiset of the input. */
  lemma FilterMultiset<T>(s: seq<T>, t: seq<T>, f: T -> bool)
    requires multiset(s) == multiset(t)
    ensures multiset(Filter(s, f)) == multiset(Filter(t, f))
  {
    forall x ensures multiset(Filter(s, f))[x] == multiset(Filter(t, f))[x] {
      FilterCount(s, f, x);
      FilterCount(t, f, x);
    }
    MultisetExtensionality(multiset(Filter(s, f)), multiset(Filter(t, f)));
  }

  lemma MultisetExtensionality<T>(a: multiset<T>, b: multiset<T>)
    requires forall x :: a[x] == b[x]
    ensures a == b
  {
  }

  ghost predicate NoDuplicates<T>(s: seq<T>) {
    forall i, j :: 0 <= i < j < |s| ==> s[i] != s[j]
  }

  /** `Map(s, g)`: JavaScript's `s.map(g)`. */
  function Map<T, U>(s: seq<T>, g: T -> U): (r: seq<U>)
    ensures |r| == |s|
    ensures forall i :: 0 <= i < |s| ==> r[i] == g(s[i])
  {
    seq(|s|, i requires 0 <= i < |s| => g(s[i]))
  }

  function Min(a: int, b: int): int { if a <= b then a else b }
  function Max(a: int, b: int): int { if a <= b then b else a }
}
