/** A stable sort with respect to a comparison `leq`. JavaScript's
    Array.prototype.sort has been stable since ES2019, so for a consistent comparator
    its result is the unique sequence that is sorted, a permutation of the input, and
    keeps equivalent elements in input order; this insertion sort yields exactly that. */
module Sorting {
  import opened Seqs

  ghost predicate TotalPreorder<T(!new)>(leq: (T, T) -> bool) {
    && (forall x, y :: leq(x, y) || leq(y, x))
    && (forall x, y, z :: leq(x, y) && leq(y, z) ==> leq(x, z))
  }

  ghost predicate SortedBy<T>(s: seq<T>, leq: (T, T) -> bool) {
    forall i, j :: 0 <= i < j < |s| ==> leq(s[i], s[j])
  }

  /** The elements that compare equal to e. */
  function EquivalentTo<T>(leq: (T, T) -> bool, e: T): T -> bool {
    x => leq(x, e) && leq(e, x)
  }

  /** Insert x in front of the first element it is not after. */
  function Insert<T>(x: T, s: seq<T>, leq: (T, T) -> bool): (r: seq<T>)
    ensures |r| == |s| + 1
  {
    if s == [] || leq(x, s[0]) then [x] + s else [s[0]] + Insert(x, s[1..], leq)
  }

  function Sort<T>(s: seq<T>, leq: (T, T) -> bool): (r: seq<T>)
    ensures |r| == |s|
  {
    if s == [] then [] else Insert(s[0], Sort(s[1..], leq), leq)
  }

  lemma {:induction false} InsertMultiset<T>(x: T, s: seq<T>, leq: (T, T) -> bool)
    ensures multiset(Insert(x, s, leq)) == multiset(s) + multiset{x}
  {
    if s != [] && !leq(x, s[0]) {
      InsertMultiset(x, s[1..], leq);
      assert s == [s[0]] + s[1..];
      assert multiset(Insert(x, s, leq)) == multiset([s[0]]) + multiset(Insert(x, s[1..], leq));
    }
  }

  /** Sorting only reorders. */
  lemma {:induction false} SortMultiset<T>(s: seq<T>, leq: (T, T) -> bool)
    ensures multiset(Sort(s, leq)) == multiset(s)
  {
    if s != [] {
      SortMultiset(s[1..], leq);
      InsertMultiset(s[0], Sort(s[1..], leq), leq);
      assert s == [s[0]] + s[1..];
    }
  }

  lemma {:induction false} InsertSorted<T(!new)>(x: T, s: seq<T>, leq: (T, T) -> bool)
    requires TotalPreorder(leq)
    requires SortedBy(s, leq)
    ensures SortedBy(Insert(x, s, leq), leq)
    ensures Insert(x, s, leq)[0] == x || (s != [] && Insert(x, s, leq)[0] == s[0])
  {
    if s != [] && !leq(x, s[0]) {
      InsertSorted(x, s[1..], leq);
      var t := Insert(x, s[1..], leq);
      InsertMultiset(x, s[1..], leq);
      assert leq(s[0], x);
      forall j | 0 <= j < |t| ensures leq(s[0], t[j]) {
        assert t[j] in multiset(s[1..]) + multiset{x};
        if t[j] != x {
          assert t[j] in s[1..];
        }
      }
    }
  }

  /** With a total preorder the result is sorted. */
  lemma {:induction false} SortSorted<T(!new)>(s: seq<T>, leq: (T, T) -> bool)
    requires TotalPreorder(leq)
    ensures SortedBy(Sort(s, leq), leq)
  {
    if s != [] {
      SortSorted(s[1..], leq);
      InsertSorted(s[0], Sort(s[1..], leq), leq);
    }
  }

  /** An element that x is not before is never equivalent to e together with x. */
  ghost predicate SeparatedFrom<T(!new)>(leq: (T, T) -> bool, e: T, x: T) {
    forall y :: !leq(x, y) ==> !(EquivalentTo(leq, e)(x) && EquivalentTo(leq, e)(y))
  }

  lemma TotalPreorderSeparates<T(!new)>(leq: (T, T) -> bool, e: T, x: T)
    requires TotalPreorder(leq)
    ensures SeparatedFrom(leq, e, x)
  {
  }

  lemma {:induction false} InsertStable<T(!new)>(x: T, s: seq<T>, leq: (T, T) -> bool, e: T)
    requires SeparatedFrom(leq, e, x)
    ensures Filter(Insert(x, s, leq), EquivalentTo(leq, e))
         == Filter([x], EquivalentTo(leq, e)) + Filter(s, EquivalentTo(leq, e))
  {
    var P := EquivalentTo(leq, e);
    if s == [] || leq(x, s[0]) {
      FilterConcat([x], s, P);
    } else {
      InsertStable(x, s[1..], leq, e);
      assert !(P(x) && P(s[0]));
      assert Insert(x, s, leq) == [s[0]] + Insert(x, s[1..], leq);
      FilterConcat([s[0]], Insert(x, s[1..], leq), P);
      FilterConcat([s[0]], s[1..], P);
      assert [s[0]] + s[1..] == s;
      // at most one of x and s[0] is kept, so their order does not matter
      if P(x) {
        assert Filter([s[0]], P) == [];
      } else {
        assert Filter([x], P) == [];
      }
    }
  }

  /** Stability: the elements equivalent to any e appear in the result in input order. */
  lemma {:induction false} SortStable<T(!new)>(s: seq<T>, leq: (T, T) -> bool, e: T)
    requires TotalPreorder(leq)
    ensures Filter(Sort(s, leq), EquivalentTo(leq, e)) == Filter(s, EquivalentTo(leq, e))
  {
    if s != [] {
      SortStable(s[1..], leq, e);
      TotalPreorderSeparates(leq, e, s[0]);
      InsertStable(s[0], Sort(s[1..], leq), leq, e);
      FilterConcat([s[0]], s[1..], EquivalentTo(leq, e));
      assert [s[0]] + s[1..] == s;
    }
  }

  /** Lexicographic order on strings, by character code. */
  predicate LexLeq(a: string, b: string) {
    if a == [] then true
    else if b == [] then false
    else if a[0] != b[0] then a[0] < b[0]
    else LexLeq(a[1..], b[1..])
  }

  lemma {:induction false} LexLeqTotal(a: string, b: string)
    ensures LexLeq(a, b) || LexLeq(b, a)
  {
    if a != [] && b != [] && a[0] == b[0] {
      LexLeqTotal(a[1..], b[1..]);
    }
  }

  lemma {:induction false} LexLeqTransitive(a: string, b: string, c: string)
    requires LexLeq(a, b) && LexLeq(b, c)
    ensures LexLeq(a, c)
  {
    if a != [] && b != [] && c != [] && a[0] == b[0] && b[0] == c[0] {
      LexLeqTransitive(a[1..], b[1..], c[1..]);
    }
  }
}
