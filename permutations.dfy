/** A reordering chosen at random by the application (a `sort` with a random
    comparator) is modelled as an index permutation supplied by the caller: a
    sequence that lists 0 .. n-1, each exactly once, in some order. */
module Permutations {

  /** [0, 1, ..., n-1] */
  function Iota(n: nat): (r: seq<nat>)
    ensures |r| == n
    ensures forall i :: 0 <= i < n ==> r[i] == i
  {
    if n == 0 then [] else Iota(n - 1) + [n - 1]
  }

  predicate IsPermutation(p: seq<nat>, n: nat) {
    |p| == n && multiset(p) == multiset(Iota(n))
  }

  lemma PermutationBounds(p: seq<nat>, n: nat)
    requires IsPermutation(p, n)
    ensures |p| == n
    ensures forall i :: 0 <= i < |p| ==> p[i] < n
  {
    forall i | 0 <= i < |p| ensures p[i] < n {
      assert p[i] in multiset(p);
      assert p[i] in Iota(n);
    }
  }

  /** `s` reordered by `p`: position i receives element p[i]. */
  function Permute<T>(s: seq<T>, p: seq<nat>): (r: seq<T>)
    requires IsPermutation(p, |s|)
    ensures |r| == |s|
    ensures forall i :: 0 <= i < |s| ==> p[i] < |s| && r[i] == s[p[i]]
  {
    PermutationBounds(p, |s|);
    seq(|s|, i requires 0 <= i < |s| => s[p[i]])
  }

  lemma RemoveAtMultiset<T>(s: seq<T>, k: nat)
    requires k < |s|
    ensures multiset(s[..k] + s[k + 1..]) == multiset(s) - multiset{s[k]}
  {
    assert s == s[..k] + [s[k]] + s[k + 1..];
  }

  lemma IotaMultisetStep(n: nat)
    requires 0 < n
    ensures var last: nat := n - 1; multiset(Iota(n - 1)) == multiset(Iota(n)) - multiset{last}
  {
    var last: nat := n - 1;
    assert Iota(n) == Iota(n - 1) + [last];
  }

  lemma RemoveSameElement(a: multiset<nat>, b: multiset<nat>, c: multiset<nat>, d: multiset<nat>, x: nat)
    requires a == b - multiset{x} && b == c && d == c - multiset{x}
    ensures a == d
  {
  }

  /** Deleting the entry n-1 from a permutation of n leaves a permutation of n-1. */
  lemma DropLargest(p: seq<nat>, n: nat, k: nat)
    requires IsPermutation(p, n) && 0 < n && k < |p| && p[k] == n - 1
    ensures IsPermutation(p[..k] + p[k + 1..], n - 1)
  {
    var last: nat := n - 1;
    RemoveAtMultiset(p, k);
    IotaMultisetStep(n);
    RemoveSameElement(multiset(p[..k] + p[k + 1..]), multiset(p), multiset(Iota(n)), multiset(Iota(n - 1)), last);
  }

  /** Where p sends position k to the last element, the reordering is the reordering of
      the shorter sequence with that last element spliced in at k. */
  lemma PermuteSplit<T>(s: seq<T>, p: seq<nat>, k: nat, p': seq<nat>)
    requires IsPermutation(p, |s|) && 0 < |s| && k < |p| && p[k] == |s| - 1
    requires p' == p[..k] + p[k + 1..] && IsPermutation(p', |s| - 1)
    ensures Permute(s, p) == Permute(s[..|s| - 1], p')[..k] + [s[|s| - 1]] + Permute(s[..|s| - 1], p')[k..]
  {
    var n := |s|;
    var r := Permute(s, p);
    var r' := Permute(s[..n - 1], p');
    var rhs := r'[..k] + [s[n - 1]] + r'[k..];
    assert |rhs| == n;
    forall i | 0 <= i < n ensures r[i] == rhs[i] {
      if i < k {
        assert p'[i] == p[i];
        assert rhs[i] == r'[i] == s[..n - 1][p'[i]];
      } else if i > k {
        assert p'[i - 1] == p[i];
        assert rhs[i] == r'[i - 1] == s[..n - 1][p'[i - 1]];
      }
    }
  }

  /** Some position of a permutation of n > 0 holds n-1. */
  lemma FindLargest(p: seq<nat>, n: nat) returns (k: nat)
    requires IsPermutation(p, n) && 0 < n
    ensures k < |p| && p[k] == n - 1
  {
    var last: nat := n - 1;
    assert Iota(n) == Iota(n - 1) + [last];
    assert last in multiset(Iota(n));
    assert last in p;
    k :| 0 <= k < |p| && p[k] == last;
  }

  lemma InsertAtMultiset<T>(r: seq<T>, k: nat, x: T)
    requires k <= |r|
    ensures multiset(r[..k] + [x] + r[k..]) == multiset(r) + multiset{x}
  {
    assert r == r[..k] + r[k..];
  }

  lemma SplitLastMultiset<T>(s: seq<T>)
    requires 0 < |s|
    ensures multiset(s) == multiset(s[..|s| - 1]) + multiset{s[|s| - 1]}
  {
    assert s == s[..|s| - 1] + [s[|s| - 1]];
  }

  lemma AddSameElement<T>(a: multiset<T>, b: multiset<T>, c: multiset<T>, d: multiset<T>, x: T)
    requires a == b + multiset{x} && b == c && d == c + multiset{x}
    ensures a == d
  {
  }

  /** Reordering by a permutation keeps every element with its multiplicity. */
  lemma {:induction false} PermuteMultiset<T>(s: seq<T>, p: seq<nat>)
    requires IsPermutation(p, |s|)
    ensures multiset(Permute(s, p)) == multiset(s)
  {
    var n := |s|;
    if n > 0 {
      var k := FindLargest(p, n);
      var p' := p[..k] + p[k + 1..];
      DropLargest(p, n, k);
      var s' := s[..n - 1];
      PermuteMultiset(s', p');
      PermuteSplit(s, p, k, p');
      var r' := Permute(s', p');
      InsertAtMultiset(r', k, s[n - 1]);
      SplitLastMultiset(s);
      AddSameElement(multiset(Permute(s, p)), multiset(r'), multiset(s'), multiset(s), s[n - 1]);
    }
  }

  /** Any prefix of a reordering of `s` draws from `s` without replacement. */
  lemma PermutePrefix<T>(s: seq<T>, p: seq<nat>, k: nat)
    requires IsPermutation(p, |s|)
    requires k <= |s|
    ensures multiset(Permute(s, p)[..k]) <= multiset(s)
  {
    var r := Permute(s, p);
    PermuteMultiset(s, p);
    assert r == r[..k] + r[k..];
    assert multiset(r) == multiset(r[..k]) + multiset(r[k..]);
  }
}
