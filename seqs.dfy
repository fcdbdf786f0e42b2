/** Generic facts about sequences used by the routing and loading models. */
module Seqs {

  /** No element occurs twice. */
  predicate NoDup<T(==)>(s: seq<T>)
  {
    forall i, j :: 0 <= i < j < |s| ==> s[i] != s[j]
  }

  /** The indices `0, 1, ..., n-1` in order. */
  function Range(n: nat): (r: seq<nat>)
    ensures |r| == n
    ensures forall i :: 0 <= i < n ==> r[i] == i
  {
    seq(n, i => i)
  }

  /** `p` lists each index `0..|p|-1` exactly once. */
  predicate IsPermutation(p: seq<nat>)
  {
    multiset(p) == multiset(Range(|p|))
  }

  /** Every index in `p` is below `n`. */
  predicate AllBelow(p: seq<nat>, n: nat)
  {
    forall i :: 0 <= i < |p| ==> p[i] < n
  }

  /** Elements of `s` at the positions listed in `p`, in the order of `p`. */
  function Gather<T>(s: seq<T>, p: seq<nat>): (r: seq<T>)
    requires AllBelow(p, |s|)
    ensures |r| == |p|
    ensures forall i :: 0 <= i < |p| ==> r[i] == s[p[i]]
  {
    if p == [] then [] else [s[p[0]]] + Gather(s, p[1..])
  }

  lemma {:induction false} NoDupMultiplicity<T>(s: seq<T>, x: T)
    requires NoDup(s)
    ensures multiset(s)[x] == if x in s then 1 else 0
  {
    if s != [] {
      var t := s[1..];
      assert s == [s[0]] + t;
      assert NoDup(t);
      NoDupMultiplicity(t, x);
      assert s[0] !in t;
    }
  }

  /** Two duplicate-free sequences with the same elements are permutations of each other. */
  lemma SameElementsPermutation<T>(a: seq<T>, b: seq<T>)
    requires NoDup(a) && NoDup(b)
    requires forall x :: x in a <==> x in b
    ensures multiset(a) == multiset(b)
  {
    forall x ensures multiset(a)[x] == multiset(b)[x] {
      NoDupMultiplicity(a, x);
      NoDupMultiplicity(b, x);
    }
  }

  lemma {:induction false} RangeMultiplicity(n: nat, x: nat)
    ensures multiset(Range(n))[x] == if x < n then 1 else 0
  {
    if n > 0 {
      assert Range(n) == Range(n - 1) + [n - 1];
      RangeMultiplicity(n - 1, x);
    }
  }

  /** A permutation of `0..n-1` has its elements in range and no duplicates. */
  lemma PermutationFacts(p: seq<nat>)
    requires IsPermutation(p)
    ensures forall i :: 0 <= i < |p| ==> p[i] < |p|
    ensures NoDup(p)
  {
    forall i | 0 <= i < |p| ensures p[i] < |p| {
      assert p[i] in multiset(p);
      RangeMultiplicity(|p|, p[i]);
    }
    forall i, j | 0 <= i < j < |p| ensures p[i] != p[j] {
      if p[i] == p[j] {
        var x := p[i];
        assert p == p[..i] + [x] + p[i + 1..j] + [x] + p[j + 1..];
        assert multiset(p)[x] >= 2;
        RangeMultiplicity(|p|, x);
        assert false;
      }
    }
  }

  lemma RemoveAt(q: seq<nat>, m: nat, n: nat)
    requires AllBelow(q, n) && m < |q|
    ensures AllBelow(q[..m] + q[m + 1..], n)
    ensures multiset(q[..m] + q[m + 1..]) == multiset(q) - multiset{q[m]}
  {
    var a, b := q[..m], q[m + 1..];
    assert q == a + [q[m]] + b;
    assert multiset(q) == multiset(a) + multiset{q[m]} + multiset(b);
    assert multiset(a + b) == multiset(a) + multiset(b);
    forall i | 0 <= i < |a + b| ensures (a + b)[i] < n {
      if i < m { assert (a + b)[i] == q[i]; } else { assert (a + b)[i] == q[i + 1]; }
    }
  }

  /** Removing position `m` from an index list removes one element from what it gathers. */
  lemma GatherRemoveAt<T>(s: seq<T>, q: seq<nat>, m: nat)
    requires AllBelow(q, |s|) && m < |q|
    requires AllBelow(q[..m] + q[m + 1..], |s|)
    ensures multiset(Gather(s, q)) == multiset(Gather(s, q[..m] + q[m + 1..])) + multiset{s[q[m]]}
  {
    var g := Gather(s, q);
    var r := q[..m] + q[m + 1..];
    var h := Gather(s, r);
    forall i | 0 <= i < |h| ensures h[i] == (g[..m] + g[m + 1..])[i] {
      if i < m { assert r[i] == q[i]; } else { assert r[i] == q[i + 1]; }
    }
    assert h == g[..m] + g[m + 1..];
    assert g == g[..m] + [g[m]] + g[m + 1..];
  }

  /** Gathering along index lists that are permutations of each other gives permutations of each other. */
  lemma {:induction false} GatherPermutation<T>(s: seq<T>, p: seq<nat>, q: seq<nat>)
    requires AllBelow(p, |s|) && AllBelow(q, |s|)
    requires multiset(p) == multiset(q)
    ensures multiset(Gather(s, p)) == multiset(Gather(s, q))
  {
    if p != [] {
      var a := p[0];
      assert a in multiset(q);
      var m :| 0 <= m < |q| && q[m] == a;
      RemoveAt(q, m, |s|);
      RemoveAt(p, 0, |s|);
      GatherRemoveAt(s, q, m);
      GatherRemoveAt(s, p, 0);
      var rest := q[..m] + q[m + 1..];
      assert p[..0] + p[1..] == p[1..];
      GatherPermutation(s, p[1..], rest);
    }
  }

  /** Reading a sequence through a permutation of its indices permutes it. */
  lemma GatherByPermutation<T>(s: seq<T>, p: seq<nat>)
    requires IsPermutation(p) && |p| == |s|
    ensures AllBelow(p, |s|)
    ensures multiset(Gather(s, p)) == multiset(s)
  {
    PermutationFacts(p);
    var r := Range(|s|);
    GatherPermutation(s, p, r);
    assert Gather(s, r) == s;
  }
}
