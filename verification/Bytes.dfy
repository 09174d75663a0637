/** Machine integers of the C sources, as subsets of the mathematical integers. */
module Bytes {
  type byte = x: int | 0 <= x < 256
  type u16 = x: int | 0 <= x < 0x1_0000

  /** Block sizes are multiples of this. */
  const BLOCK_UNIT := 100_000
  /** Space behind the block, for comparisons that run over its end. */
  const N_OVERSHOOT := 34
  /** The most symbols a coding table can have. */
  const MAX_ALPHA_SIZE := 258

  /** Every number 0..|p|-1 occurs exactly once in p. */
  ghost predicate IsPermutation(p: seq<nat>) {
    && (forall i :: 0 <= i < |p| ==> p[i] < |p|)
    && (forall i, j :: 0 <= i < j < |p| ==> p[i] != p[j])
  }

  ghost function Upto(n: nat): (s: set<nat>)
    ensures |s| == n
    ensures forall x: nat :: x in s <==> x < n
  {
    if n == 0 then {} else Upto(n - 1) + {n - 1}
  }

  ghost function Elements(p: seq<nat>): (s: set<nat>)
    ensures forall x :: x in s <==> x in p
    ensures |s| <= |p|
  {
    if p == [] then {} else
      assert forall x :: x in p <==> x in p[..|p|-1] || x == p[|p|-1];
      Elements(p[..|p|-1]) + {p[|p|-1]}
  }

  lemma {:induction false} DistinctElements(p: seq<nat>)
    requires forall i, j :: 0 <= i < j < |p| ==> p[i] != p[j]
    ensures |Elements(p)| == |p|
  {
    if p != [] {
      var q := p[..|p|-1];
      DistinctElements(q);
      assert forall i :: 0 <= i < |q| ==> q[i] != p[|p|-1];
    }
  }

  lemma {:induction false} SubsetSize(a: set<nat>, b: set<nat>)
    requires a <= b
    ensures |a| <= |b|
    ensures |a| == |b| ==> a == b
  {
    var c := b - a;
    assert b == a + c && a !! c;
    assert |b| == |a| + |c|;
    if |a| == |b| {
      assert c == {};
    }
  }

  /** A permutation hits every index. */
  lemma {:induction false} PermutationHits(p: seq<nat>, x: nat)
    requires IsPermutation(p) && x < |p|
    ensures exists i :: 0 <= i < |p| && p[i] == x
  {
    DistinctElements(p);
    assert Elements(p) <= Upto(|p|);
    SubsetSize(Elements(p), Upto(|p|));
    assert x in Elements(p);
    assert x in p;
  }

  /** A list without repeats whose members all occur in q is no longer than q. */
  lemma {:induction false} DistinctFits(p: seq<nat>, q: seq<nat>)
    requires forall i, j :: 0 <= i < j < |p| ==> p[i] != p[j]
    requires forall i :: 0 <= i < |p| ==> p[i] in q
    ensures |p| <= |q|
  {
    DistinctElements(p);
    SubsetSize(Elements(p), Elements(q));
  }
}
