/** Cyclic rotations of a block and their lexicographic order. */
module Rotations {
  import opened Bytes

  /** The byte at position x of the endless repetition of b. */
  function Cyc(b: seq<byte>, x: nat): byte
    requires |b| > 0
  {
    if x < |b| then b[x] else Cyc(b, x - |b|)
  }

  /** Three-way comparison of the first h bytes of the rotations starting at i and at j. */
  function Cmp(b: seq<byte>, i: nat, j: nat, h: nat): (r: int)
    requires |b| > 0
    ensures -1 <= r <= 1
    decreases h
  {
    if h == 0 then 0
    else if Cyc(b, i) < Cyc(b, j) then -1
    else if Cyc(b, i) > Cyc(b, j) then 1
    else Cmp(b, i + 1, j + 1, h - 1)
  }

  /** p lists all rotations of b in nondescending order. */
  ghost predicate SortedRotations(b: seq<byte>, p: seq<nat>)
    requires |b| > 0
  {
    && |p| == |b|
    && IsPermutation(p)
    && forall x, y {:trigger Cmp(b, p[x], p[y], |b|)} :: 0 <= x < y < |p| ==> Cmp(b, p[x], p[y], |b|) <= 0
  }

  /** The column before the first: the byte that precedes each listed rotation. */
  function LastColumn(b: seq<byte>, p: seq<nat>): (c: seq<byte>)
    requires |b| > 0 && |p| == |b|
    requires forall i :: 0 <= i < |p| ==> p[i] < |b|
    ensures |c| == |b|
  {
    seq(|b|, i requires 0 <= i < |b| => Cyc(b, p[i] + |b| - 1))
  }

  lemma CmpSwap(b: seq<byte>, i: nat, j: nat, h: nat)
    requires |b| > 0
    ensures Cmp(b, i, j, h) == -Cmp(b, j, i, h)
    decreases h
  {
  }

  lemma {:induction false} CmpTransitive(b: seq<byte>, i: nat, j: nat, k: nat, h: nat)
    requires |b| > 0
    requires Cmp(b, i, j, h) <= 0 && Cmp(b, j, k, h) <= 0
    ensures Cmp(b, i, k, h) <= 0
    ensures Cmp(b, i, j, h) < 0 || Cmp(b, j, k, h) < 0 <==> Cmp(b, i, k, h) < 0
    decreases h
  {
    if h > 0 && Cyc(b, i) == Cyc(b, j) == Cyc(b, k) {
      CmpTransitive(b, i + 1, j + 1, k + 1, h - 1);
    }
  }

  /** Comparing g + h bytes is comparing g bytes and, on a tie, the next h. */
  lemma {:induction false} CmpSplit(b: seq<byte>, i: nat, j: nat, g: nat, h: nat)
    requires |b| > 0
    ensures Cmp(b, i, j, g + h) ==
            if Cmp(b, i, j, g) != 0 then Cmp(b, i, j, g) else Cmp(b, i + g, j + g, h)
    decreases g
  {
    if g > 0 && Cyc(b, i) == Cyc(b, j) {
      CmpSplit(b, i + 1, j + 1, g - 1, h);
    }
  }

  lemma {:induction false} CmpWrap(b: seq<byte>, i: nat, j: nat, h: nat)
    requires |b| > 0
    ensures Cmp(b, i + |b|, j, h) == Cmp(b, i, j, h) == Cmp(b, i, j + |b|, h)
    decreases h
  {
    if h > 0 {
      CmpWrap(b, i + 1, j + 1, h - 1);
    }
  }

  /** Rotations that agree on |b| bytes agree for ever. */
  lemma {:induction false} CmpPeriodic(b: seq<byte>, i: nat, j: nat, h: nat)
    requires |b| > 0
    requires Cmp(b, i, j, |b|) == 0
    ensures Cmp(b, i, j, h) == 0
    decreases h
  {
    if h <= |b| {
      CmpSplit(b, i, j, h, |b| - h);
    } else {
      CmpSplit(b, i, j, |b|, h - |b|);
      CmpWrap(b, i, j + |b|, h - |b|);
      CmpWrap(b, i, j, h - |b|);
      CmpPeriodic(b, i, j, h - |b|);
    }
  }

  /** Equal rotations stay equal after stepping both forward. */
  lemma {:induction false} CmpAdvance(b: seq<byte>, i: nat, j: nat, g: nat, h: nat)
    requires |b| > 0
    requires Cmp(b, i, j, |b|) == 0
    ensures Cmp(b, i + g, j + g, h) == 0
  {
    CmpPeriodic(b, i, j, g + h);
    CmpSplit(b, i, j, g, h);
  }

  /** Two listings of all rotations in nondescending order agree, up to equal rotations. */
  lemma {:induction false} SortedListingsAgree(b: seq<byte>, p: seq<nat>, q: seq<nat>, r: nat)
    requires |b| > 0 && SortedRotations(b, p) && SortedRotations(b, q)
    requires r < |b|
    ensures Cmp(b, p[r], q[r], |b|) == 0
  {
    NotBelow(b, p, q, r);
    NotBelow(b, q, p, r);
    CmpSwap(b, p[r], q[r], |b|);
  }

  lemma {:induction false} NotBelow(b: seq<byte>, p: seq<nat>, q: seq<nat>, r: nat)
    requires |b| > 0 && SortedRotations(b, p) && SortedRotations(b, q)
    requires r < |b|
    ensures Cmp(b, p[r], q[r], |b|) >= 0
  {
    if Cmp(b, p[r], q[r], |b|) < 0 {
      // p[..r+1] would then sit inside q[..r], which is too short for it
      forall i | 0 <= i <= r
        ensures p[i] in q[..r]
      {
        CmpReflexive(b, p[r], |b|);
        assert Cmp(b, p[i], p[r], |b|) <= 0;
        CmpTransitive(b, p[i], p[r], q[r], |b|);
        PermutationHits(q, p[i]);
        var k :| 0 <= k < |q| && q[k] == p[i];
        SmallerIsEarlier(b, q, k, r);
        assert q[..r][k] == p[i];
      }
      DistinctElements(p[..r+1]);
      SubsetSize(Elements(p[..r+1]), Elements(q[..r]));
    }
  }

  lemma {:induction false} SmallerIsEarlier(b: seq<byte>, q: seq<nat>, k: nat, r: nat)
    requires |b| > 0 && SortedRotations(b, q)
    requires k < |b| && r < |b| && Cmp(b, q[k], q[r], |b|) < 0
    ensures k < r
  {
    CmpSwap(b, q[r], q[k], |b|);
    CmpReflexive(b, q[r], |b|);
  }

  lemma CmpReflexive(b: seq<byte>, i: nat, h: nat)
    requires |b| > 0
    ensures Cmp(b, i, i, h) == 0
    decreases h
  {
  }

  /** The column coded does not depend on which sorted listing a sorter finds. */
  lemma {:induction false} SameColumn(b: seq<byte>, p: seq<nat>, q: seq<nat>)
    requires |b| > 0 && SortedRotations(b, p) && SortedRotations(b, q)
    ensures LastColumn(b, p) == LastColumn(b, q)
  {
    hide Cmp, Cyc;
    forall r | 0 <= r < |b| ensures LastColumn(b, p)[r] == LastColumn(b, q)[r] {
      SortedListingsAgree(b, p, q, r);
      CmpAdvance(b, p[r], q[r], |b| - 1, 1);
      AgreeOne(b, p[r] + |b| - 1, q[r] + |b| - 1);
    }
  }

  lemma {:induction false} AgreeOne(b: seq<byte>, x: nat, y: nat)
    requires |b| > 0 && Cmp(b, x, y, 1) == 0
    ensures Cyc(b, x) == Cyc(b, y)
  {
  }

  // ----- the origin pointer

  /** No other rotation reads like the block itself. */
  ghost predicate NoTwin(b: seq<byte>)
    requires |b| > 0
  {
    forall x {:trigger Cmp(b, 0, x, |b|)} :: 0 < x < |b| ==> Cmp(b, 0, x, |b|) != 0
  }

  /** Every sorted listing has the block itself at place i. */
  ghost predicate OriginAlwaysAt(b: seq<byte>, i: nat)
    requires |b| > 0
  {
    forall q: seq<nat>, j: nat {:trigger SortedRotations(b, q), q[j]} ::
      SortedRotations(b, q) && j < |q| && q[j] == 0 ==> j == i
  }

  /** With two entries exchanged. */
  function Exchanged(p: seq<nat>, i: nat, k: nat): (q: seq<nat>)
    requires i < |p| && k < |p|
    ensures |q| == |p|
  {
    p[i := p[k]][k := p[i]]
  }

  /** Which of two equal rotations comes first does not matter to the order. */
  lemma {:induction false} ExchangeEqual(b: seq<byte>, p: seq<nat>, i: nat, k: nat)
    requires |b| > 0 && SortedRotations(b, p) && i < |b| && k < |b| && Cmp(b, p[i], p[k], |b|) == 0
    ensures SortedRotations(b, Exchanged(p, i, k))
  {
    hide Cmp;
    var q := Exchanged(p, i, k);
    forall x, y | 0 <= x < y < |q| ensures Cmp(b, q[x], q[y], |b|) <= 0 {
      ExchangedLike(b, p, i, k, x);
      ExchangedLike(b, p, i, k, y);
      assert Cmp(b, p[x], p[y], |b|) <= 0;
      CmpTransitive(b, q[x], p[x], p[y], |b|);
      CmpTransitive(b, q[x], p[y], q[y], |b|);
    }
  }

  lemma {:induction false} ExchangedLike(b: seq<byte>, p: seq<nat>, i: nat, k: nat, x: nat)
    requires |b| > 0 && i < |p| && k < |p| && x < |p| && Cmp(b, p[i], p[k], |b|) == 0
    ensures Cmp(b, Exchanged(p, i, k)[x], p[x], |b|) == 0 == Cmp(b, p[x], Exchanged(p, i, k)[x], |b|)
  {
    hide Cmp;
    CmpReflexive(b, p[x], |b|);
    CmpSwap(b, p[i], p[k], |b|);
  }

  /** The origin pointer is determined exactly when no other rotation reads like the block itself. */
  lemma {:induction false} OriginDetermined(b: seq<byte>, p: seq<nat>, i: nat)
    requires |b| > 0 && SortedRotations(b, p) && i < |b| && p[i] == 0
    ensures OriginAlwaysAt(b, i) <==> NoTwin(b)
  {
    hide Cmp;
    if NoTwin(b) {
      forall q: seq<nat>, j: nat | SortedRotations(b, q) && j < |q| && q[j] == 0 ensures j == i {
        SortedListingsAgree(b, p, q, i);
        assert q[i] == 0;
      }
    } else {
      var x :| 0 < x < |b| && Cmp(b, 0, x, |b|) == 0;
      PermutationHits(p, x);
      var k :| 0 <= k < |p| && p[k] == x;
      ExchangeEqual(b, p, i, k);
      assert Exchanged(p, i, k)[k] == 0;
    }
  }

  ghost predicate Uniform(b: seq<byte>) {
    forall i {:trigger b[i]} :: 0 <= i < |b| ==> b[i] == b[0]
  }

  function CountingUp(n: nat): (f: seq<nat>)
    ensures |f| == n && forall i :: 0 <= i < n ==> f[i] == i
  {
    seq(n, i => i)
  }

  function CountingDown(n: nat): (f: seq<nat>)
    ensures |f| == n && forall i :: 0 <= i < n ==> f[i] == n - 1 - i
  {
    seq(n, i requires 0 <= i < n => n - 1 - i)
  }

  /**
   * One byte repeated: counting up and counting down are both sorted listings, with the block itself at opposite
   * ends.
   */
  lemma {:induction false} OneByteRepeated(b: seq<byte>)
    requires |b| >= 2 && Uniform(b)
    ensures SortedRotations(b, CountingUp(|b|)) && CountingUp(|b|)[0] == 0
    ensures SortedRotations(b, CountingDown(|b|)) && CountingDown(|b|)[|b| - 1] == 0
    ensures !NoTwin(b)
  {
    forall i: nat, j: nat ensures Cmp(b, i, j, |b|) == 0 { AllAlike(b, i, j, |b|); }
    hide Cmp;
    assert Cmp(b, 0, 1, |b|) == 0;
  }

  lemma {:induction false} AllAlike(b: seq<byte>, i: nat, j: nat, h: nat)
    requires |b| > 0 && Uniform(b)
    ensures Cmp(b, i, j, h) == 0
    decreases h
  {
    CycAlike(b, i);
    CycAlike(b, j);
    if h > 0 { AllAlike(b, i + 1, j + 1, h - 1); }
  }

  lemma {:induction false} CycAlike(b: seq<byte>, x: nat)
    requires |b| > 0 && Uniform(b)
    ensures Cyc(b, x) == b[0]
  {
    if x >= |b| { CycAlike(b, x - |b|); }
  }
}
