/** mainGtU: comparing two rotations with the help of what is already known about their order. */
module MainCompare {
  import opened Bytes
  import opened Rotations

  const MAX_DEPTH := 15

  /** block holds b and, behind it, its first bytes again. */
  ghost predicate Overshot(block: seq<byte>, b: seq<byte>) {
    && |b| > N_OVERSHOOT && |block| >= |b| + N_OVERSHOOT
    && (forall x {:trigger block[x]} :: 0 <= x < |b| + N_OVERSHOOT ==> block[x] == b[if x < |b| then x else x - |b|])
  }

  /** A smaller quadrant under the same byte never belongs to a greater rotation. */
  ghost predicate Quadrants(quadrant: seq<u16>, b: seq<byte>) {
    && |b| > N_OVERSHOOT && |quadrant| >= |b| + N_OVERSHOOT
    && (forall x {:trigger quadrant[x]} :: |b| <= x < |b| + N_OVERSHOOT ==> quadrant[x] == quadrant[x - |b|])
    && (forall x, y {:trigger quadrant[x], quadrant[y]} ::
         0 <= x < |b| && 0 <= y < |b| && b[x] == b[y] && quadrant[x] < quadrant[y] ==> Cmp(b, x, y, |b|) <= 0)
  }

  /** No 20 bytes occur twice in the block, read as a ring. */
  ghost predicate Unrepeated(b: seq<byte>) {
    |b| > 0 && forall x, y {:trigger Cmp(b, x, y, 20)} :: 0 <= x < |b| && 0 <= y < |b| && x != y ==>
      Cmp(b, x, y, 20) != 0
  }

  /** No entry is listed twice, and no 20 bytes of the block occur twice. */
  ghost predicate Distinguished(f: seq<nat>, b: seq<byte>) {
    Unrepeated(b) && forall v {:trigger multiset(f)[v]} :: multiset(f)[v] <= 1
  }

  lemma {:induction false} Twice(f: seq<nat>, x: nat, y: nat)
    requires x < |f| && y < |f| && x != y
    ensures f[x] == f[y] ==> multiset(f)[f[x]] >= 2
  {
    if f[x] == f[y] {
      var lo, hi := if x < y then x else y, if x < y then y else x;
      assert f == f[..lo] + [f[x]] + f[lo + 1..hi] + [f[x]] + f[hi + 1..];
    }
  }

  /** The comparison of two entries that agree on d bytes is decided before the budget is touched. */
  lemma {:induction false} DecidedEarly(f: seq<nat>, b: seq<byte>, r: nat, d: nat, x: nat, y: nat)
    requires Distinguished(f, b) && x < |f| && y < |f| && x != y && f[x] < |b| && f[y] < |b|
    requires Cmp(b, f[x], r, d) == 0 && Cmp(b, f[y], r, d) == 0
    ensures Cmp(b, f[x] + d, f[y] + d, 20) != 0
  {
    hide Cmp;
    Twice(f, x, y);
    CmpSwap(b, f[y], r, d);
    CmpTransitive(b, f[x], r, f[y], d);
    CmpSplit(b, f[x], f[y], d, 20);
    CmpSplit(b, f[x], f[y], 20, d);
  }

  /** x is z, or z less a few times n. */
  ghost predicate Reached(n: nat, x: int, z: nat) {
    x == z || (z >= n > 0 && Reached(n, x, z - n))
  }

  lemma {:induction false} ReachedNext(n: nat, x: int, z: nat)
    requires Reached(n, x, z)
    ensures Reached(n, x + 1, z + 1)
    decreases z
  {
    if x != z { ReachedNext(n, x, z - n); }
  }

  lemma {:induction false} ReachedWrap(n: nat, x: int, z: nat)
    requires Reached(n, x, z) && x >= n > 0
    ensures Reached(n, x - n, z)
    decreases z
  {
    if x != z { ReachedWrap(n, x, z - n); }
  }

  lemma {:induction false} ReachedCmp(b: seq<byte>, x: int, z: nat, j: nat, h: nat)
    requires |b| > 0 && Reached(|b|, x, z) && x >= 0
    ensures Cmp(b, x, j, h) == Cmp(b, z, j, h) && Cmp(b, j, x, h) == Cmp(b, j, z, h) && Cyc(b, x) == Cyc(b, z)
    decreases z
  {
    if x != z {
      ReachedCmp(b, x, z - |b|, j, h);
      CmpWrap(b, z - |b|, j, h);
      CmpWrap(b, j, z - |b|, h);
    }
  }

  /** The rotations at i and j agree on m bytes; x and y are where those end, perhaps wrapped around. */
  ghost predicate Agree(b: seq<byte>, i: nat, j: nat, m: nat, x: int, y: int) {
    && |b| > 0 && x >= 0 && y >= 0
    && Cmp(b, i, j, m) == 0 && Reached(|b|, x, i + m) && Reached(|b|, y, j + m)
  }

  lemma {:induction false} AgreeStart(b: seq<byte>, i: nat, j: nat)
    requires |b| > 0
    ensures Agree(b, i, j, 0, i, j)
  {
  }

  lemma {:induction false} AgreeWrap(b: seq<byte>, i: nat, j: nat, m: nat, x: int, y: int)
    requires Agree(b, i, j, m, x, y)
    ensures x >= |b| ==> Agree(b, i, j, m, x - |b|, y)
    ensures y >= |b| ==> Agree(b, i, j, m, x, y - |b|)
  {
    if x >= |b| { ReachedWrap(|b|, x, i + m); }
    if y >= |b| { ReachedWrap(|b|, y, j + m); }
  }

  /** The next byte either decides or is agreed on as well. */
  lemma {:induction false} AgreeByte(b: seq<byte>, i: nat, j: nat, m: nat, x: int, y: int)
    requires Agree(b, i, j, m, x, y)
    ensures Cyc(b, x) > Cyc(b, y) ==> Cmp(b, i, j, |b|) > 0
    ensures Cyc(b, x) < Cyc(b, y) ==> Cmp(b, i, j, |b|) < 0
    ensures Cyc(b, x) == Cyc(b, y) ==> Agree(b, i, j, m + 1, x + 1, y + 1)
  {
    var n := |b|;
    ReachedCmp(b, x, i + m, 0, 0);
    ReachedCmp(b, y, j + m, 0, 0);
    CmpSplit(b, i, j, m, 1);
    assert Cmp(b, i + m, j + m, 1) == if Cyc(b, i + m) < Cyc(b, j + m) then -1
      else if Cyc(b, i + m) > Cyc(b, j + m) then 1 else 0 by {
      assert Cmp(b, i + m + 1, j + m + 1, 0) == 0;
    }
    ReachedNext(n, x, i + m);
    ReachedNext(n, y, j + m);
    hide Cyc, Reached;
    Longer(b, i, j, m + 1);
  }

  /** What the first m bytes say about the whole. */
  lemma {:induction false} Longer(b: seq<byte>, i: nat, j: nat, m: nat)
    requires |b| > 0
    ensures Cmp(b, i, j, m) < 0 ==> Cmp(b, i, j, |b|) < 0
    ensures Cmp(b, i, j, m) > 0 ==> Cmp(b, i, j, |b|) > 0
    ensures Cmp(b, i, j, m) <= 0 && m >= |b| ==> Cmp(b, i, j, |b|) <= 0
    ensures Cmp(b, i, j, m) >= 0 && m >= |b| ==> Cmp(b, i, j, |b|) >= 0
  {
    if m <= |b| {
      CmpSplit(b, i, j, m, |b| - m);
    } else {
      CmpSplit(b, i, j, |b|, m - |b|);
      if Cmp(b, i, j, |b|) == 0 { CmpPeriodic(b, i, j, m); }
    }
  }

  lemma {:induction false} AgreeAll(b: seq<byte>, i: nat, j: nat, m: nat, x: int, y: int)
    requires Agree(b, i, j, m, x, y) && m >= |b|
    ensures Cmp(b, i, j, |b|) == 0
  {
    hide Cmp, Reached;
    Longer(b, i, j, m);
  }

  /** Differing quadrants decide as well, up to equal rotations. */
  lemma {:induction false} AgreeQuadrant(b: seq<byte>, quadrant: seq<u16>, i: nat, j: nat, m: nat, x: int, y: int)
    requires Agree(b, i, j, m, x, y) && Quadrants(quadrant, b) && x < |b| + N_OVERSHOOT && y < |b| + N_OVERSHOOT
    requires Cyc(b, x) == Cyc(b, y)
    ensures quadrant[x] > quadrant[y] ==> Cmp(b, i, j, |b|) >= 0
    ensures quadrant[x] < quadrant[y] ==> Cmp(b, i, j, |b|) <= 0
  {
    var n := |b|;
    var x0 := if x < n then x else x - n;
    var y0 := if y < n then y else y - n;
    assert b[x0] == Cyc(b, x) && b[y0] == Cyc(b, y);
    assert quadrant[x] == quadrant[x0] && quadrant[y] == quadrant[y0];
    hide Cyc, Cmp;
    if x0 != x { CmpWrap(b, x0, y, n); }
    if y0 != y { CmpWrap(b, x0, y0, n); }
    assert Cmp(b, x, y, n) == Cmp(b, x0, y0, n);
    CmpSwap(b, x0, y0, n);
    ReachedCmp(b, x, i + m, y, n);
    ReachedCmp(b, y, j + m, i + m, n);
    CmpSplit(b, i, j, m, n);
    Longer(b, i, j, m + n);
  }

  lemma {:induction false} OvershotAt(block: seq<byte>, b: seq<byte>, x: nat)
    requires Overshot(block, b) && x < |b| + N_OVERSHOOT
    ensures |b| > N_OVERSHOOT && x < |block| && block[x] == Cyc(b, x)
  {
  }

  lemma {:induction false} QuadrantSize(quadrant: seq<u16>, b: seq<byte>)
    requires Quadrants(quadrant, b)
    ensures |b| > N_OVERSHOOT == 34 && |quadrant| >= |b| + 34
  {
  }

  /** Eight steps with quadrants; the result is given when they decide. */
  method CompareChunk(block: array<byte>, quadrant: array<u16>, i1: nat, i2: nat,
                      ghost b: seq<byte>, ghost i: nat, ghost j: nat, ghost m: nat)
    returns (done: bool, gt: bool)
    requires Overshot(block[..], b) && Quadrants(quadrant[..], b) && Agree(b, i, j, m, i1, i2)
    requires i1 <= |b| + 26 && i2 <= |b| + 26
    ensures done ==> if gt then Cmp(b, i, j, |b|) >= 0 else Cmp(b, i, j, |b|) <= 0
    ensures !done ==> Agree(b, i, j, m + 8, i1 + 8, i2 + 8)
  {
    hide *;
    QuadrantSize(quadrant[..], b);
    var t: nat := 0;
    while t < 8
      invariant t <= 8 && Agree(b, i, j, m + t, i1 + t, i2 + t)
    {
      OvershotAt(block[..], b, i1 + t);
      OvershotAt(block[..], b, i2 + t);
      AgreeByte(b, i, j, m + t, i1 + t, i2 + t);
      var c1, c2 := block[i1 + t], block[i2 + t];
      if c1 != c2 { return true, c1 > c2; }
      AgreeQuadrant(b, quadrant[..], i, j, m + t, i1 + t, i2 + t);
      var s1, s2 := quadrant[i1 + t], quadrant[i2 + t];
      if s1 != s2 { return true, s1 > s2; }
      t := t + 1;
    }
    done, gt := false, false;
  }

  /** mainGtU: true only if the rotation at i is not smaller, false only if it is not greater. */
  method MainGtU(i: nat, j: nat, block: array<byte>, quadrant: array<u16>, nblock: nat, budget: int, ghost b: seq<byte>)
    returns (gt: bool, budget': int)
    requires Overshot(block[..], b) && Quadrants(quadrant[..], b) && nblock == |b|
    requires i < nblock + MAX_DEPTH && j < nblock + MAX_DEPTH
    ensures if gt then Cmp(b, i, j, |b|) >= 0 else Cmp(b, i, j, |b|) <= 0
    ensures budget' <= budget && (Cmp(b, i, j, 20) != 0 ==> budget' == budget)
  {
    hide *;
    QuadrantSize(quadrant[..], b);
    DepthIs();
    AgreeStart(b, i, j);
    var i1, i2, t := i, j, 0;
    budget' := budget;
    while t < 12
      invariant 0 <= t <= 12 && i1 == i + t && i2 == j + t && Agree(b, i, j, t, i1, i2)
    {
      OvershotAt(block[..], b, i1);
      OvershotAt(block[..], b, i2);
      AgreeByte(b, i, j, t, i1, i2);
      var c1, c2 := block[i1], block[i2];
      if c1 != c2 { return c1 > c2, budget'; }
      i1, i2, t := i1 + 1, i2 + 1, t + 1;
    }
    var k: int := nblock + 8;
    ghost var m: nat := 12;
    while true
      invariant k >= 0 && 0 <= i1 <= nblock + 26 && 0 <= i2 <= nblock + 26 && Agree(b, i, j, m, i1, i2)
      invariant m + k == nblock + 20 && m >= 12 && budget' <= budget
      invariant if m == 12 then budget' == budget else Cmp(b, i, j, 20) == 0
      decreases k
    {
      var done;
      done, gt := CompareChunk(block, quadrant, i1, i2, b, i, j, m);
      if done { return; }
      i1, i2, m := i1 + 8, i2 + 8, m + 8;
      AgreeTwenty(b, i, j, m, i1, i2);
      AgreeWrap(b, i, j, m, i1, i2);
      if i1 >= nblock { i1 := i1 - nblock; }
      AgreeWrap(b, i, j, m, i1, i2);
      if i2 >= nblock { i2 := i2 - nblock; }
      k := k - 8;
      budget' := budget' - 1;
      if k < 0 { break; }
    }
    AgreeAll(b, i, j, m, i1, i2);
    gt := false;
  }

  lemma {:induction false} AgreeTwenty(b: seq<byte>, i: nat, j: nat, m: nat, x: int, y: int)
    requires Agree(b, i, j, m, x, y)
    ensures m == 20 ==> Cmp(b, i, j, 20) == 0
  {
  }

  lemma {:induction false} DepthIs()
    ensures MAX_DEPTH == 15 && N_OVERSHOOT == 34
  {
  }
}
