/** Undoing the Burrows-Wheeler transform: the permutation T of a last column and its inverse walk. */
module LastToFirst {
  import opened Bytes
  import opened Rotations

  /** How often c occurs among the first i entries of s. */
  function Count(s: seq<byte>, c: int, i: nat): (n: nat)
    requires i <= |s|
    ensures n <= i
  {
    if i == 0 then 0 else Count(s, c, i - 1) + if s[i - 1] == c then 1 else 0
  }

  /** How many of the first i entries of s are smaller than c. */
  function Below(s: seq<byte>, c: nat, i: nat): nat
    requires i <= |s|
  {
    if c == 0 then 0 else Below(s, c - 1, i) + Count(s, c - 1, i)
  }

  /** How many entries of s are smaller than c. */
  function Start(s: seq<byte>, c: nat): nat {
    Below(s, c, |s|)
  }

  /** How many entries of s are at most c. */
  function End(s: seq<byte>, c: byte): nat {
    Start(s, c) + Count(s, c, |s|)
  }

  /** The row whose rotation starts with the occurrence of a byte that row i has in the last column. */
  function T(l: seq<byte>, i: nat): nat
    requires i < |l|
  {
    Start(l, l[i]) + Count(l, l[i], i)
  }

  lemma {:induction false} CountMonotone(l: seq<byte>, i: nat, j: nat, c: int)
    requires i <= j <= |l|
    ensures Count(l, c, i) <= Count(l, c, j)
    decreases j - i
  {
    if i < j {
      CountMonotone(l, i, j - 1, c);
    }
  }

  lemma {:induction false} BelowStep(s: seq<byte>, c: nat, i: nat)
    requires i < |s|
    ensures Below(s, c, i + 1) == Below(s, c, i) + if s[i] < c then 1 else 0
  {
    if c > 0 { BelowStep(s, c - 1, i); }
  }

  lemma {:induction false} BelowAll(s: seq<byte>, i: nat)
    requires i <= |s|
    ensures Below(s, 256, i) == i
  {
    if i == 0 {
      BelowNothing(s, 256);
    } else {
      BelowAll(s, i - 1);
      BelowStep(s, 256, i - 1);
    }
  }

  lemma {:induction false} BelowNothing(s: seq<byte>, c: nat)
    ensures Below(s, c, 0) == 0
  {
    if c > 0 { BelowNothing(s, c - 1); }
  }

  lemma {:induction false} StartTotal(s: seq<byte>)
    ensures Start(s, 256) == |s|
  {
    BelowAll(s, |s|);
  }

  lemma {:induction false} StartMonotone(s: seq<byte>, c: nat, d: nat)
    requires c <= d
    ensures Start(s, c) <= Start(s, d)
    decreases d - c
  {
    if c < d { StartMonotone(s, c, d - 1); }
  }

  lemma {:induction false} EndBelow(s: seq<byte>, c: byte, d: nat)
    requires c < d
    ensures End(s, c) <= Start(s, d)
  {
    var next: nat := c as int + 1;
    assert End(s, c) == Start(s, next);
    StartMonotone(s, next, d);
  }

  /** T(i) lies in the run of rows that start with l[i]. */
  lemma {:induction false} TBounds(l: seq<byte>, i: nat)
    requires i < |l|
    ensures Start(l, l[i]) <= T(l, i) < End(l, l[i]) <= |l|
  {
    CountMonotone(l, i + 1, |l|, l[i]);
    EndBelow(l, l[i], 256);
    StartTotal(l);
  }

  /** T orders rows by last-column byte and, among equal bytes, by row. */
  lemma {:induction false} TOrder(l: seq<byte>, i: nat, j: nat)
    requires i < |l| && j < |l|
    requires l[i] < l[j] || (l[i] == l[j] && i < j)
    ensures T(l, i) < T(l, j)
  {
    TBounds(l, i);
    if l[i] < l[j] {
      EndBelow(l, l[i], l[j]);
    } else {
      CountMonotone(l, i + 1, j, l[i]);
    }
  }

  lemma {:induction false} TInjective(l: seq<byte>, i: nat, j: nat)
    requires i < |l| && j < |l| && i != j
    ensures T(l, i) != T(l, j)
  {
    if l[i] < l[j] || (l[i] == l[j] && i < j) {
      TOrder(l, i, j);
    } else {
      TOrder(l, j, i);
    }
  }

  function TSeq(l: seq<byte>): (t: seq<nat>)
    ensures |t| == |l|
    ensures forall i :: 0 <= i < |l| ==> t[i] == T(l, i)
  {
    seq(|l|, i requires 0 <= i < |l| => T(l, i))
  }

  lemma {:induction false} TPermutation(l: seq<byte>)
    ensures IsPermutation(TSeq(l))
  {
    var t := TSeq(l);
    forall i | 0 <= i < |l| ensures t[i] < |l| {
      TBounds(l, i);
    }
    forall i, j | 0 <= i < j < |l| ensures t[i] != t[j] {
      TInjective(l, i, j);
    }
  }

  /** The inverse of T. */
  ghost function InvT(l: seq<byte>, r: nat): (i: nat)
    requires r < |l|
    ensures i < |l| && T(l, i) == r
  {
    TPermutation(l);
    PermutationHits(TSeq(l), r);
    var i :| 0 <= i < |TSeq(l)| && TSeq(l)[i] == r;
    i
  }

  lemma {:induction false} InvTUnique(l: seq<byte>, i: nat)
    requires i < |l|
    ensures T(l, i) < |l| && InvT(l, T(l, i)) == i
  {
    TBounds(l, i);
    if InvT(l, T(l, i)) != i {
      TInjective(l, InvT(l, T(l, i)), i);
    }
  }

  /** The row reached from row orig after k steps of the inverse of T. */
  ghost function Row(l: seq<byte>, orig: nat, k: nat): (r: nat)
    requires orig < |l|
    ensures r < |l|
  {
    if k == 0 then orig else InvT(l, Row(l, orig, k - 1))
  }

  /** The k-th byte that the decoder reads off the last column l. */
  ghost function Decoded(l: seq<byte>, orig: nat, k: nat): byte
    requires orig < |l|
  {
    l[Row(l, orig, k + 1)]
  }

  /** The first byte of row r is the last-column byte of the row that T sends to r. */
  lemma {:induction false} FirstColumn(l: seq<byte>, r: nat)
    requires r < |l|
    ensures Start(l, l[InvT(l, r)]) <= r < End(l, l[InvT(l, r)])
  {
    TBounds(l, InvT(l, r));
  }

  /** Listing at T(i) the rotation before the one at i gives a second sorted listing. */
  ghost function Rotated(b: seq<byte>, p: seq<nat>): (q: seq<nat>)
    requires |b| > 0 && SortedRotations(b, p)
    ensures |q| == |b|
    ensures forall r :: 0 <= r < |b| ==> q[r] == Before(|b|, p[InvT(LastColumn(b, p), r)])
  {
    seq(|b|, r requires 0 <= r < |b| => Before(|b|, p[InvT(LastColumn(b, p), r)]))
  }

  function Before(n: nat, x: nat): (y: nat)
    requires x < n
    ensures y < n
  {
    if x == 0 then n - 1 else x - 1
  }

  lemma {:induction false} BeforeInOrder(b: seq<byte>, x: nat, y: nat)
    requires x < |b| && y < |b|
    requires
      || Cyc(b, x + |b| - 1) < Cyc(b, y + |b| - 1)
      || (Cyc(b, x + |b| - 1) == Cyc(b, y + |b| - 1) && Cmp(b, x, y, |b|) <= 0)
    ensures Cmp(b, Before(|b|, x), Before(|b|, y), |b|) <= 0
  {
    var n, u, v := |b|, Before(|b|, x), Before(|b|, y);
    assert Cyc(b, x + n - 1) == Cyc(b, u) && Cyc(b, y + n - 1) == Cyc(b, v);
    CmpWrap(b, x, y, n);
    CmpWrap(b, x, y + n, n);
    assert Cmp(b, u + 1, v + 1, n) == Cmp(b, x, y, n);
    CmpSplit(b, u, v, n, 1);
  }

  lemma {:induction false} RotatedSorted(b: seq<byte>, p: seq<nat>)
    requires |b| > 0 && SortedRotations(b, p)
    ensures SortedRotations(b, Rotated(b, p))
  {
    var l, q, n := LastColumn(b, p), Rotated(b, p), |b|;
    forall r, s | 0 <= r < s < n
      ensures q[r] != q[s] && Cmp(b, q[r], q[s], n) <= 0
    {
      RotatedStep(b, p, r, s);
    }
  }

  lemma {:induction false} RotatedStep(b: seq<byte>, p: seq<nat>, r: nat, s: nat)
    requires |b| > 0 && SortedRotations(b, p)
    requires r < s < |b|
    ensures Rotated(b, p)[r] != Rotated(b, p)[s]
    ensures Cmp(b, Rotated(b, p)[r], Rotated(b, p)[s], |b|) <= 0
  {
    hide Count, Start, InvT, Cmp;
    var l, q, n := LastColumn(b, p), Rotated(b, p), |b|;
    var i, j := InvT(l, r), InvT(l, s);
    if l[j] < l[i] || (l[i] == l[j] && j < i) {
      TOrder(l, j, i);
    }
    assert l[i] < l[j] || (l[i] == l[j] && i < j);
    if i < j {
      assert Cmp(b, p[i], p[j], n) <= 0;
    }
    BeforeInOrder(b, p[i], p[j]);
  }

  /** One step of the inverse of T moves to the next rotation, up to equal rotations. */
  lemma {:induction false} InvTAdvances(b: seq<byte>, p: seq<nat>, r: nat)
    requires |b| > 0 && SortedRotations(b, p) && r < |b|
    ensures Cmp(b, p[r] + 1, p[InvT(LastColumn(b, p), r)], |b|) == 0
  {
    var l, n := LastColumn(b, p), |b|;
    var i := InvT(l, r);
    RotatedSorted(b, p);
    SortedListingsAgree(b, p, Rotated(b, p), r);
    CmpAdvance(b, p[r], Before(n, p[i]), 1, n);
    CmpWrap(b, p[r] + 1, 0, n);
    CmpWrap(b, p[r] + 1, p[i], n);
  }

  lemma {:induction false} NextRow(b: seq<byte>, p: seq<nat>, r: nat, k: nat)
    requires |b| > 0 && SortedRotations(b, p) && r < |b|
    requires Cmp(b, k, p[r], |b|) == 0
    ensures Cmp(b, k + 1, p[InvT(LastColumn(b, p), r)], |b|) == 0
  {
    CmpAdvance(b, k, p[r], 1, |b|);
    InvTAdvances(b, p, r);
    CmpTransitive(b, k + 1, p[r] + 1, p[InvT(LastColumn(b, p), r)], |b|);
  }

  /** After k steps the walk stands on a row holding (a rotation equal to) rotation k. */
  lemma {:induction false} RowIsRotation(b: seq<byte>, p: seq<nat>, orig: nat, k: nat)
    requires |b| > 0 && SortedRotations(b, p)
    requires orig < |b| && p[orig] == 0
    ensures Cmp(b, k, p[Row(LastColumn(b, p), orig, k)], |b|) == 0
  {
    var l := LastColumn(b, p);
    if k == 0 {
      CmpReflexive(b, 0, |b|);
    } else {
      RowIsRotation(b, p, orig, k - 1);
      NextRow(b, p, Row(l, orig, k - 1), k - 1);
    }
  }

  /** Whatever sorted listing the encoder chose, the walk reads off the block, periodic blocks included. */
  lemma {:induction false} InverseBwt(b: seq<byte>, p: seq<nat>, orig: nat, k: nat)
    requires |b| > 0 && SortedRotations(b, p)
    requires orig < |b| && p[orig] == 0
    ensures Decoded(LastColumn(b, p), orig, k) == Cyc(b, k)
  {
    var l, n := LastColumn(b, p), |b|;
    var x := p[Row(l, orig, k + 1)];
    RowIsRotation(b, p, orig, k + 1);
    CmpAdvance(b, k + 1, x, n - 1, 1);
    assert Cyc(b, k + n) == Cyc(b, k);
  }
}
