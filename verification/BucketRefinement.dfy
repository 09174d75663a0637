/** Bucket refinement: what the header flags and the class numbers of fallbackSort mean. */
module BucketRefinement {
  import opened Bytes
  import opened Rotations
  import opened Shuffles
  import SortStack

  /** f lists the rotations in order of their first depth bytes, and h flags each place where those change. */
  ghost predicate Refined(b: seq<byte>, f: seq<nat>, h: seq<bool>, depth: nat)
    requires |b| > 0
  {
    && |f| == |b| <= |h| && IsPermutation(f) && h[0]
    && forall z {:trigger h[z]} :: 1 <= z < |f| ==>
         Cmp(b, f[z - 1], f[z], depth) <= 0 && (h[z] <==> Cmp(b, f[z - 1], f[z], depth) != 0)
  }

  /** The header of the bucket that position i is in. */
  function Head(h: seq<bool>, i: nat): (j: nat)
    requires i < |h|
    ensures j <= i
    ensures forall z :: j < z <= i ==> !h[z]
    ensures j == 0 || h[j]
  {
    if i == 0 || h[i] then i else Head(h, i - 1)
  }

  lemma {:induction false} HeadIs(h: seq<bool>, l: nat, z: nat)
    requires l <= z < |h| && (l == 0 || h[l]) && forall x :: l < x <= z ==> !h[x]
    ensures Head(h, z) == l
    decreases z
  {
    if z > l { HeadIs(h, l, z - 1); }
  }

  /** Headers order positions as the first depth bytes order the rotations there. */
  lemma {:induction false} RefinedPair(b: seq<byte>, f: seq<nat>, h: seq<bool>, depth: nat, i: nat, j: nat)
    requires |b| > 0 && Refined(b, f, h, depth) && i <= j < |b|
    ensures Head(h, i) <= Head(h, j)
    ensures Cmp(b, f[i], f[j], depth) == if Head(h, i) == Head(h, j) then 0 else -1
    decreases j
  {
    if i == j {
      CmpReflexive(b, f[i], depth);
    } else {
      RefinedPair(b, f, h, depth, i, j - 1);
      assert h[j] <==> Cmp(b, f[j - 1], f[j], depth) != 0;
      CmpTransitive(b, f[i], f[j - 1], f[j], depth);
      if !h[j] && Head(h, i) == Head(h, j) {
        CmpSwap(b, f[i], f[j - 1], depth);
        CmpSwap(b, f[j - 1], f[j], depth);
        CmpTransitive(b, f[j], f[j - 1], f[i], depth);
        CmpSwap(b, f[i], f[j], depth);
      }
    }
  }

  /** c numbers the rotations so that numbers compare as the first depth bytes do. */
  ghost predicate Classes(b: seq<byte>, c: seq<nat>, depth: nat)
    requires |b| > 0
  {
    && |c| == |b|
    && forall x, y {:trigger Cmp(b, x, y, depth)} :: 0 <= x < |b| && 0 <= y < |b| ==>
         Cmp(b, x, y, depth) == if c[x] < c[y] then -1 else if c[x] == c[y] then 0 else 1
  }

  /** Each rotation's number is the header of the bucket it stands in. */
  ghost predicate InBuckets(f: seq<nat>, c: seq<nat>, h: seq<bool>) {
    && |f| == |c| <= |h|
    && forall z {:trigger f[z]} :: 0 <= z < |f| ==> f[z] < |c| && c[f[z]] == Head(h, z)
  }

  lemma {:induction false} RefinedClasses(b: seq<byte>, f: seq<nat>, h: seq<bool>, depth: nat, c: seq<nat>)
    requires |b| > 0 && Refined(b, f, h, depth) && InBuckets(f, c, h)
    ensures Classes(b, c, depth)
  {
    forall x, y | 0 <= x < |b| && 0 <= y < |b|
      ensures Cmp(b, x, y, depth) == if c[x] < c[y] then -1 else if c[x] == c[y] then 0 else 1
    {
      PermutationHits(f, x);
      PermutationHits(f, y);
      var i :| 0 <= i < |f| && f[i] == x;
      var j :| 0 <= j < |f| && f[j] == y;
      if i <= j {
        RefinedPair(b, f, h, depth, i, j);
      } else {
        RefinedPair(b, f, h, depth, j, i);
        CmpSwap(b, x, y, depth);
      }
    }
  }

  // ----- one pass, from depth H to depth 2H

  function Back(x: nat, hh: nat, n: nat): nat
    requires x < n && hh <= n
  {
    if x >= hh then x - hh else x + n - hh
  }

  /** e is c moved back by hh: e numbers a rotation by its bytes hh .. 2hh-1. */
  ghost predicate Shifted(c: seq<nat>, e: seq<nat>, hh: nat) {
    && |c| == |e| && hh <= |c|
    && forall x {:trigger c[x]} :: 0 <= x < |c| ==> e[Back(x, hh, |c|)] == c[x]
  }

  lemma {:induction false} ShiftedOrder(b: seq<byte>, c: seq<nat>, e: seq<nat>, hh: nat, x: nat, y: nat)
    requires |b| > 0 && Classes(b, c, hh) && Shifted(c, e, hh) && x < |b| && y < |b|
    ensures Cmp(b, x + hh, y + hh, hh) == if e[x] < e[y] then -1 else if e[x] == e[y] then 0 else 1
  {
    hide Cmp;
    var x', y' := Forth(x, hh, |b|), Forth(y, hh, |b|);
    CmpForth(b, x, y, hh, hh);
    ShiftedAt(c, e, hh, x);
    ShiftedAt(c, e, hh, y);
    assert Cmp(b, x', y', hh) == if c[x'] < c[y'] then -1 else if c[x'] == c[y'] then 0 else 1;
  }

  function Forth(x: nat, hh: nat, n: nat): (y: nat)
    requires x < n && hh <= n
    ensures y < n && Back(y, hh, n) == x
  {
    if x + hh < n then x + hh else x + hh - n
  }

  lemma {:induction false} CmpForth(b: seq<byte>, x: nat, y: nat, hh: nat, h: nat)
    requires |b| > 0 && x < |b| && y < |b| && hh <= |b|
    ensures Cmp(b, x + hh, y + hh, h) == Cmp(b, Forth(x, hh, |b|), Forth(y, hh, |b|), h)
  {
    hide Cmp;
    var n, x', y' := |b|, Forth(x, hh, |b|), Forth(y, hh, |b|);
    CmpWrap(b, x', y', h);
    CmpWrap(b, x' + n, y', h);
  }

  lemma {:induction false} ShiftedAt(c: seq<nat>, e: seq<nat>, hh: nat, x: nat)
    requires Shifted(c, e, hh) && x < |c|
    ensures e[x] == c[Forth(x, hh, |c|)]
  {
    var y := Forth(x, hh, |c|);
    assert e[Back(y, hh, |c|)] == c[y];
  }

  /** During a pass: positions up to r carry the finer headers, the others still those of h0. */
  ghost predicate Passing(b: seq<byte>, f: seq<nat>, h: seq<bool>, h0: seq<bool>, c: seq<nat>, e: seq<nat>, r: int) {
    && |b| == |f| == |c| == |e| < |h| == |h0| && IsPermutation(f)
    && InBuckets(f, c, h0)
    && (forall z {:trigger h[z]} :: 0 <= z < |h| && (z > r || z >= |b| || h0[z]) ==> h[z] == h0[z])
    && (forall z {:trigger h[z]} :: 1 <= z < |b| && z <= r && !h0[z] ==>
          e[f[z - 1]] <= e[f[z]] && (h[z] <==> e[f[z - 1]] != e[f[z]]))
  }

  lemma {:induction false} PassStart(b: seq<byte>, f: seq<nat>, h: seq<bool>, c: seq<nat>, e: seq<nat>)
    requires |b| == |f| == |c| == |e| < |h| && IsPermutation(f) && InBuckets(f, c, h)
    ensures Passing(b, f, h, h, c, e, -1)
  {
  }

  /** At the end of a pass the listing is refined to twice the depth. */
  lemma {:induction false} PassDone(b: seq<byte>, f: seq<nat>, h: seq<bool>, h0: seq<bool>, c: seq<nat>, e: seq<nat>,
                                    r: int, hh: nat)
    requires |b| > 0 && Passing(b, f, h, h0, c, e, r) && r >= |b| - 1
    requires Classes(b, c, hh) && Shifted(c, e, hh) && h0[0]
    ensures Refined(b, f, h, 2 * hh)
  {
    forall z | 1 <= z < |f|
      ensures Cmp(b, f[z - 1], f[z], 2 * hh) <= 0 && (h[z] <==> Cmp(b, f[z - 1], f[z], 2 * hh) != 0)
    {
      PassAt(b, f, h, h0, c, e, r, hh, z);
    }
  }

  lemma {:induction false} PassAt(b: seq<byte>, f: seq<nat>, h: seq<bool>, h0: seq<bool>, c: seq<nat>, e: seq<nat>,
                                  r: int, hh: nat, z: nat)
    requires |b| > 0 && Passing(b, f, h, h0, c, e, r) && r >= |b| - 1
    requires Classes(b, c, hh) && Shifted(c, e, hh) && 1 <= z < |f|
    ensures Cmp(b, f[z - 1], f[z], 2 * hh) <= 0 && (h[z] <==> Cmp(b, f[z - 1], f[z], 2 * hh) != 0)
  {
    hide Cmp, Cyc;
    var x, y := f[z - 1], f[z];
    assert 2 * hh == hh + hh;
    assert c[x] == Head(h0, z - 1) && c[y] == Head(h0, z);
    assert Cmp(b, x, y, hh) == if c[x] < c[y] then -1 else if c[x] == c[y] then 0 else 1;
    CmpSplit(b, x, y, hh, hh);
    ShiftedOrder(b, c, e, hh, x, y);
    assert Head(h0, z) == if h0[z] then z else Head(h0, z - 1);
    if h0[z] {
      assert h[z];
    } else {
      assert h[z] <==> e[x] != e[y];
    }
  }

  /** Positions l..r are one bucket of h0. */
  ghost predicate Bucket(h0: seq<bool>, l: int, r: int) {
    && 0 <= l <= r && r + 1 < |h0| && h0[l] && h0[r + 1]
    && forall z {:trigger h0[z]} :: l < z <= r ==> !h0[z]
  }

  /** Sorting a bucket by e keeps everything else. */
  lemma {:induction false} PassSorted(b: seq<byte>, f: seq<nat>, f': seq<nat>, h: seq<bool>, h0: seq<bool>,
                                      c: seq<nat>, e: seq<nat>, l: nat, r: nat)
    requires Passing(b, f, h, h0, c, e, l - 1) && Bucket(h0, l, r) && r < |b|
    requires Shuffled(f, f', l, r + 1)
    ensures Passing(b, f', h, h0, c, e, l - 1)
  {
    ShuffledPermutation(f, f', l, r + 1);
    ShuffledInBuckets(f, f', h0, c, l, r);
    forall z | 1 <= z < |b| && z <= l - 1 && !h0[z]
      ensures e[f'[z - 1]] <= e[f'[z]] && (h[z] <==> e[f'[z - 1]] != e[f'[z]])
    {
      assert f'[z - 1] == f[z - 1] && f'[z] == f[z];
      assert h[z] <==> e[f[z - 1]] != e[f[z]];
    }
  }

  lemma {:induction false} ShuffledInBuckets(f: seq<nat>, f': seq<nat>, h0: seq<bool>, c: seq<nat>, l: nat, r: nat)
    requires InBuckets(f, c, h0) && Bucket(h0, l, r) && r < |f|
    requires Shuffled(f, f', l, r + 1)
    ensures InBuckets(f', c, h0)
    ensures forall z :: 0 <= z < |f| && (z < l || r < z) ==> f'[z] == f[z]
  {
    forall z | 0 <= z < |f|
      ensures f'[z] < |c| && c[f'[z]] == Head(h0, z) && (z < l || r < z ==> f'[z] == f[z])
    {
      var y := SortStack.Source(f, f', l, r + 1, z);
      assert c[f[y]] == Head(h0, y);
      if l <= z <= r {
        HeadIs(h0, l, z);
        HeadIs(h0, l, y);
      }
    }
  }

  lemma {:induction false} ShuffledPermutation(f: seq<nat>, f': seq<nat>, lo: nat, end: nat)
    requires IsPermutation(f) && Shuffled(f, f', lo, end)
    ensures IsPermutation(f')
  {
    var a, b, c := f[..lo], f[lo..end], f[end..];
    var b' := f'[lo..end];
    assert f == a + b + c && f' == a + b' + c;
    assert multiset(f) == multiset(a) + multiset(b) + multiset(c);
    assert multiset(f') == multiset(a) + multiset(b') + multiset(c);
    DistinctMultiset(f, f');
  }

  lemma {:induction false} DistinctMultiset(f: seq<nat>, g: seq<nat>)
    requires IsPermutation(f) && multiset(f) == multiset(g) && |f| == |g|
    ensures IsPermutation(g)
  {
    forall i | 0 <= i < |g| ensures g[i] < |g| {
      assert g[i] in multiset(f);
    }
    forall i, j | 0 <= i < j < |g| ensures g[i] != g[j] {
      OnceEach(f, g[i]);
      if g[i] == g[j] { TwiceIn(g, i, j); }
    }
  }

  lemma {:induction false} OnceEach(f: seq<nat>, x: nat)
    requires forall i, j :: 0 <= i < j < |f| ==> f[i] != f[j]
    ensures multiset(f)[x] <= 1
  {
    if f != [] {
      var q := f[..|f|-1];
      OnceEach(q, x);
      assert f == q + [f[|f|-1]];
      assert forall i :: 0 <= i < |q| ==> q[i] != f[|f|-1];
    }
  }

  lemma {:induction false} TwiceIn(g: seq<nat>, i: nat, j: nat)
    requires i < j < |g| && g[i] == g[j]
    ensures multiset(g)[g[i]] >= 2
  {
    assert g == g[..i] + [g[i]] + g[i + 1..j] + [g[j]] + g[j + 1..];
  }
}
