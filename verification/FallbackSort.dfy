/** fallbackSort: exponential radix sort of all rotations of a block. */
module FallbackSort {
  import opened Bytes
  import opened Rotations
  import opened LastToFirst
  import opened BucketRefinement
  import opened HeaderBits
  import FallbackQSort
  import FatPartition

  // ----- initial one-byte radix sort

  /** The slot that rotation i gets in the one-byte radix sort. */
  function Slot(b: seq<byte>, i: nat): int
    requires i < |b|
  {
    End(b, b[i]) - 1 - Count(b, b[i], i)
  }

  lemma {:induction false} SlotBounds(b: seq<byte>, i: nat)
    requires i < |b|
    ensures Start(b, b[i]) <= Slot(b, i) < End(b, b[i]) <= |b|
  {
    CountMonotone(b, i + 1, |b|, b[i]);
    EndBelow(b, b[i], 256);
    StartTotal(b);
  }

  lemma {:induction false} SlotOrder(b: seq<byte>, i: nat, j: nat)
    requires i < |b| && j < |b| && (b[i] < b[j] || (b[i] == b[j] && j < i))
    ensures Slot(b, i) < Slot(b, j)
  {
    SlotBounds(b, i);
    SlotBounds(b, j);
    if b[i] < b[j] {
      EndBelow(b, b[i], b[j]);
    } else {
      CountMonotone(b, j + 1, i, b[i]);
    }
  }

  lemma {:induction false} SlotInjective(b: seq<byte>, i: nat, j: nat)
    requires i < |b| && j < |b| && i != j
    ensures Slot(b, i) != Slot(b, j)
  {
    if b[i] < b[j] || (b[i] == b[j] && j < i) { SlotOrder(b, i, j); } else { SlotOrder(b, j, i); }
  }

  ghost predicate Listed(b: seq<byte>, f: seq<nat>, i: nat) {
    && |f| == |b|
    && forall x {:trigger Slot(b, x)} :: 0 <= x < |b| && x < i ==> 0 <= Slot(b, x) < |b| && f[Slot(b, x)] == x
  }

  ghost predicate Ends(b: seq<byte>, ftab: seq<nat>, i: nat)
    requires i <= |b|
  {
    |ftab| == 257 && forall c {:trigger ftab[c]} :: 0 <= c < 256 ==> ftab[c] == End(b, c) - Count(b, c, i)
  }

  lemma {:induction false} ListStep(b: seq<byte>, f: seq<nat>, ftab: seq<nat>, i: nat)
    requires i < |b| && Listed(b, f, i) && Ends(b, ftab, i)
    ensures |ftab| == 257 && |f| == |b| && 1 <= ftab[b[i]] <= |b|
    ensures Listed(b, f[ftab[b[i]] - 1 := i], i + 1)
    ensures Ends(b, ftab[b[i] := ftab[b[i]] - 1], i + 1)
  {
    SlotBounds(b, i);
    assert ftab[b[i]] - 1 == Slot(b, i);
    forall x | 0 <= x < i ensures Slot(b, x) != Slot(b, i) { SlotInjective(b, x, i); }
  }

  /** f lists the rotations bucket by bucket, each bucket from its last slot down. */
  ghost predicate ByFirstByte(b: seq<byte>, f: seq<nat>) {
    && |f| == |b| && IsPermutation(f)
    && forall r {:trigger f[r]} :: 0 <= r < |f| ==> Slot(b, f[r]) == r
  }

  lemma {:induction false} ListDone(b: seq<byte>, f: seq<nat>)
    requires Listed(b, f, |b|)
    ensures ByFirstByte(b, f)
  {
    var s := seq(|b|, x requires 0 <= x < |b| => (SlotBounds(b, x); Slot(b, x) as nat));
    forall x, y | 0 <= x < y < |b| ensures s[x] != s[y] { SlotInjective(b, x, y); }
    forall x | 0 <= x < |b| ensures s[x] < |b| { SlotBounds(b, x); }
    forall r | 0 <= r < |b| ensures f[r] < |b| && Slot(b, f[r]) == r {
      PermutationHits(s, r);
      var x :| 0 <= x < |b| && s[x] == r;
      assert f[Slot(b, x)] == x;
    }
    forall r, q | 0 <= r < q < |b| ensures f[r] != f[q] {
      assert Slot(b, f[r]) == r && Slot(b, f[q]) == q;
    }
  }

  lemma {:induction false} CountStart(b: seq<byte>, ftab: seq<nat>)
    requires |ftab| == 257 && forall c :: 0 <= c < 256 ==> ftab[c] == End(b, c)
    ensures Ends(b, ftab, 0)
  {
  }

  /** Byte counts of the block. */
  method CountBytes(block: array<byte>, ftab: array<nat>, nblock: nat, ghost b: seq<byte>)
    requires ftab.Length == 257 && nblock == |b| <= block.Length && block[..nblock] == b
    modifies ftab
    ensures forall c :: 0 <= c < 257 ==> ftab[c] == Count(b, c, nblock)
  {
    var i := 0;
    while i < 257
      invariant 0 <= i <= 257 && forall c :: 0 <= c < i ==> ftab[c] == 0
    {
      ftab[i] := 0;
      i := i + 1;
    }
    i := 0;
    while i < nblock
      invariant 0 <= i <= nblock && forall c :: 0 <= c < 257 ==> ftab[c] == Count(b, c, i)
    {
      assert block[i] == b[i];
      ftab[block[i]] := ftab[block[i]] + 1;
      i := i + 1;
    }
  }

  /** Turns counts into the end of each bucket. */
  method SumCounts(ftab: array<nat>, ghost b: seq<byte>)
    requires ftab.Length == 257 && forall c :: 0 <= c < 257 ==> ftab[c] == Count(b, c, |b|)
    modifies ftab
    ensures forall c :: 0 <= c < 256 ==> ftab[c] == End(b, c)
  {
    var i := 1;
    while i < 257
      invariant 1 <= i <= 257
      invariant forall c :: 0 <= c < i && c < 256 ==> ftab[c] == End(b, c)
      invariant forall c :: i <= c < 257 ==> ftab[c] == Count(b, c, |b|)
    {
      ftab[i] := ftab[i] + ftab[i - 1];
      i := i + 1;
    }
  }

  method Scatter(block: array<byte>, ftab: array<nat>, fmap: array<nat>, nblock: nat, ghost b: seq<byte>)
    requires ftab.Length == 257 && nblock == |b| <= block.Length && block[..nblock] == b
    requires fmap.Length == nblock && fmap != ftab && Ends(b, ftab[..], 0)
    modifies ftab, fmap
    ensures ByFirstByte(b, fmap[..]) && Ends(b, ftab[..], nblock)
  {
    assert Listed(b, fmap[..], 0);
    hide *;
    var i: nat := 0;
    while i < nblock
      invariant i <= nblock && Listed(b, fmap[..], i) && Ends(b, ftab[..], i)
    {
      ghost var f, g := fmap[..], ftab[..];
      ListStep(b, f, g, i);
      assert block[i] == b[i];
      var j := block[i];
      var k: nat := ftab[j] - 1;
      ftab[j] := k;
      fmap[k] := i;
      assert fmap[..] == f[k := i] && ftab[..] == g[j := k];
      i := i + 1;
    }
    ListDone(b, fmap[..]);
  }

  /** One byte repeated: the rotations are listed from the last to the first. */
  lemma {:induction false} OneByteListed(b: seq<byte>, f: seq<nat>)
    requires |b| > 0 && Uniform(b) && ByFirstByte(b, f)
    ensures f == CountingDown(|b|)
  {
    hide Slot, Cyc;
    forall r | 0 <= r < |b| ensures f[r] == |b| - 1 - r {
      assert Slot(b, f[r]) == r;
      OneByteSlot(b, f[r]);
    }
  }

  lemma {:induction false} OneByteSlot(b: seq<byte>, x: nat)
    requires x < |b| && Uniform(b)
    ensures Slot(b, x) == |b| - 1 - x
  {
    hide Count, Below;
    OneByteCounts(b, x);
    OneByteCounts(b, |b|);
    SlotBounds(b, x);
    assert b[x] == b[0];
  }

  lemma {:induction false} OneByteCounts(b: seq<byte>, k: nat)
    requires |b| > 0 && k <= |b| && Uniform(b)
    ensures Count(b, b[0], k) == k
  {
    if k > 0 {
      OneByteCounts(b, k - 1);
      assert b[k - 1] == b[0];
    }
  }

  // ----- header flags

  /** The alternating flags behind the block that stop every scan. */
  ghost predicate Sentinels(h: seq<bool>, n: nat) {
    n + 1 < |h| && h[n] && !h[n + 1]
  }

  /** Flags exactly at the bucket starts of the first c byte values. */
  ghost predicate StartFlags(b: seq<byte>, h: seq<bool>, c: nat, limit: nat) {
    && limit <= |h|
    && forall z {:trigger h[z]} :: 0 <= z < limit ==>
       (h[z] <==> exists d {:trigger Start(b, d)} :: 0 <= d < c && Start(b, d) == z)
  }

  lemma {:induction false} StartFlagsStep(b: seq<byte>, h: seq<bool>, c: nat, limit: nat)
    requires StartFlags(b, h, c, limit) && Start(b, c) < limit
    ensures StartFlags(b, h[Start(b, c) := true], c + 1, limit)
  {
    hide Start;
    var h' := h[Start(b, c) := true];
    forall z | 0 <= z < limit
      ensures h'[z] <==> exists d :: 0 <= d < c + 1 && Start(b, d) == z
    {
      if h'[z] && z != Start(b, c) {
        var d :| 0 <= d < c && Start(b, d) == z;
      }
    }
  }

  lemma {:induction false} FirstHeader(b: seq<byte>, f: seq<nat>, z: nat)
    requires |b| > 0 && ByFirstByte(b, f) && z < |b|
    ensures z > 0 ==> b[f[z - 1]] <= b[f[z]]
    ensures (exists d {:trigger Start(b, d)} :: 0 <= d < 256 && Start(b, d) == z) <==> z == 0 || b[f[z - 1]] != b[f[z]]
  {
    var y := f[z];
    assert Slot(b, y) == z;
    SlotBounds(b, y);
    if z == 0 {
      assert Start(b, 0) == 0;
    } else {
      var x := f[z - 1];
      assert Slot(b, x) == z - 1;
      SlotBounds(b, x);
      if b[y] < b[x] { SlotOrder(b, y, x); }
      if b[x] < b[y] {
        EndBelow(b, b[x], b[y]);
        assert Start(b, b[y]) == z;
      } else {
        forall d: nat | d < 256 ensures Start(b, d) != z {
          if d <= b[y] { StartMonotone(b, d, b[y]); } else { EndBelow(b, b[y], d); }
        }
      }
    }
  }

  lemma {:induction false} FirstRefined(b: seq<byte>, f: seq<nat>, h: seq<bool>)
    requires |b| > 0 && ByFirstByte(b, f) && StartFlags(b, h, 256, |b|)
    ensures Refined(b, f, h, 1)
  {
    FirstHeader(b, f, 0);
    assert h[0];
    forall z | 1 <= z < |f|
      ensures Cmp(b, f[z - 1], f[z], 1) <= 0 && (h[z] <==> Cmp(b, f[z - 1], f[z], 1) != 0)
    {
      FirstHeader(b, f, z);
      assert Cyc(b, f[z - 1]) == b[f[z - 1]] && Cyc(b, f[z]) == b[f[z]];
    }
  }

  /** Clears the used words, flags the bucket starts and plants the sentinels. */
  method InitFlags(bhtab: array<bv32>, ftab: array<nat>, nblock: nat, ghost b: seq<byte>)
    requires ftab.Length == 257 && ftab as object != bhtab && nblock == |b| && Ends(b, ftab[..], nblock)
    requires nblock / 32 + 3 <= bhtab.Length
    modifies bhtab
    ensures StartFlags(b, Flags(bhtab[..]), 256, nblock)
    ensures Sentinels(Flags(bhtab[..]), nblock)
  {
    var nBhtab := 2 + nblock / 32;
    var i := 0;
    while i < nBhtab
      invariant 0 <= i <= nBhtab
      invariant forall k :: 0 <= k < i ==> bhtab[k] == 0
    {
      bhtab[i] := 0;
      i := i + 1;
    }
    NoFlags(b, bhtab[..], nBhtab);
    SetStarts(bhtab, ftab, nblock, b);
    PlantSentinels(bhtab, nblock, b);
  }

  lemma {:induction false} NoFlags(b: seq<byte>, bh: seq<bv32>, words: nat)
    requires words <= |bh| && forall k :: 0 <= k < words ==> bh[k] == 0
    ensures StartFlags(b, Flags(bh), 0, 32 * words)
  {
    forall z | 0 <= z < 32 * words ensures !Flags(bh)[z] {
      FlagAt(bh, z);
      BitOfFull(z % 32);
    }
  }

  method SetStarts(bhtab: array<bv32>, ftab: array<nat>, nblock: nat, ghost b: seq<byte>)
    requires ftab.Length == 257 && ftab as object != bhtab && nblock == |b| && Ends(b, ftab[..], nblock)
    requires nblock / 32 + 3 <= bhtab.Length
    requires StartFlags(b, Flags(bhtab[..]), 0, 32 * (2 + nblock / 32))
    modifies bhtab
    ensures StartFlags(b, Flags(bhtab[..]), 256, 32 * (2 + nblock / 32))
  {
    hide *;
    ghost var words := 2 + nblock / 32;
    var i := 0;
    while i < 256
      invariant 0 <= i <= 256
      invariant StartFlags(b, Flags(bhtab[..]), i, 32 * words)
    {
      StartIs(b, ftab[..], i);
      StartFlagsStep(b, Flags(bhtab[..]), i, 32 * words);
      SetBH(bhtab, ftab[i]);
      i := i + 1;
    }
  }

  lemma {:induction false} StartIs(b: seq<byte>, ftab: seq<nat>, c: nat)
    requires Ends(b, ftab, |b|) && c < 256
    ensures |ftab| == 257 && ftab[c] == Start(b, c) <= |b|
  {
    StartMonotone(b, c, 256);
    StartTotal(b);
  }

  method PlantSentinels(bhtab: array<bv32>, nblock: nat, ghost b: seq<byte>)
    requires nblock == |b| && nblock / 32 + 3 <= bhtab.Length
    requires StartFlags(b, Flags(bhtab[..]), 256, 32 * (2 + nblock / 32))
    modifies bhtab
    ensures StartFlags(b, Flags(bhtab[..]), 256, nblock)
    ensures Sentinels(Flags(bhtab[..]), nblock)
  {
    StartFlagsNarrow(b, Flags(bhtab[..]), 32 * (2 + nblock / 32), nblock);
    assert Planted(Flags(bhtab[..]), nblock, 0);
    hide *;
    var i: nat := 0;
    while i < 32
      invariant i <= 32
      invariant StartFlags(b, Flags(bhtab[..]), 256, nblock)
      invariant Planted(Flags(bhtab[..]), nblock, i)
    {
      ghost var h := Flags(bhtab[..]);
      SetBH(bhtab, nblock + 2 * i);
      ClearBH(bhtab, nblock + 2 * i + 1);
      StartFlagsAbove(b, h, nblock, nblock + 2 * i);
      PlantStep(h, nblock, i);
      i := i + 1;
    }
    PlantDone(Flags(bhtab[..]), nblock);
  }

  ghost predicate Planted(h: seq<bool>, n: nat, i: nat) {
    n + 2 * i <= |h| && (i > 0 ==> Sentinels(h, n))
  }

  lemma {:induction false} PlantStep(h: seq<bool>, n: nat, i: nat)
    requires Planted(h, n, i) && n + 2 * i + 1 < |h|
    ensures Planted(h[n + 2 * i := true][n + 2 * i + 1 := false], n, i + 1)
  {
  }

  lemma {:induction false} PlantDone(h: seq<bool>, n: nat)
    requires Planted(h, n, 32)
    ensures Sentinels(h, n)
  {
  }

  lemma {:induction false} StartFlagsNarrow(b: seq<byte>, h: seq<bool>, wide: nat, limit: nat)
    requires StartFlags(b, h, 256, wide) && limit <= wide
    ensures StartFlags(b, h, 256, limit)
  {
  }

  lemma {:induction false} StartFlagsAbove(b: seq<byte>, h: seq<bool>, limit: nat, k: nat)
    requires StartFlags(b, h, 256, limit) && limit <= k && k + 1 < |h|
    ensures StartFlags(b, h[k := true][k + 1 := false], 256, limit)
  {
  }

  // ----- the refinement passes

  /** eclass[k] := header of the bucket holding rotation k + hh. */
  method NumberClasses(fmap: array<nat>, eclass: array<nat>, bhtab: array<bv32>, nblock: nat, hh: nat)
    returns (ghost c: seq<nat>)
    requires fmap.Length == eclass.Length == nblock && fmap != eclass && hh <= nblock
    requires IsPermutation(fmap[..]) && nblock < 32 * bhtab.Length
    requires fmap as object != bhtab && eclass as object != bhtab
    modifies eclass
    ensures InBuckets(fmap[..], c, Flags(bhtab[..])) && Shifted(c, eclass[..], hh)
  {
    hide Flags;
    ghost var f, h := fmap[..], Flags(bhtab[..]);
    var j: nat := 0;
    var i: nat := 0;
    while i < nblock
      invariant i <= nblock && j <= i
      invariant i > 0 ==> j == Head(h, i - 1)
      invariant Numbered(f, eclass[..], h, hh, i)
    {
      var header := IsSet(bhtab, i);
      if header { j := i; }
      ghost var e := eclass[..];
      NumberStep(f, e, h, hh, i);
      var k: int := fmap[i] - hh;
      if k < 0 { k := k + nblock; }
      eclass[k] := j;
      assert eclass[..] == e[k := j];
      i := i + 1;
    }
    c := ClassesOf(eclass[..], hh);
    NumbersAre(f, eclass[..], h, hh);
  }

  ghost function ClassesOf(e: seq<nat>, hh: nat): (c: seq<nat>)
    requires hh <= |e|
  {
    seq(|e|, y requires 0 <= y < |e| => e[Back(y, hh, |e|)])
  }

  lemma {:induction false} NumbersAre(f: seq<nat>, e: seq<nat>, h: seq<bool>, hh: nat)
    requires Numbered(f, e, h, hh, |f|)
    ensures InBuckets(f, ClassesOf(e, hh), h) && Shifted(ClassesOf(e, hh), e, hh)
  {
  }

  ghost predicate Numbered(f: seq<nat>, e: seq<nat>, h: seq<bool>, hh: nat, i: nat) {
    && |f| == |e| <= |h| && hh <= |f| && IsPermutation(f)
    && forall x {:trigger f[x]} :: 0 <= x < |f| && x < i ==> e[Back(f[x], hh, |f|)] == Head(h, x)
  }

  lemma {:induction false} NumberStep(f: seq<nat>, e: seq<nat>, h: seq<bool>, hh: nat, i: nat)
    requires Numbered(f, e, h, hh, i) && i < |f|
    ensures f[i] < |f| && Numbered(f, e[Back(f[i], hh, |f|) := Head(h, i)], h, hh, i + 1)
  {
    forall x | 0 <= x < i ensures Back(f[x], hh, |f|) != Back(f[i], hh, |f|) {
      assert f[x] != f[i] && f[x] < |f| && f[i] < |f|;
    }
  }

  /** One pass over the buckets, and the count of rotations not yet alone in theirs. */
  ghost predicate PassState(b: seq<byte>, f: seq<nat>, h: seq<bool>, h0: seq<bool>, c: seq<nat>, e: seq<nat>,
                            r: int, notDone: nat) {
    && Passing(b, f, h, h0, c, e, r) && -1 <= r < |b| && Sentinels(h0, |b|)
    && h0[r + 1]
    && (notDone == 0 ==> forall z {:trigger h0[z]} :: 0 <= z <= r ==> h0[z])
  }

  /** No bucket with two members is left behind r. */
  ghost predicate PassEnd(b: seq<byte>, f: seq<nat>, h: seq<bool>, h0: seq<bool>, c: seq<nat>, e: seq<nat>,
                          notDone: nat) {
    && Passing(b, f, h, h0, c, e, |b|) && Sentinels(h0, |b|)
    && (notDone == 0 ==> forall z {:trigger h0[z]} :: 0 <= z < |b| ==> h0[z])
  }

  /** The flags up to k are set and k is clear: the scan has passed the singletons. */
  lemma {:induction false} ScanSingletons(b: seq<byte>, f: seq<nat>, h: seq<bool>, h0: seq<bool>, c: seq<nat>,
                                          e: seq<nat>,
                       r: int, notDone: nat, k: nat)
    requires PassState(b, f, h, h0, c, e, r, notDone)
    requires r + 1 <= k <= |b| + 1 && k < |h| && !h[k] && forall z :: r + 1 <= z < k ==> h[z]
    ensures r + 2 <= k
    ensures k - 1 >= |b| ==> PassEnd(b, f, h, h0, c, e, notDone)
    ensures k - 1 < |b| ==> k <= |b| && h0[k - 1] && Passing(b, f, h, h0, c, e, k - 2) && !h0[k]
  {
    assert h[r + 1] == h0[r + 1];
    forall z | r + 1 <= z < k ensures h0[z] { assert h[z] == h0[z]; }
    assert h[k] == h0[k];
    assert h0[|b|];
    PassSkip(b, f, h, h0, c, e, r, k - 2);
    PassSkip(b, f, h, h0, c, e, r, k - 1);
  }

  /** Passing over singletons changes nothing. */
  lemma {:induction false} PassSkip(b: seq<byte>, f: seq<nat>, h: seq<bool>, h0: seq<bool>, c: seq<nat>, e: seq<nat>,
                                    r: int, r': int)
    requires Passing(b, f, h, h0, c, e, r) && r <= r'
    requires forall z :: r < z <= r' && 0 <= z < |b| ==> h0[z]
    ensures Passing(b, f, h, h0, c, e, r')
  {
    forall z | 1 <= z < |b| && z <= r' && !h0[z]
      ensures e[f[z - 1]] <= e[f[z]] && (h[z] <==> e[f[z - 1]] != e[f[z]])
    {
      assert z <= r;
      assert h[z] <==> e[f[z - 1]] != e[f[z]];
    }
  }

  lemma {:induction false} ScanBucket(b: seq<byte>, f: seq<nat>, h: seq<bool>, h0: seq<bool>, c: seq<nat>, e: seq<nat>,
                                      k1: nat, k2: nat)
    requires Passing(b, f, h, h0, c, e, k1 as int - 2) && Sentinels(h0, |b|)
    requires 1 <= k1 <= k2 <= |b| < |h| && h0[k1 - 1] && !h0[k1]
    requires h[k2] && forall z :: k1 <= z < k2 ==> !h[z]
    ensures k1 < k2 && Bucket(h0, k1 - 1, k2 - 1)
  {
    assert h[k1] == h0[k1];
    forall z | k1 <= z <= k2 ensures h[z] == h0[z] { assert h[z] == h0[z]; }
  }

  /** One step of the header scan inside a sorted bucket l..r. */
  lemma {:induction false} HeaderStep(b: seq<byte>, f: seq<nat>, h: seq<bool>, h0: seq<bool>, c: seq<nat>, e: seq<nat>,
                   l: nat, r: nat, i: nat)
    requires Passing(b, f, h, h0, c, e, i - 1) && Bucket(h0, l, r) && l <= i <= r < |b|
    requires SortStack.SortedBy(f, e, l, r + 1)
    ensures |f| == |b| && i < |f| && f[i] < |e| && i < |h|
    ensures i > l ==> i - 1 < |f| && f[i - 1] < |e|
    ensures Passing(b, f, if i == l || e[f[i - 1]] != e[f[i]] then h[i := true] else h, h0, c, e, i)
  {
    if i == l {
      assert h[i] == h0[i];
      assert h[i := true] == h;
      PassSkip(b, f, h, h0, c, e, i - 1, i);
    } else {
      assert FatPartition.Key(f, e, i - 1) == e[f[i - 1]] && FatPartition.Key(f, e, i) == e[f[i]];
      assert h[i] == h0[i];
      var h' := if e[f[i - 1]] != e[f[i]] then h[i := true] else h;
      forall z | 1 <= z < |b| && z <= i && !h0[z]
        ensures e[f[z - 1]] <= e[f[z]] && (h'[z] <==> e[f[z - 1]] != e[f[z]])
      {
        assert h[z] == h'[z] || z == i;
      }
    }
  }

  lemma {:induction false} BucketDone(b: seq<byte>, f: seq<nat>, h: seq<bool>, h0: seq<bool>, c: seq<nat>, e: seq<nat>,
                   l: nat, r: nat, notDone: nat)
    requires Passing(b, f, h, h0, c, e, r) && Bucket(h0, l, r) && r < |b| && Sentinels(h0, |b|) && notDone > 0
    ensures PassState(b, f, h, h0, c, e, r, notDone)
  {
  }

  /** Scan bucket l..r and flag each place where the class changes. */
  method MarkHeaders(fmap: array<nat>, eclass: array<nat>, bhtab: array<bv32>, l: nat, r: nat,
                     ghost b: seq<byte>, ghost h0: seq<bool>, ghost c: seq<nat>)
    requires fmap.Length == eclass.Length == |b| && fmap != eclass
    requires fmap as object != bhtab && eclass as object != bhtab
    requires Passing(b, fmap[..], Flags(bhtab[..]), h0, c, eclass[..], l - 1)
    requires Bucket(h0, l, r) && r < |b| && SortStack.SortedBy(fmap[..], eclass[..], l, r + 1)
    modifies bhtab
    ensures Passing(b, fmap[..], Flags(bhtab[..]), h0, c, eclass[..], r)
  {
    hide *;
    ghost var f, e := fmap[..], eclass[..];
    BucketRange(h0, l, r);
    var cc: int := -1;
    var i: nat := l;
    while i <= r
      invariant l <= i <= r + 1
      invariant Passing(b, f, Flags(bhtab[..]), h0, c, e, i - 1)
      invariant i == l ==> cc == -1
      invariant i > l ==> i - 1 < |f| && f[i - 1] < |e| && cc == e[f[i - 1]]
    {
      HeaderStep(b, f, Flags(bhtab[..]), h0, c, e, l, r, i);
      var cc1 := eclass[fmap[i]];
      if cc != cc1 {
        SetBH(bhtab, i);
        cc := cc1;
      }
      i := i + 1;
    }
  }

  lemma {:induction false} BucketRange(h0: seq<bool>, l: nat, r: nat)
    requires Bucket(h0, l, r)
    ensures l <= r
  {
  }

  lemma {:induction false} StateOpen(b: seq<byte>, f: seq<nat>, h: seq<bool>, h0: seq<bool>, c: seq<nat>, e: seq<nat>,
                                     r: int, notDone: nat)
    requires PassState(b, f, h, h0, c, e, r, notDone)
    ensures -1 <= r < |b| && |f| == |e| == |b| && FatPartition.Indexed(f, e)
    ensures |b| + 1 < |h| && h[|b|] && !h[|b| + 1]
    ensures Sentinels(h0, |b|)
  {
    assert h[|b|] == h0[|b|] && h[|b| + 1] == h0[|b| + 1];
  }

  /** All buckets of one pass: find the next one with two members, sort it by class, mark the new headers. */
  method RefineBuckets(fmap: array<nat>, eclass: array<nat>, bhtab: array<bv32>, nblock: nat,
                       ghost b: seq<byte>, ghost c: seq<nat>)
    returns (nNotDone: nat)
    requires fmap.Length == eclass.Length == nblock == |b| && fmap != eclass && 0 < nblock < 0x7fff_ffff
    requires fmap as object != bhtab && eclass as object != bhtab
    requires PassState(b, fmap[..], Flags(bhtab[..]), Flags(bhtab[..]), c, eclass[..], -1, 0)
    modifies fmap, bhtab
    ensures PassEnd(b, fmap[..], Flags(bhtab[..]), Flags(old(bhtab[..])), c, eclass[..], nNotDone)
    ensures FallbackQSort.OneClass(eclass[..]) ==> fmap[..] == old(fmap[..])
  {
    hide *;
    ghost var f0 := fmap[..];
    ghost var h0, e := Flags(bhtab[..]), eclass[..];
    nNotDone := 0;
    var r: int := -1;
    while true
      invariant PassState(b, fmap[..], Flags(bhtab[..]), h0, c, e, r, nNotDone)
      invariant r < nblock
      invariant FallbackQSort.OneClass(e) ==> fmap[..] == f0
      decreases nblock - r
    {
      StateOpen(b, fmap[..], Flags(bhtab[..]), h0, c, e, r, nNotDone);
      FlagsLength(bhtab[..]);
      var k := NextClear(bhtab, r + 1, nblock + 1);
      ScanSingletons(b, fmap[..], Flags(bhtab[..]), h0, c, e, r, nNotDone, k);
      var l := k - 1;
      if l >= nblock { break; }
      var k' := NextSet(bhtab, k, nblock);
      ScanBucket(b, fmap[..], Flags(bhtab[..]), h0, c, e, k, k');
      r := k' - 1;
      nNotDone := nNotDone + (r - l + 1);
      ghost var f := fmap[..];
      FallbackQSort.QSort3(fmap, eclass, l, r);
      PassSorted(b, f, fmap[..], Flags(bhtab[..]), h0, c, e, l, r);
      MarkHeaders(fmap, eclass, bhtab, l, r, b, h0, c);
      BucketDone(b, fmap[..], Flags(bhtab[..]), h0, c, e, l, r, nNotDone);
    }
  }

  lemma {:induction false} FlagsLength(bh: seq<bv32>)
    ensures |Flags(bh)| == 32 * |bh|
  {
  }

  // ----- the log(N) loop

  lemma {:induction false} PassBegins(b: seq<byte>, f: seq<nat>, h: seq<bool>, c: seq<nat>, e: seq<nat>, hh: nat)
    requires |b| > 0 && Refined(b, f, h, hh) && Sentinels(h, |b|)
    requires InBuckets(f, c, h) && Shifted(c, e, hh)
    ensures PassState(b, f, h, h, c, e, -1, 0) && Classes(b, c, hh)
  {
    PassStart(b, f, h, c, e);
    RefinedClasses(b, f, h, hh, c);
  }

  lemma {:induction false} PassEnds(b: seq<byte>, f: seq<nat>, h: seq<bool>, h0: seq<bool>, c: seq<nat>, e: seq<nat>,
                                    hh: nat, notDone: nat)
    requires |b| > 0 && PassEnd(b, f, h, h0, c, e, notDone) && Classes(b, c, hh) && Shifted(c, e, hh) && h0[0]
    ensures Refined(b, f, h, 2 * hh) && Sentinels(h, |b|)
    ensures notDone == 0 ==> forall z :: 0 <= z < |b| ==> h[z]
  {
    PassDone(b, f, h, h0, c, e, |b|, hh);
    assert h[|b|] == h0[|b|] && h[|b| + 1] == h0[|b| + 1];
    forall z | 0 <= z < |b| && h0[z] ensures h[z] { assert h[z] == h0[z]; }
  }

  /** A listing refined to full depth, or down to single rotations, is sorted. */
  lemma {:induction false} RefinedSorted(b: seq<byte>, f: seq<nat>, h: seq<bool>, depth: nat)
    requires |b| > 0 && Refined(b, f, h, depth)
    requires depth >= |b| || forall z :: 0 <= z < |b| ==> h[z]
    ensures SortedRotations(b, f)
  {
    forall x, y | 0 <= x < y < |f| ensures Cmp(b, f[x], f[y], |b|) <= 0 {
      RefinedPair(b, f, h, depth, x, y);
      if depth >= |b| {
        CmpSplit(b, f[x], f[y], |b|, depth - |b|);
      } else {
        CmpSplit(b, f[x], f[y], depth, |b| - depth);
      }
    }
  }

  /** One byte repeated: the rotations never fall into different classes. */
  lemma {:induction false} OneByteClass(b: seq<byte>, c: seq<nat>, e: seq<nat>, hh: nat)
    requires |b| > 0 && Classes(b, c, hh) && Shifted(c, e, hh)
    ensures Uniform(b) ==> FallbackQSort.OneClass(e)
  {
    hide Cmp, Classes, Shifted;
    if Uniform(b) {
      ClassesSize(b, c, e, hh);
      forall x | 0 <= x < |e| ensures e[x] == e[0] {
        ShiftedOrder(b, c, e, hh, x, 0);
        AllAlike(b, x + hh, hh, hh);
      }
    }
  }

  lemma {:induction false} ClassesSize(b: seq<byte>, c: seq<nat>, e: seq<nat>, hh: nat)
    requires |b| > 0 && Classes(b, c, hh) && Shifted(c, e, hh)
    ensures |e| == |b|
  {
  }

  /** From the one-byte sort to the full order, doubling the depth each time. */
  method RefineAll(fmap: array<nat>, eclass: array<nat>, bhtab: array<bv32>, nblock: nat, ghost b: seq<byte>)
    requires fmap.Length == eclass.Length == nblock == |b| && fmap != eclass && 0 < nblock < 0x7fff_ffff
    requires fmap as object != bhtab && eclass as object != bhtab
    requires Refined(b, fmap[..], Flags(bhtab[..]), 1) && Sentinels(Flags(bhtab[..]), nblock)
    modifies fmap, eclass, bhtab
    ensures SortedRotations(b, fmap[..])
    ensures Uniform(b) ==> fmap[..] == old(fmap[..])
  {
    hide *;
    ghost var f0 := fmap[..];
    var hh: nat := 1;
    while true
      invariant 1 <= hh <= nblock
      invariant Refined(b, fmap[..], Flags(bhtab[..]), hh) && Sentinels(Flags(bhtab[..]), nblock)
      invariant Uniform(b) ==> fmap[..] == f0
      decreases nblock - hh
    {
      RefinedOpen(b, fmap[..], Flags(bhtab[..]), hh);
      FlagsLength(bhtab[..]);
      ghost var c := NumberClasses(fmap, eclass, bhtab, nblock, hh);
      PassBegins(b, fmap[..], Flags(bhtab[..]), c, eclass[..], hh);
      OneByteClass(b, c, eclass[..], hh);
      ghost var h0 := Flags(bhtab[..]);
      var nNotDone := RefineBuckets(fmap, eclass, bhtab, nblock, b, c);
      PassEnds(b, fmap[..], Flags(bhtab[..]), h0, c, eclass[..], hh, nNotDone);
      hh := hh * 2;
      if hh > nblock || nNotDone == 0 {
        RefinedSorted(b, fmap[..], Flags(bhtab[..]), hh);
        break;
      }
    }
  }

  lemma {:induction false} RefinedOpen(b: seq<byte>, f: seq<nat>, h: seq<bool>, depth: nat)
    requires |b| > 0 && Refined(b, f, h, depth) && Sentinels(h, |b|)
    ensures IsPermutation(f) && |b| < |h| && h[0]
  {
  }

  // ----- rebuilding the block

  /** The first column: the block's bytes in the order of the listing. */
  function FirstBytes(b: seq<byte>, f: seq<nat>): (s: seq<byte>)
    requires forall i :: 0 <= i < |f| ==> f[i] < |b|
    ensures |s| == |f|
    ensures forall i :: 0 <= i < |f| ==> s[i] == b[f[i]]
  {
    seq(|f|, i requires 0 <= i < |f| => b[f[i]])
  }

  /** Where c occurs among the first i entries of s. */
  function Places(s: seq<byte>, c: int, i: nat): (p: seq<nat>)
    requires i <= |s|
    ensures |p| == Count(s, c, i)
    ensures forall k :: 0 <= k < |p| ==> p[k] < i && s[p[k]] == c
    ensures forall j, k :: 0 <= j < k < |p| ==> p[j] != p[k]
    ensures forall z :: 0 <= z < i && s[z] == c ==> z in p
  {
    if i == 0 then [] else Places(s, c, i - 1) + if s[i - 1] == c then [i - 1] else []
  }

  lemma {:induction false} PlacesFit(b: seq<byte>, f: seq<nat>, c: int)
    requires |f| == |b| && IsPermutation(f)
    ensures Count(FirstBytes(b, f), c, |b|) <= Count(b, c, |b|)
  {
    hide Count, FirstBytes, Places;
    var p := Places(FirstBytes(b, f), c, |b|);
    var m := seq(|p|, k requires 0 <= k < |p| => f[p[k]]);
    DistinctFits(m, Places(b, c, |b|));
  }

  lemma {:induction false} InversePermutation(f: seq<nat>) returns (g: seq<nat>)
    requires IsPermutation(f)
    ensures |g| == |f| && IsPermutation(g)
    ensures forall y :: 0 <= y < |f| ==> f[g[y]] == y
  {
    g := InverseUpTo(f, |f|);
    forall x, y | 0 <= x < y < |f| ensures g[x] != g[y] {
      assert f[g[x]] == x && f[g[y]] == y;
    }
  }

  lemma {:induction false} InverseUpTo(f: seq<nat>, k: nat) returns (g: seq<nat>)
    requires IsPermutation(f) && k <= |f|
    ensures |g| == k && forall y :: 0 <= y < k ==> g[y] < |f| && f[g[y]] == y
  {
    if k == 0 {
      g := [];
    } else {
      g := InverseUpTo(f, k - 1);
      PermutationHits(f, k - 1);
      var x :| 0 <= x < |f| && f[x] == k - 1;
      g := g + [x];
    }
  }

  /** Rearranging a block does not change its byte counts. */
  lemma {:induction false} CountRearranged(b: seq<byte>, f: seq<nat>, c: int)
    requires |f| == |b| && IsPermutation(f)
    ensures Count(FirstBytes(b, f), c, |b|) == Count(b, c, |b|)
  {
    hide Count;
    var s := FirstBytes(b, f);
    PlacesFit(b, f, c);
    var g := InversePermutation(f);
    PlacesFit(s, g, c);
    assert FirstBytes(s, g) == b;
  }

  ghost predicate Ascending(s: seq<byte>) {
    forall x, y :: 0 <= x < y < |s| ==> s[x] <= s[y]
  }

  lemma {:induction false} FirstBytesAscend(b: seq<byte>, f: seq<nat>)
    requires |b| > 0 && SortedRotations(b, f)
    ensures Ascending(FirstBytes(b, f))
  {
    forall x, y | 0 <= x < y < |f| ensures b[f[x]] <= b[f[y]] {
      assert Cmp(b, f[x], f[y], |b|) <= 0;
    }
  }

  /** What is left in the counts after the first i entries have been dealt out. */
  ghost predicate Remaining(s: seq<byte>, counts: seq<nat>, i: nat)
    requires i <= |s|
  {
    |counts| == 256 && forall c {:trigger counts[c]} :: 0 <= c < 256 ==> counts[c] == Count(s, c, |s|) - Count(s, c, i)
  }

  lemma {:induction false} NoneLeft(s: seq<byte>, c: int, i: nat, j: nat)
    requires i <= j <= |s| && forall x :: i <= x < j ==> s[x] != c
    ensures Count(s, c, j) == Count(s, c, i)
    decreases j
  {
    if i < j { NoneLeft(s, c, i, j - 1); }
  }

  /** The smallest byte value with a count left is the next one of the first column. */
  lemma {:induction false} NextByte(s: seq<byte>, counts: seq<nat>, i: nat)
    requires Ascending(s) && i < |s| && Remaining(s, counts, i)
    ensures |counts| == 256 && counts[s[i]] > 0
    ensures forall c :: 0 <= c < s[i] ==> counts[c] == 0
    ensures Remaining(s, counts[s[i] := counts[s[i]] - 1], i + 1)
    ensures i + 1 < |s| ==> s[i] <= s[i + 1]
  {
    CountMonotone(s, i + 1, |s|, s[i]);
    forall c | 0 <= c < s[i] ensures counts[c] == 0 {
      NoneLeft(s, c, i, |s|);
    }
  }

  /** Deals the byte values back along the sorted order, the block's own bytes having been destroyed. */
  method Rebuild(block: array<byte>, fmap: array<nat>, ftabCopy: array<nat>, nblock: nat, ghost b: seq<byte>)
    requires fmap.Length == nblock == |b| <= block.Length && 0 < nblock
    requires ftabCopy.Length == 256 && ftabCopy != fmap && block as object != fmap && block as object != ftabCopy
    requires forall c :: 0 <= c < 256 ==> ftabCopy[c] == Count(b, c, nblock)
    requires SortedRotations(b, fmap[..])
    modifies block, ftabCopy
    ensures block[..nblock] == b
    ensures block[nblock..] == old(block[nblock..])
  {
    ghost var f := fmap[..];
    ghost var s := FirstBytes(b, f);
    forall c | 0 <= c < 256 ensures ftabCopy[..][c] == Count(s, c, |s|) - Count(s, c, 0) { CountRearranged(b, f, c); }
    assert Remaining(s, ftabCopy[..], 0);
    assert Dealt(b, block[..nblock], f, 0);
    FirstBytesAscend(b, f);
    SortedIsPermutation(b, f);
    hide *;
    var j: byte := 0;
    var i: nat := 0;
    while i < nblock
      invariant i <= nblock && (i < nblock ==> j <= s[i])
      invariant Remaining(s, ftabCopy[..], i)
      invariant Dealt(b, block[..nblock], f, i)
      invariant block[nblock..] == old(block[nblock..])
    {
      NextByte(s, ftabCopy[..], i);
      while ftabCopy[j] == 0
        invariant j <= s[i]
        decreases 256 - j
      {
        j := j + 1;
      }
      ghost var counts, w := ftabCopy[..], block[..nblock];
      ftabCopy[j] := ftabCopy[j] - 1;
      DealStep(b, w, f, i);
      block[fmap[i]] := j;
      assert ftabCopy[..] == counts[j := counts[j] - 1];
      assert block[..nblock] == w[f[i] := j];
      i := i + 1;
    }
    DealDone(b, block[..nblock], f);
  }

  lemma {:induction false} SortedIsPermutation(b: seq<byte>, f: seq<nat>)
    requires |b| > 0 && SortedRotations(b, f)
    ensures IsPermutation(f)
  {
  }

  ghost predicate Dealt(b: seq<byte>, w: seq<byte>, f: seq<nat>, i: nat) {
    |w| == |b| == |f| && IsPermutation(f) && forall x {:trigger f[x]} :: 0 <= x < |f| && x < i ==> w[f[x]] == b[f[x]]
  }

  lemma {:induction false} DealStep(b: seq<byte>, w: seq<byte>, f: seq<nat>, i: nat)
    requires Dealt(b, w, f, i) && i < |f|
    ensures f[i] < |b| && Dealt(b, w[f[i] := b[f[i]]], f, i + 1)
  {
  }

  lemma {:induction false} DealDone(b: seq<byte>, w: seq<byte>, f: seq<nat>)
    requires Dealt(b, w, f, |f|)
    ensures w == b
  {
    forall y | 0 <= y < |b| ensures w[y] == b[y] {
      PermutationHits(f, y);
      var x :| 0 <= x < |f| && f[x] == y;
    }
  }

  /**
   * The class numbers, four bytes each, share their storage with the block and what lies behind it; writing them
   * leaves arbitrary bytes there.
   */
  method DestroyBlock(block: array<byte>, nblock: nat)
    modifies block
  {
    var i := 0;
    while i < 4 * nblock && i < block.Length
    {
      block[i] := *;
      i := i + 1;
    }
  }

  /** fallbackSort: fmap becomes the sorted order of all rotations, and the block survives. */
  method Sort(fmap: array<nat>, eclass: array<nat>, bhtab: array<bv32>, block: array<byte>, nblock: nat)
    requires fmap.Length == eclass.Length == nblock <= block.Length && fmap != eclass && 0 < nblock < 0x7fff_ffff
    requires nblock / 32 + 3 <= bhtab.Length
    requires fmap as object != bhtab && eclass as object != bhtab
    requires block as object != fmap && block as object != eclass && block as object != bhtab
    modifies fmap, eclass, bhtab, block
    ensures SortedRotations(old(block[..nblock]), fmap[..])
    ensures block[..nblock] == old(block[..nblock])
    ensures Uniform(block[..nblock]) ==> fmap[..] == CountingDown(nblock)
  {
    hide *;
    ghost var b := block[..nblock];
    var ftab := new nat[257];
    var ftabCopy := new nat[256];
    CountBytes(block, ftab, nblock, b);
    var i := 0;
    while i < 256
      invariant 0 <= i <= 256
      invariant forall c :: 0 <= c < i ==> ftabCopy[c] == ftab[c]
      modifies ftabCopy
    {
      ftabCopy[i] := ftab[i];
      i := i + 1;
    }
    SumCounts(ftab, b);
    CountStart(b, ftab[..]);
    Scatter(block, ftab, fmap, nblock, b);
    InitFlags(bhtab, ftab, nblock, b);
    FirstRefined(b, fmap[..], Flags(bhtab[..]));
    if Uniform(b) { OneByteListed(b, fmap[..]); }
    DestroyBlock(block, nblock);
    RefineAll(fmap, eclass, bhtab, nblock, b);
    Rebuild(block, fmap, ftabCopy, nblock, b);
  }
}
