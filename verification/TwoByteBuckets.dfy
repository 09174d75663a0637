/** The radix sort at the start of mainSort: rotations by their first two bytes. */
module TwoByteBuckets {
  import opened Bytes
  import opened Rotations

  /** The first two bytes of rotation i, as one number. */
  function Two(b: seq<byte>, i: nat): (s: nat)
    requires |b| > 0
    ensures s < 65536
  {
    Cyc(b, i) as int * 256 + Cyc(b, i + 1) as int
  }

  function Count(b: seq<byte>, s: nat, k: nat): (c: nat)
    requires |b| > 0
    ensures c <= k
  {
    if k == 0 then 0 else Count(b, s, k - 1) + if Two(b, k - 1) == s then 1 else 0
  }

  /** How many of the first k rotations belong to smaller buckets than s. */
  function Below(b: seq<byte>, s: nat, k: nat): (c: nat)
    requires |b| > 0
    ensures c <= k
  {
    if k == 0 then 0 else Below(b, s, k - 1) + if Two(b, k - 1) < s then 1 else 0
  }

  function Start(b: seq<byte>, s: nat): (q: nat)
    requires |b| > 0
    ensures q <= |b|
  {
    Below(b, s, |b|)
  }

  lemma {:induction false} BelowNext(b: seq<byte>, s: nat, k: nat)
    requires |b| > 0
    ensures Below(b, s + 1, k) == Below(b, s, k) + Count(b, s, k)
  {
    hide Two;
    if k > 0 { BelowNext(b, s, k - 1); }
  }

  lemma {:induction false} BelowEnds(b: seq<byte>, k: nat)
    requires |b| > 0
    ensures Below(b, 0, k) == 0 && Below(b, 65536, k) == k
  {
    if k > 0 { BelowEnds(b, k - 1); }
  }

  lemma {:induction false} StartNext(b: seq<byte>, s: nat)
    requires |b| > 0
    ensures Start(b, s + 1) == Start(b, s) + Count(b, s, |b|)
    ensures Start(b, 0) == 0 && Start(b, 65536) == |b|
  {
    BelowNext(b, s, |b|);
    BelowEnds(b, |b|);
  }

  lemma {:induction false} StartMonotone(b: seq<byte>, s: nat, t: nat)
    requires |b| > 0 && s <= t
    ensures Start(b, s) <= Start(b, t)
    decreases t
  {
    hide Start, Count;
    if s < t {
      StartMonotone(b, s, t - 1);
      StartNext(b, t - 1);
    }
  }

  lemma {:induction false} CountMonotone(b: seq<byte>, s: nat, j: nat, k: nat)
    requires |b| > 0 && j <= k
    ensures Count(b, s, j) + (if j < k && Two(b, j) == s then 1 else 0) <= Count(b, s, k)
    decreases k
  {
    hide Two;
    if j < k { CountMonotone(b, s, j, k - 1); }
  }

  /** Where rotation i goes. */
  function Slot(b: seq<byte>, i: nat): nat
    requires |b| > 0
  {
    Start(b, Two(b, i)) + Count(b, Two(b, i), i)
  }

  lemma {:induction false} SlotBounds(b: seq<byte>, i: nat)
    requires i < |b|
    ensures Start(b, Two(b, i)) <= Slot(b, i) < Start(b, Two(b, i) + 1) <= |b|
  {
    hide Two, Below, Count;
    StartNext(b, Two(b, i));
    CountMonotone(b, Two(b, i), i, |b|);
  }

  lemma {:induction false} SlotOrder(b: seq<byte>, i: nat, j: nat)
    requires i < |b| && j < |b| && (Two(b, i) < Two(b, j) || (Two(b, i) == Two(b, j) && i < j))
    ensures Slot(b, i) < Slot(b, j)
  {
    hide Two, Start, Count;
    SlotBounds(b, i);
    if Two(b, i) < Two(b, j) {
      StartMonotone(b, Two(b, i) + 1, Two(b, j));
      SlotBounds(b, j);
    } else {
      CountMonotone(b, Two(b, i), i, j);
    }
  }

  lemma {:induction false} SlotInjective(b: seq<byte>, i: nat, j: nat)
    requires i < |b| && j < |b| && i != j
    ensures Slot(b, i) != Slot(b, j)
  {
    hide Two, Slot;
    if Two(b, i) < Two(b, j) || (Two(b, i) == Two(b, j) && i < j) { SlotOrder(b, i, j); } else { SlotOrder(b, j, i); }
  }

  /** ptr lists all rotations, each inside its bucket. */
  ghost predicate Bucketed(f: seq<nat>, b: seq<byte>) {
    && |b| > 0 && |f| == |b| && IsPermutation(f)
    && forall q {:trigger f[q]} :: 0 <= q < |f| ==> InBucket(b, f[q], q)
  }

  ghost predicate InBucket(b: seq<byte>, i: nat, q: int)
    requires |b| > 0
  {
    i < |b| && Start(b, Two(b, i)) <= q < Start(b, Two(b, i) + 1)
  }

  // ----- counting and scattering, from the last rotation down

  ghost predicate Listed(b: seq<byte>, f: seq<nat>, i: nat) {
    && |b| > 0 && |f| == |b|
    && forall x {:trigger Slot(b, x)} :: i <= x < |b| ==> Slot(b, x) < |b| && f[Slot(b, x)] == x
  }

  ghost predicate Tops(b: seq<byte>, ftab: seq<nat>, i: nat) {
    |b| > 0 && |ftab| == 65537 && forall s {:trigger ftab[s]} :: 0 <= s < 65536 ==>
      ftab[s] == Start(b, s) + Count(b, s, i)
  }

  lemma {:induction false} ListStep(b: seq<byte>, f: seq<nat>, ftab: seq<nat>, i: nat)
    requires i < |b| && Listed(b, f, i + 1) && Tops(b, ftab, i + 1)
    ensures |ftab| == 65537 && |f| == |b| && 1 <= ftab[Two(b, i)] <= |b|
    ensures Listed(b, f[ftab[Two(b, i)] - 1 := i], i)
    ensures Tops(b, ftab[Two(b, i) := ftab[Two(b, i)] - 1], i)
  {
    hide Two, Start;
    SlotBounds(b, i);
    assert ftab[Two(b, i)] - 1 == Slot(b, i);
    forall x | i < x < |b| ensures Slot(b, x) != Slot(b, i) { SlotInjective(b, x, i); }
  }

  lemma {:induction false} ListDone(b: seq<byte>, f: seq<nat>)
    requires Listed(b, f, 0)
    ensures Bucketed(f, b)
  {
    hide Two, Start, Count;
    var s := seq(|b|, x requires 0 <= x < |b| => (SlotBounds(b, x); Slot(b, x) as nat));
    forall x, y | 0 <= x < y < |b| ensures s[x] != s[y] { SlotInjective(b, x, y); }
    forall x | 0 <= x < |b| ensures s[x] < |b| { SlotBounds(b, x); }
    forall r | 0 <= r < |b| ensures InBucket(b, f[r], r) && Slot(b, f[r]) == r {
      PermutationHits(s, r);
      var x :| 0 <= x < |b| && s[x] == r;
      assert f[Slot(b, x)] == x;
      SlotBounds(b, x);
    }
    forall r, q | 0 <= r < q < |b| ensures f[r] != f[q] {
      assert Slot(b, f[r]) == r && Slot(b, f[q]) == q;
    }
  }

  // ----- one byte repeated: all rotations are in one bucket, listed from the first to the last

  lemma {:induction false} OneByteTwo(b: seq<byte>, x: nat)
    requires |b| > 0 && Uniform(b)
    ensures Two(b, x) == b[0] as nat * 256 + b[0] as nat
  {
    CycAlike(b, x);
    CycAlike(b, x + 1);
  }

  lemma {:induction false} OneByteCounts(b: seq<byte>, s: nat, k: nat)
    requires |b| > 0 && Uniform(b)
    ensures Count(b, s, k) == if Two(b, 0) == s then k else 0
    ensures Below(b, s, k) == if Two(b, 0) < s then k else 0
  {
    hide Two;
    if k > 0 {
      OneByteTwo(b, 0);
      OneByteTwo(b, k - 1);
      OneByteCounts(b, s, k - 1);
    }
  }

  lemma {:induction false} OneByteListed(b: seq<byte>, f: seq<nat>)
    requires Uniform(b) && Listed(b, f, 0)
    ensures f == CountingUp(|b|)
  {
    hide Two, Count, Below;
    forall x: nat | x < |b| ensures f[x] == x {
      OneByteTwo(b, 0);
      OneByteTwo(b, x);
      OneByteCounts(b, Two(b, x), x);
      OneByteCounts(b, Two(b, x), |b|);
      assert Slot(b, x) == x;
    }
  }

  lemma {:induction false} TwoOf(b: seq<byte>, i: nat, j: nat)
    requires i < |b| && j / 256 == Cyc(b, i + 1) && j < 65536
    ensures b[i] as int * 256 + j / 256 == Two(b, i) && Two(b, i) < 65536 && Two(b, i) / 256 == Cyc(b, i)
  {
  }

  /** How often each pair of bytes occurs. */
  method CountPairs(block: array<byte>, ftab: array<nat>, nblock: nat, ghost b: seq<byte>)
    requires nblock == |b| > 0 && |b| <= block.Length && block[..nblock] == b && ftab.Length == 65537
    modifies ftab
    ensures forall s :: 0 <= s <= 65536 ==> ftab[s] == Count(b, s, nblock)
  {
    hide Two, Cyc;
    var i: int := 0;
    while i <= 65536
      invariant 0 <= i <= 65537 && forall s :: 0 <= s < i ==> ftab[s] == 0
    {
      ftab[i] := 0;
      i := i + 1;
    }
    CycFirst(b, nblock);
    assert block[0] == b[0];
    var j: nat := block[0] as int * 256;
    ghost var total := nblock;
    i := nblock - 1;
    while i >= 0
      invariant -1 <= i < nblock && j < 65536 && j / 256 == Cyc(b, i + 1)
      invariant forall s :: 0 <= s <= 65536 ==> ftab[s] + Count(b, s, i + 1) == Count(b, s, nblock)
    {
      TwoOf(b, i, j);
      assert block[i] == b[i];
      CountStep(b, i);
      j := block[i] as int * 256 + j / 256;
      ftab[j] := ftab[j] + 1;
      i := i - 1;
    }
    NoneCounted(b);
  }

  lemma {:induction false} CycFirst(b: seq<byte>, n: nat)
    requires n == |b| > 0
    ensures Cyc(b, n) == b[0] && Cyc(b, n - 1 + 1) == b[0]
  {
  }

  lemma {:induction false} CountStep(b: seq<byte>, i: nat)
    requires |b| > 0
    ensures forall s: nat {:trigger Count(b, s, i + 1)} :: Count(b, s, i + 1) == Count(b, s, i) + if Two(b, i) == s then
      1 else 0
  {
  }

  lemma {:induction false} NoneCounted(b: seq<byte>)
    requires |b| > 0
    ensures forall s: nat {:trigger Count(b, s, 0)} :: Count(b, s, 0) == 0
  {
  }

  /** Running totals: the end of each bucket. */
  method SumPairs(ftab: array<nat>, ghost b: seq<byte>)
    requires |b| > 0 && ftab.Length == 65537 && forall s :: 0 <= s <= 65536 ==> ftab[s] == Count(b, s, |b|)
    modifies ftab
    ensures Tops(b, ftab[..], |b|) && ftab[65536] == |b|
  {
    hide Two, Below, Count, Start;
    StartNext(b, 0);
    var i := 1;
    while i <= 65536
      invariant 1 <= i <= 65537
      invariant forall s :: 0 <= s < i ==> ftab[s] == Start(b, s + 1)
      invariant forall s :: i <= s <= 65536 ==> ftab[s] == Count(b, s, |b|)
    {
      StartNext(b, i);
      ftab[i] := ftab[i] + ftab[i - 1];
      i := i + 1;
    }
    forall s | 0 <= s < 65536 ensures ftab[s] == Start(b, s) + Count(b, s, |b|) { StartNext(b, s); }
    StartBeyond(b);
  }

  lemma {:induction false} StartBeyond(b: seq<byte>)
    requires |b| > 0
    ensures Start(b, 65537) == |b|
  {
    StartNext(b, 65536);
    NoSuchPair(b, |b|);
  }

  lemma {:induction false} NoSuchPair(b: seq<byte>, k: nat)
    requires |b| > 0
    ensures Count(b, 65536, k) == 0
  {
    hide Two;
    if k > 0 { NoSuchPair(b, k - 1); }
  }

  method ScatterPairs(block: array<byte>, ftab: array<nat>, ptr: array<nat>, nblock: nat, ghost b: seq<byte>)
    requires nblock == |b| > 0 && |b| <= block.Length && block[..nblock] == b && ptr != ftab && ptr.Length == nblock
    requires Tops(b, ftab[..], nblock) && ftab[65536] == nblock
    modifies ftab, ptr
    ensures Bucketed(ptr[..], b)
    ensures forall s :: 0 <= s <= 65536 ==> ftab[s] == Start(b, s)
    ensures Uniform(b) ==> ptr[..] == CountingUp(nblock)
  {
    hide *;
    TopsSize(b, ftab[..], nblock);
    CycFirst(b, nblock);
    NothingListed(b, ptr[..]);
    assert block[0] == block[..nblock][0];
    var s: nat := block[0] as int * 256;
    var i: int := nblock - 1;
    while i >= 0
      invariant -1 <= i < nblock && s < 65536 && s / 256 == Cyc(b, i + 1)
      invariant Listed(b, ptr[..], i + 1) && Tops(b, ftab[..], i + 1) && ftab[65536] == nblock
    {
      TwoOf(b, i, s);
      assert block[i] == block[..nblock][i] == b[i];
      ghost var f, g := ptr[..], ftab[..];
      ListStep(b, f, g, i);
      s := block[i] as int * 256 + s / 256;
      var j: nat := ftab[s] - 1;
      ftab[s] := j;
      ptr[j] := i;
      assert ptr[..] == f[j := i as nat] && ftab[..] == g[s := j];
      i := i - 1;
    }
    ListDone(b, ptr[..]);
    if Uniform(b) { OneByteListed(b, ptr[..]); }
    TopsDone(b, ftab[..]);
  }

  lemma {:induction false} TopsSize(b: seq<byte>, ftab: seq<nat>, i: nat)
    requires Tops(b, ftab, i)
    ensures |ftab| == 65537
  {
  }

  lemma {:induction false} NothingListed(b: seq<byte>, f: seq<nat>)
    requires |b| > 0 && |f| == |b|
    ensures Listed(b, f, |b|)
  {
  }

  lemma {:induction false} TopsDone(b: seq<byte>, ftab: seq<nat>)
    requires Tops(b, ftab, 0) && |ftab| == 65537 && ftab[65536] == |b|
    ensures forall s :: 0 <= s <= 65536 ==> ftab[s] == Start(b, s)
  {
    hide Below;
    StartNext(b, 0);
    NoneCounted(b);
  }
}
