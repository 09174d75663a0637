/** mainSort: radix sort on two bytes, then one big bucket after the other. */
module MainSort {
  import opened Bytes
  import opened Rotations
  import opened Shuffles
  import opened MainCompare
  import opened TwoByteBuckets
  import opened ScanLists
  import opened BucketScan
  import opened BucketMeet
  import MainQSort
  import SortStack
  import FatPartition
  import RunningOrder
  import QuadrantUpdate

  /** Marks, in ftab, a small bucket known to be sorted. */
  const SETMASK := 0x20_0000

  function Clear(v: nat): nat {
    if v >= SETMASK then v - SETMASK else v
  }

  function IsSet(v: nat): bool {
    v >= SETMASK
  }

  function WithMask(v: nat): nat {
    if IsSet(v) then v else v + SETMASK
  }

  ghost predicate Starts(ftab: seq<nat>, b: seq<byte>) {
    && 0 < |b| <= 900_000 && |ftab| == 65537
    && forall s {:trigger ftab[s]} :: 0 <= s <= 65536 ==> Clear(ftab[s]) == Start(b, s)
  }

  ghost predicate Flags(f: seq<nat>, b: seq<byte>, ftab: seq<nat>) {
    && |b| > 0 && |ftab| == 65537
    && forall s {:trigger ftab[s]} :: 0 <= s < 65536 && IsSet(ftab[s]) ==> SmallSorted(f, b, s)
  }

  ghost predicate DoneFlagged(ftab: seq<nat>, done: seq<bool>) {
    && |ftab| == 65537 && |done| == 256
    && forall c: byte, t: byte {:trigger Key(c, t)} :: (done[c] || done[t]) ==> IsSet(ftab[Key(c, t)])
  }

  /**
   * Between two steps: every rotation in its small bucket, the marked buckets sorted, finished big buckets all
   * marked.
   */
  ghost predicate Sorting(f: seq<nat>, b: seq<byte>, ftab: seq<nat>, done: seq<bool>) {
    Bucketed(f, b) && Starts(ftab, b) && Flags(f, b, ftab) && DoneFlagged(ftab, done)
  }

  lemma {:induction false} SortingSize(f: seq<nat>, b: seq<byte>, ftab: seq<nat>, done: seq<bool>)
    requires Sorting(f, b, ftab, done)
    ensures 0 < |b| == |f| <= 900_000 && |ftab| == 65537 && |done| == 256 && IsPermutation(f)
    ensures forall s {:trigger ftab[s]} :: 0 <= s <= 65536 ==> Clear(ftab[s]) == Start(b, s)
  {
    hide Start, Clear;
  }

  // ----- step 1

  /** The rotations of one small bucket agree on two bytes. */
  lemma {:induction false} SmallAlike(f: seq<nat>, b: seq<byte>, s: nat)
    requires Bucketed(f, b) && |b| > 0 && Start(b, s) < Start(b, s + 1)
    ensures Start(b, s + 1) <= |f| && MainSimpleSort.Alike(f, b, f[Start(b, s)], 2, Start(b, s), Start(b, s + 1))
    ensures FatPartition.Indexed(f, MainQSort.Ranks(b))
  {
    hide Start, Two, Bucketed, Cmp, MainQSort.Smaller;
    BucketedPlaced(f, b);
    var r := f[Start(b, s)];
    forall q | Start(b, s) <= q < Start(b, s + 1) ensures f[q] < |b| && Cmp(b, f[q], r, 2) == 0 {
      TwoIn(f, b, 0, 0, q);
      TwoIn(f, b, 0, 0, Start(b, s));
      OneBucket(b, s, Two(b, f[q]), q);
      OneBucket(b, s, Two(b, r), Start(b, s));
      TwoAgree(b, f[q], r);
    }
  }

  lemma {:induction false} TwoAgree(b: seq<byte>, x: nat, y: nat)
    requires |b| > 0 && Two(b, x) == Two(b, y)
    ensures Cmp(b, x, y, 2) == 0
  {
    hide Cyc;
    assert Cyc(b, x) == Cyc(b, y) && Cyc(b, x + 1) == Cyc(b, y + 1);
    assert Cmp(b, x + 1 + 1, y + 1 + 1, 0) == 0;
    assert Cmp(b, x + 1, y + 1, 1) == 0;
  }

  /** Rearranging one small bucket leaves the others as they are. */
  lemma {:induction false} SmallShuffled(f: seq<nat>, g: seq<nat>, b: seq<byte>, s: nat)
    requires Bucketed(f, b) && |b| > 0 && Shuffled(f, g, Start(b, s), Start(b, s + 1))
    ensures Bucketed(g, b)
    ensures forall u {:trigger SmallSorted(f, b, u)} :: u != s && SmallSorted(f, b, u) ==> SmallSorted(g, b, u)
  {
    hide Start, Two, Cmp, Shuffled;
    BucketedPlaced(f, b);
    var lo, end := Start(b, s), Start(b, s + 1);
    ShuffledLength(f, g, lo, end);
    forall q | 0 <= q < |g| ensures InBucket(b, g[q], q) { ShuffledPlaced(f, g, b, s, q); }
    ShuffledDistinct(f, g, lo, end);
    forall u | u != s && SmallSorted(f, b, u) ensures SmallSorted(g, b, u) {
      OtherKept(f, g, b, s, u);
    }
  }

  lemma {:induction false} ShuffledPlaced(f: seq<nat>, g: seq<nat>, b: seq<byte>, s: nat, q: nat)
    requires Placed(f, b) && |b| > 0 && Shuffled(f, g, Start(b, s), Start(b, s + 1)) && q < |g|
    ensures InBucket(b, g[q], q)
  {
    hide Start, Two, Placed;
    var lo, end := Start(b, s), Start(b, s + 1);
    if lo <= q < end {
      var p := ShuffledFrom(f, g, lo, end, q);
      TwoIn(f, b, 0, 0, p);
      OneBucket(b, s, Two(b, f[p]), p);
    } else {
      ShuffledOutside(f, g, lo, end, q);
      TwoIn(f, b, 0, 0, q);
    }
  }

  lemma {:induction false} ShuffledDistinct(f: seq<nat>, g: seq<nat>, lo: nat, end: nat)
    requires Shuffled(f, g, lo, end) && IsPermutation(f)
    ensures IsPermutation(g)
  {
    ShuffledBag(f, g, lo, end);
    forall i | 0 <= i < |g| ensures g[i] < |g| {
      assert g[i] in multiset(g);
      assert g[i] in f;
    }
    forall i, j | 0 <= i < j < |g| ensures g[i] != g[j] {
      if g[i] == g[j] {
        Twice(g, i, j);
        AtMostOnce(f, g[i]);
        assert false;
      }
    }
  }

  lemma {:induction false} ShuffledBag(f: seq<nat>, g: seq<nat>, lo: nat, end: nat)
    requires Shuffled(f, g, lo, end)
    ensures multiset(f) == multiset(g) && |f| == |g|
  {
    assert f == f[..lo] + f[lo..end] + f[end..];
    assert g == g[..lo] + g[lo..end] + g[end..];
  }

  lemma {:induction false} Twice(g: seq<nat>, i: nat, j: nat)
    requires i < j < |g| && g[i] == g[j]
    ensures multiset(g)[g[i]] >= 2
  {
    assert g == g[..j] + g[j..];
    assert g[i] in multiset(g[..j]) by { assert g[..j][i] == g[i]; }
    assert g[j] in multiset(g[j..]) by { assert g[j..][0] == g[j]; }
  }

  lemma {:induction false} AtMostOnce(f: seq<nat>, x: nat)
    requires forall i, j :: 0 <= i < j < |f| ==> f[i] != f[j]
    ensures multiset(f)[x] <= 1
  {
    if |f| > 0 {
      var h := f[..|f|-1];
      AtMostOnce(h, x);
      assert f == h + [f[|f|-1]];
      if f[|f|-1] == x { assert x !in h; }
    }
  }

  lemma {:induction false} OtherKept(f: seq<nat>, g: seq<nat>, b: seq<byte>, s: nat, u: nat)
    requires |b| > 0 && |f| == |b| && Shuffled(f, g, Start(b, s), Start(b, s + 1)) && u != s && SmallSorted(f, b, u)
    ensures SmallSorted(g, b, u)
  {
    hide Start, Cmp, Shuffled;
    ShuffledLength(f, g, Start(b, s), Start(b, s + 1));
    forall q | Start(b, u) <= q < Start(b, u + 1) ensures 0 <= q < |f| ==> g[q] == f[q] {
      if 0 <= q < |f| {
        if Start(b, s) <= q < Start(b, s + 1) { OneBucket(b, s, u, q); }
        ShuffledOutside(f, g, Start(b, s), Start(b, s + 1), q);
      }
    }
    SameSorted(f, g, b, u);
  }

  lemma {:induction false} ShuffledLength(f: seq<nat>, g: seq<nat>, lo: nat, end: nat)
    requires Shuffled(f, g, lo, end)
    ensures |f| == |g|
  {
  }

  lemma {:induction false} SameSorted(f: seq<nat>, g: seq<nat>, b: seq<byte>, u: nat)
    requires |b| > 0 && |f| == |b| && SmallSorted(f, b, u)
    requires |g| == |f| && forall q {:trigger g[q]} :: Start(b, u) <= q < Start(b, u + 1) && 0 <= q < |f| ==>
      g[q] == f[q]
    ensures SmallSorted(g, b, u)
  {
    hide Start, Cmp;
    forall p, q | Start(b, u) <= p < q < Start(b, u + 1) ensures MainSimpleSort.Order(g, b, p, q) <= 0 {
      assert MainSimpleSort.Order(f, b, p, q) <= 0;
    }
  }

  /** Small bucket s has been sorted and is marked. */
  lemma {:induction false} SortedOne(f: seq<nat>, g: seq<nat>, b: seq<byte>, ftab: seq<nat>, done: seq<bool>, s: nat)
    requires Sorting(f, b, ftab, done) && s < 65536 && |b| > 0
    requires g == f || Shuffled(f, g, Start(b, s), Start(b, s + 1))
    requires SmallSorted(g, b, s)
    ensures |ftab| == 65537 && Sorting(g, b, ftab[s := WithMask(ftab[s])], done)
  {
    hide Start, Bucketed, SmallSorted, Shuffled;
    if g != f { SmallShuffled(f, g, b, s); }
    var ftab' := ftab[s := WithMask(ftab[s])];
    forall u | 0 <= u < 65536 && IsSet(ftab'[u]) ensures SmallSorted(g, b, u) {
      if u != s {
        assert IsSet(ftab[u]);
        assert SmallSorted(f, b, u);
      }
    }
    Masked(ftab, ftab', b, done, s);
  }

  lemma {:induction false} Masked(ftab: seq<nat>, ftab': seq<nat>, b: seq<byte>, done: seq<bool>, s: nat)
    requires Starts(ftab, b) && DoneFlagged(ftab, done) && s < 65536 && ftab' == ftab[s := WithMask(ftab[s])]
    ensures Starts(ftab', b) && DoneFlagged(ftab', done)
  {
    hide Start;
  }

  /** Buckets of at most one rotation are sorted. */
  lemma {:induction false} TinySorted(f: seq<nat>, b: seq<byte>, s: nat)
    requires |b| > 0 && Start(b, s + 1) <= Start(b, s) + 1
    ensures SmallSorted(f, b, s)
  {
    hide Start;
  }

  ghost predicate MarkedUpto(ftab: seq<nat>, c: byte, j: int) {
    |ftab| == 65537 && forall t: byte {:trigger Key(c, t)} :: t < j && t != c ==> IsSet(ftab[Key(c, t)])
  }

  lemma {:induction false} MarkedNext(ftab: seq<nat>, ftab': seq<nat>, c: byte, j: byte)
    requires MarkedUpto(ftab, c, j)
    requires if j == c then ftab' == ftab else |ftab| == 65537 && ftab' == ftab[Key(c, j) := WithMask(ftab[Key(c, j)])]
    ensures MarkedUpto(ftab', c, j + 1)
  {
  }

  lemma {:induction false} KeyIs(c: byte, t: byte)
    ensures Key(c, t) == c as nat * 256 + t as nat < 65536
    ensures BigKey(c as nat) == c as nat * 256 && BigKey(c as nat + 1) == (c as nat + 1) * 256 <= 65536
  {
  }

  /** One small bucket of step 1. */
  method SortOne(ptr: array<nat>, block: array<byte>, quadrant: array<u16>, ftab: array<nat>, nblock: nat, sb: nat,
                 budget: int, ghost b: seq<byte>, ghost done: seq<bool>)
    returns (budget': int)
    requires sb < 65536 && nblock == |b| > 0 && Sorting(ptr[..], b, ftab[..], done)
      && MainSimpleSort.Tables(block[..], quadrant[..], b)
    requires ptr as object != block && ptr as object != quadrant && ptr != ftab && budget >= 0
    modifies ptr, ftab
    ensures budget' >= 0 ==>
      |old(ftab[..])| == 65537 && Sorting(ptr[..], b, ftab[..], done)
        && ftab[..] == old(ftab[..])[sb := WithMask(old(ftab[..])[sb])]
    ensures Uniform(b) && sb != Two(b, 0) ==> budget' == budget && ptr[..] == old(ptr[..])
    ensures Unrepeated(b) ==> budget' == budget
  {
    hide *;
    budget' := budget;
    ghost var f, g := ptr[..], ftab[..];
    SortingSize(f, b, g, done);
    SortingOpen(f, b, g, done);
    assert ftab[sb] == g[sb] && ftab[sb + 1] == g[sb + 1];
    if Uniform(b) && sb != Two(b, 0) { OtherEmpty(b, g, sb); }
    if !IsSet(ftab[sb]) {
      var lo: nat := Clear(ftab[sb]);
      var hi: int := Clear(ftab[sb + 1]) as int - 1;
      if hi > lo {
        SmallAlike(f, b, sb);
        if Unrepeated(b) { PermutationDistinguished(f, b); }
        budget' := MainQSort.QSort3(ptr, block, quadrant, nblock, lo, hi, 2, budget', b, f[lo]);
        if budget' < 0 { return; }
        SmallIs(ptr[..], b, sb);
      } else {
        TinySorted(f, b, sb);
      }
    } else {
      Marks(f, b, g, sb);
    }
    SortedOne(f, ptr[..], b, g, done, sb);
    ftab[sb] := WithMask(ftab[sb]);
    assert ftab[..] == g[sb := WithMask(g[sb])];
  }

  lemma {:induction false} PermutationDistinguished(f: seq<nat>, b: seq<byte>)
    requires IsPermutation(f) && Unrepeated(b)
    ensures Distinguished(f, b)
  {
    hide Unrepeated;
    ListedOnce(f, |f|);
    assert f[..|f|] == f;
  }

  lemma {:induction false} ListedOnce(f: seq<nat>, k: nat)
    requires IsPermutation(f) && k <= |f|
    ensures forall v {:trigger multiset(f[..k])[v]} :: multiset(f[..k])[v] <= 1
  {
    if k > 0 {
      ListedOnce(f, k - 1);
      assert f[..k] == f[..k - 1] + [f[k - 1]];
      assert f[k - 1] !in f[..k - 1];
    }
  }

  /** One byte repeated: every bucket but one is empty. */
  lemma {:induction false} OtherEmpty(b: seq<byte>, ftab: seq<nat>, s: nat)
    requires |b| > 0 && Uniform(b) && Starts(ftab, b) && s < 65536 && s != Two(b, 0)
    ensures |ftab| == 65537 && Clear(ftab[s]) == Clear(ftab[s + 1])
  {
    hide Two, Clear, Uniform, Below;
    OneByteCounts(b, s, |b|);
    OneByteCounts(b, s + 1, |b|);
  }

  lemma {:induction false} OffDiagonal(b: seq<byte>, ss: byte, j: nat)
    requires |b| > 0 && j < 256 && j != ss
    ensures Uniform(b) ==> ss as nat * 256 + j != Two(b, 0)
  {
    if Uniform(b) { OneByteTwo(b, 0); }
  }

  lemma {:induction false} SmallIs(f: seq<nat>, b: seq<byte>, s: nat)
    requires |b| > 0 && MainSimpleSort.InOrder(f, b, Start(b, s), Start(b, s + 1))
    ensures SmallSorted(f, b, s)
  {
  }

  lemma {:induction false} Marks(f: seq<nat>, b: seq<byte>, ftab: seq<nat>, s: nat)
    requires Flags(f, b, ftab) && s < 65536 && |b| > 0 && |ftab| == 65537 && IsSet(ftab[s])
    ensures SmallSorted(f, b, s)
  {
    hide SmallSorted, IsSet;
  }

  lemma {:induction false} SortingOpen(f: seq<nat>, b: seq<byte>, ftab: seq<nat>, done: seq<bool>)
    ensures Sorting(f, b, ftab, done) <==>
      Bucketed(f, b) && Starts(ftab, b) && Flags(f, b, ftab) && DoneFlagged(ftab, done)
  {
  }

  /** Step 1: the small buckets [ss, j], for j other than ss. */
  method SortSmallBuckets(ptr: array<nat>, block: array<byte>, quadrant: array<u16>, ftab: array<nat>, nblock: nat,
                          ss: byte, budget: int,
                          ghost b: seq<byte>, ghost done: seq<bool>)
    returns (budget': int)
    requires nblock == |b| > 0 && Sorting(ptr[..], b, ftab[..], done)
      && MainSimpleSort.Tables(block[..], quadrant[..], b)
    requires ptr as object != block && ptr as object != quadrant && ptr != ftab && ftab as object != block
      && ftab as object != quadrant && budget >= 0
    modifies ptr, ftab
    ensures budget' >= 0 ==> Sorting(ptr[..], b, ftab[..], done) && MarkedUpto(ftab[..], ss, 256)
    ensures Uniform(b) ==> budget' == budget && ptr[..] == old(ptr[..])
    ensures Unrepeated(b) ==> budget' == budget
  {
    hide *;
    ghost var f0 := ptr[..];
    budget' := budget;
    var j: nat := 0;
    MarkedNone(ptr[..], b, ftab[..], done, ss);
    while j <= 255
      invariant 0 <= j <= 256 && Sorting(ptr[..], b, ftab[..], done) && MarkedUpto(ftab[..], ss, j) && budget' >= 0
      invariant Uniform(b) ==> budget' == budget && ptr[..] == f0
      invariant Unrepeated(b) ==> budget' == budget
    {
      ghost var g := ftab[..];
      if j != ss {
        KeyIs(ss, j);
        OffDiagonal(b, ss, j);
        budget' := SortOne(ptr, block, quadrant, ftab, nblock, ss as nat * 256 + j, budget', b, done);
        if budget' < 0 { return; }
      }
      MarkedNext(g, ftab[..], ss, j);
      j := j + 1;
    }
  }

  lemma {:induction false} MarkedNone(f: seq<nat>, b: seq<byte>, ftab: seq<nat>, done: seq<bool>, c: byte)
    requires Sorting(f, b, ftab, done)
    ensures MarkedUpto(ftab, c, 0)
  {
  }

  // ----- step 2

  lemma {:induction false} OthersMarked(f: seq<nat>, b: seq<byte>, ftab: seq<nat>, done: seq<bool>, c: byte)
    requires Sorting(f, b, ftab, done) && MarkedUpto(ftab, c, 256)
    ensures Bucketed(f, b) && OthersSorted(f, b, c)
  {
    hide SmallSorted, Bucketed;
  }

  /** The first scan can start. */
  lemma {:induction false} UpStart(f: seq<nat>, b: seq<byte>, c: byte, done: seq<bool>, cs: seq<int>)
    requires Bucketed(f, b) && OthersSorted(f, b, c) && |done| == 256 == |cs| && !done[c] && |f| == |b| > 0
    requires forall t: byte {:trigger cs[t]} :: cs[t] == Start(b, Key(t, c))
    ensures var side := SideOf(f, b, true, c);
      && Scanning(f, f, b, true, c, done, side, side, 0) && Pointers(cs, b, true, c, done, side, 0)
         && HasSide(side, b, true, c)
    ensures Opposite(NoLists(), b, true, c)
  {
    hide Start, Bucketed, OthersSorted, Beyond, Ordered, Distinct, Placed, HasSide, Scanning, Pointers;
    BucketedPlaced(f, b);
    SideBeyond(f, b, true, c);
    SideHasAll(f, b, true, c);
    SideInOrder(f, b, true, c);
    ScanStart(f, b, true, c, done, SideOf(f, b, true, c), cs);
    forall t: byte ensures OfBucket(NoLists()[t], b, Key(t, c))
      && Continues(NoLists()[t], b, false, c) { Nothing(b, c, t); }
  }

  function NoLists(): (l: seq<seq<nat>>)
    ensures |l| == 256 && forall t: byte :: l[t] == []
  {
    seq(256, i => [])
  }

  lemma {:induction false} Nothing(b: seq<byte>, c: byte, t: byte)
    requires |b| > 0
    ensures OfBucket([], b, Key(t, c)) && Continues([], b, false, c)
  {
  }

  ghost function Lists(src: seq<nat>, b: seq<byte>): (l: seq<seq<nat>>)
    ensures |l| == 256 && forall t: byte :: l[t] == Preds(src, b, |src|, t)
  {
    seq(256, i requires 0 <= i < 256 => Preds(src, b, |src|, i))
  }

  /** After the first scan, the second can start. */
  lemma {:induction false} DownStart(g: seq<nat>, f: seq<nat>, b: seq<byte>, c: byte, done: seq<bool>, cs: seq<int>,
                                     lside: seq<nat>, lsrc: seq<nat>)
    requires Bucketed(g, b) && OthersSorted(g, b, c) && |done| == 256 == |cs| && !done[c] && |g| == |b| > 0
    requires Scanning(g, f, b, true, c, done, lside, lsrc, |lsrc|)
    requires forall t: byte {:trigger cs[t]} :: cs[t] == Start(b, Key(t, c) + 1) - 1
    ensures var side := SideOf(g, b, false, c);
      && Scanning(f, f, b, false, c, done, side, side, 0) && Pointers(cs, b, false, c, done, side, 0)
         && HasSide(side, b, false, c)
    ensures Opposite(Lists(lsrc, b), b, false, c)
  {
    hide Start, Bucketed, OthersSorted, Beyond, Ordered, Distinct, Placed, HasSide, Scanning, Pointers, Preds, OfBucket,
      Continues, SideOf, BigFilled, Run;
    BucketedPlaced(g, b);
    SideBeyond(g, b, false, c);
    SideHasAll(g, b, false, c);
    SideInOrder(g, b, false, c);
    ScanPlaced(g, f, b, true, c, done, lside, lsrc, |lsrc|);
    UpperSide(g, f, b, c, done, lside, lsrc);
    ScanStart(f, b, false, c, done, SideOf(g, b, false, c), cs);
    ScanRun(g, f, b, true, c, done, lside, lsrc, |lsrc|);
    forall t: byte ensures OfBucket(Lists(lsrc, b)[t], b, Key(t, c)) && Continues(Lists(lsrc, b)[t], b, true, c) {
      RunPreds(lsrc, b, true, c, |lsrc|, t);
    }
  }

  lemma {:induction false} ScanRun(g: seq<nat>, f: seq<nat>, b: seq<byte>, up: bool, c: byte, done: seq<bool>,
                                   side: seq<nat>, src: seq<nat>, m: nat)
    requires Scanning(g, f, b, up, c, done, side, src, m)
    ensures m <= |src| && Run(src, b, up, c) && |b| > 0
  {
    GrownRun(side, src, b, up, c, m);
  }

  /** The first scan leaves the upper part of the big bucket alone. */
  lemma {:induction false} UpperSide(g: seq<nat>, f: seq<nat>, b: seq<byte>, c: byte, done: seq<bool>, lside: seq<nat>,
                                     lsrc: seq<nat>)
    requires Placed(g, b) && |g| == |b| > 0 && Scanning(g, f, b, true, c, done, lside, lsrc, |lsrc|)
    ensures BigFilled(f, b, false, c, SideOf(g, b, false, c))
  {
    hide Start, Scanning, Placed, Two, Cyc;
    var side := SideOf(g, b, false, c);
    ScanPlaced(g, f, b, true, c, done, lside, lsrc, |lsrc|);
    forall i | 0 <= i < |side| ensures 0 <= BigSpot(b, false, c, i) < |f| && f[BigSpot(b, false, c, i)] == side[i] {
      var q := BigSpot(b, false, c, i);
      assert side[i] == g[q];
      SideKeys(g, b, false, c, i);
      SecondByte(b, g[q]);
      ScanLeaves(g, f, b, true, c, done, lside, lsrc, |lsrc|, q);
    }
  }

  lemma {:induction false} SecondByte(b: seq<byte>, x: nat)
    requires |b| > 0
    ensures Two(b, x) % 256 == Cyc(b, x + 1) && Two(b, x) / 256 == Cyc(b, x)
  {
    hide Cyc;
  }

  /** The scans meet, or the whole block is one byte. */
  lemma {:induction false} Meet(g: seq<nat>, f1: seq<nat>, f: seq<nat>, b: seq<byte>, c: byte, done: seq<bool>,
                                lside: seq<nat>, lsrc: seq<nat>, rside: seq<nat>, rsrc: seq<nat>, cs: seq<int>,
                                  ce: seq<int>)
    requires Scanned(g, f1, f, b, c, done, lside, lsrc, rside, rsrc)
    requires Pointers(cs, b, true, c, done, lsrc, |lsrc|) && Pointers(ce, b, false, c, done, rsrc, |rsrc|)
    ensures Finished(g, f, b, c, done)
    ensures |b| > 0 && |cs| == |ce| == 256
    ensures if Kind(b, 0, c, |b|) != 0 then cs[c] - 1 == ce[c] else cs[c] == 0 && ce[c] == |b| - 1
  {
    hide Start, Kind, Scanning, HasSide, Bucketed, Placed, Preds, Count, Finished;
    ScannedPlaced(g, f1, f, b, c, done, lside, lsrc, rside, rsrc);
    assert !done[c];
    if Kind(b, 0, c, |b|) != 0 {
      ScansDone(g, f1, f, b, c, done, lside, lsrc, rside, rsrc);
      ScanGrown(g, f1, b, true, c, done, lside, lsrc);
      ScanGrown(f1, f, b, false, c, done, rside, rsrc);
      HalvesMeet(lside, lsrc, rside, rsrc, b, c, c);
      StartNext(b, Key(c, c));
    } else {
      ScansIdle(g, f1, f, b, c, done, lside, lsrc, rside, rsrc);
      NoPreds([], b);
      OnlyBucket(b, c);
    }
  }

  lemma {:induction false} ScanGrown(g: seq<nat>, f: seq<nat>, b: seq<byte>, up: bool, c: byte, done: seq<bool>,
                                     side: seq<nat>, src: seq<nat>)
    requires Scanning(g, f, b, up, c, done, side, src, |src|)
    ensures Grown(side, src, b, up, c, |src|)
  {
  }

  /** One byte repeated: everything is in one bucket. */
  lemma {:induction false} OnlyBucket(b: seq<byte>, c: byte)
    requires |b| > 0 && Kind(b, 0, c, |b|) == 0
    ensures Start(b, Key(c, c)) == 0 && Start(b, Key(c, c) + 1) == |b|
  {
    hide Kind, Cyc, Two;
    OnlyBelow(b, c, |b|, Key(c, c));
    OnlyBelow(b, c, |b|, Key(c, c) + 1);
  }

  lemma {:induction false} OnlyBelow(b: seq<byte>, c: byte, k: nat, s: nat)
    requires |b| > 0 && Kind(b, 0, c, |b|) == 0
    ensures Below(b, s, k) == if Key(c, c) < s then k else 0
  {
    hide Kind, Cyc;
    if k > 0 {
      OnlyBelow(b, c, k - 1, s);
      EverySame(b, 0, c, k - 1);
      EverySame(b, 0, c, k);
    }
  }

  /** copyStart and copyEnd: the ends of all the small buckets [j, ss]. */
  method FindEnds(ftab: array<nat>, ss: byte, copyStart: array<int>, copyEnd: array<int>, ghost b: seq<byte>)
    requires Starts(ftab[..], b) && |b| > 0 && copyStart.Length == 256 == copyEnd.Length && copyStart != copyEnd
    requires copyStart as object != ftab && copyEnd as object != ftab
    modifies copyStart, copyEnd
    ensures forall t: byte {:trigger copyStart[t]} :: copyStart[t] == Start(b, Key(t, ss))
    ensures forall t: byte {:trigger copyEnd[t]} :: copyEnd[t] == Start(b, Key(t, ss) + 1) - 1
  {
    hide *;
    ghost var g := ftab[..];
    StartsIs(g, b);
    var j := 0;
    while j <= 255
      invariant 0 <= j <= 256
      invariant forall t: byte {:trigger copyStart[t]} :: t < j ==> copyStart[t] == Start(b, Key(t, ss))
      invariant forall t: byte {:trigger copyEnd[t]} :: t < j ==> copyEnd[t] == Start(b, Key(t, ss) + 1) - 1
    {
      KeyIs(j, ss);
      assert ftab[j * 256 + ss as nat] == g[j * 256 + ss as nat]
        && ftab[j * 256 + ss as nat + 1] == g[j * 256 + ss as nat + 1];
      copyStart[j] := Clear(ftab[j * 256 + ss as nat]);
      copyEnd[j] := Clear(ftab[j * 256 + ss as nat + 1]) as int - 1;
      j := j + 1;
    }
  }

  lemma {:induction false} StartsIs(ftab: seq<nat>, b: seq<byte>)
    requires Starts(ftab, b)
    ensures |ftab| == 65537 && |b| > 0 && forall s {:trigger ftab[s]} :: 0 <= s <= 65536 ==>
      Clear(ftab[s]) == Start(b, s)
  {
    hide Start, Clear;
  }

  lemma {:induction false} ScanSpots(b: seq<byte>, c: byte)
    requires |b| > 0
    ensures BigSpot(b, true, c, 0) == Start(b, BigKey(c as nat))
      && BigSpot(b, false, c, 0) == Start(b, BigKey(c as nat + 1)) - 1
  {
    hide Start;
  }

  lemma {:induction false} ScannedClose(g: seq<nat>, f1: seq<nat>, f: seq<nat>, b: seq<byte>, c: byte, done: seq<bool>,
                                        lside: seq<nat>, lsrc: seq<nat>, rside: seq<nat>, rsrc: seq<nat>)
    requires Bucketed(g, b) && Scanning(g, f1, b, true, c, done, lside, lsrc, |lsrc|) && HasSide(lside, b, true, c)
    requires Scanning(f1, f, b, false, c, done, rside, rsrc, |rsrc|) && HasSide(rside, b, false, c)
    ensures Scanned(g, f1, f, b, c, done, lside, lsrc, rside, rsrc)
  {
  }

  /** Step 2: both scans of the big bucket ss. */
  method ScanBigBucket(ptr: array<nat>, block: array<byte>, ftab: array<nat>, bigDone: array<bool>, ss: byte,
                       nblock: nat, copyStart: array<int>, copyEnd: array<int>, ghost b: seq<byte>)
    requires nblock == |b| <= block.Length && block[..nblock] == b
    requires Sorting(ptr[..], b, ftab[..], bigDone[..]) && MarkedUpto(ftab[..], ss, 256) && bigDone.Length == 256
      && !bigDone[ss]
    requires copyStart.Length == 256 == copyEnd.Length && copyStart != copyEnd && ptr != ftab
    requires copyStart as object != ftab && copyEnd as object != ftab && copyStart as object != ptr
      && copyEnd as object != ptr
    modifies ptr, copyStart, copyEnd
    ensures Finished(old(ptr[..]), ptr[..], b, ss, bigDone[..])
    ensures copyStart[ss] - 1 == copyEnd[ss] || (copyStart[ss] == 0 && copyEnd[ss] == nblock - 1)
    ensures Uniform(b) ==> ptr[..] == old(ptr[..])
  {
    hide *;
    ghost var g, done := ptr[..], bigDone[..];
    SortingSize(g, b, ftab[..], done);
    SortingOpen(g, b, ftab[..], done);
    OthersMarked(g, b, ftab[..], done, ss);
    KeyIs(ss, ss);
    FindEnds(ftab, ss, copyStart, copyEnd, b);
    assert forall t: byte {:trigger copyStart[..][t]} :: copyStart[..][t] == copyStart[t];
    UpStart(g, b, ss, done, copyStart[..]);
    ScanSpots(b, ss);
    ghost var t0 := ftab[..];
    assert ftab[ss as nat * 256] == t0[ss as nat * 256] && ftab[(ss as nat + 1) * 256] == t0[(ss as nat + 1) * 256];
    ghost var lside, rside := SideOf(g, b, true, ss), SideOf(g, b, false, ss);
    ghost var lsrc :=
      ScanUp(ptr, block, bigDone, copyStart, Clear(ftab[ss as nat * 256]), nblock, b, ss, lside, NoLists());
    ghost var f1 := ptr[..];
    if Uniform(b) { OneByteScan(g, f1, b, true, ss, done, lside, lsrc, |lsrc|); }
    assert forall t: byte {:trigger copyEnd[..][t]} :: copyEnd[..][t] == copyEnd[t];
    DownStart(g, f1, b, ss, done, copyEnd[..], lside, lsrc);
    ghost var rsrc :=
      ScanDown(ptr, block, bigDone, copyEnd, Clear(ftab[(ss as nat + 1) * 256]) as int - 1, nblock, b, ss, rside,
               Lists(lsrc, b));
    if Uniform(b) { OneByteScan(f1, ptr[..], b, false, ss, done, rside, rsrc, |rsrc|); }
    ScannedClose(g, f1, ptr[..], b, ss, done, lside, lsrc, rside, rsrc);
    Meet(g, f1, ptr[..], b, ss, done, lside, lsrc, rside, rsrc, copyStart[..], copyEnd[..]);
  }

  // ----- the big bucket is done

  /** All small buckets [j, c] with j below t have been marked. */
  ghost predicate ColumnMarked(ftab0: seq<nat>, ftab: seq<nat>, c: byte, t: int) {
    && |ftab0| == |ftab| == 65537
    && (forall s {:trigger ftab[s]} :: 0 <= s <= 65536 ==> Clear(ftab[s]) == Clear(ftab0[s]))
    && (forall s {:trigger ftab[s]} :: 0 <= s < 65536 ==>
        (IsSet(ftab[s]) <==> IsSet(ftab0[s]) || (s % 256 == c && s / 256 < t)))
  }

  lemma {:induction false} ColumnStart(ftab: seq<nat>, c: byte)
    requires |ftab| == 65537
    ensures ColumnMarked(ftab, ftab, c, 0)
  {
  }

  lemma {:induction false} ColumnNext(ftab0: seq<nat>, ftab: seq<nat>, c: byte, t: byte)
    requires ColumnMarked(ftab0, ftab, c, t)
      && (forall s {:trigger ftab0[s]} :: 0 <= s <= 65536 ==> |ftab0| == 65537 && Clear(ftab0[s]) < SETMASK)
    ensures |ftab| == 65537 && ColumnMarked(ftab0, ftab[Key(t, c) := WithMask(ftab[Key(t, c)])], c, t + 1)
  {
    var k := Key(t, c);
    var ftab' := ftab[k := WithMask(ftab[k])];
    forall s | 0 <= s < 65536 ensures IsSet(ftab'[s]) <==> IsSet(ftab0[s]) || (s % 256 == c && s / 256 < t as int + 1) {
      if s != k { assert !(s % 256 == c && s / 256 == t); }
    }
  }

  lemma {:induction false} SmallStarts(ftab: seq<nat>, b: seq<byte>)
    requires Starts(ftab, b)
    ensures |ftab| == 65537 && forall s {:trigger ftab[s]} :: 0 <= s <= 65536 ==> Clear(ftab[s]) < SETMASK
  {
    hide Start, Clear;
  }

  /** The marks after step 2 are right. */
  lemma {:induction false} BigDone(g: seq<nat>, f: seq<nat>, b: seq<byte>, ftab0: seq<nat>, ftab: seq<nat>,
                                   done: seq<bool>, c: byte)
    requires Sorting(g, b, ftab0, done) && MarkedUpto(ftab0, c, 256) && Finished(g, f, b, c, done)
      && ColumnMarked(ftab0, ftab, c, 256)
    ensures |done| == 256 && Sorting(f, b, ftab, done[c := true])
  {
    hide Start, Bucketed, SmallSorted, Leaves, Clear, IsSet;
    forall s | 0 <= s < 65536 && IsSet(ftab[s]) ensures SmallSorted(f, b, s) {
      KeyOf(s);
      if s % 256 == c && !done[s / 256] {
        assert SmallSorted(f, b, Key(s / 256, c));
      } else {
        assert IsSet(ftab0[Key(s / 256, s % 256)]);
        BucketLeft(g, f, b, c, done, s);
      }
    }
    forall x: byte, t: byte | done[c := true][x] || done[c := true][t] ensures IsSet(ftab[Key(x, t)]) {
      if t != c && !done[t] && x == c { assert IsSet(ftab0[Key(c, t)]); }
      KeyOf(Key(x, t));
    }
  }

  lemma {:induction false} KeyOf(s: nat)
    requires s < 65536
    ensures s == Key(s / 256, s % 256)
  {
  }

  lemma {:induction false} BucketLeft(g: seq<nat>, f: seq<nat>, b: seq<byte>, c: byte, done: seq<bool>, s: nat)
    requires Bucketed(g, b) && Leaves(g, f, b, c, done) && |done| == 256 && s < 65536 && (s % 256 != c || done[s / 256])
    requires |b| > 0 && SmallSorted(g, b, s)
    ensures SmallSorted(f, b, s)
  {
    hide Start, Two, Bucketed, SmallSorted;
    BucketedPlaced(g, b);
    forall q | Start(b, s) <= q < Start(b, s + 1) && 0 <= q < |g| ensures f[q] == g[q] {
      TwoIn(g, b, 0, 0, q);
      OneBucket(b, s, Two(b, g[q]), q);
    }
    SameSorted(g, f, b, s);
  }

  /** Marks the small buckets that end in ss. */
  method MarkColumn(ftab: array<nat>, ss: byte)
    requires ftab.Length == 65537 && forall s {:trigger ftab[..][s]} :: 0 <= s <= 65536 ==> Clear(ftab[..][s]) < SETMASK
    modifies ftab
    ensures ColumnMarked(old(ftab[..]), ftab[..], ss, 256)
  {
    hide *;
    ghost var g := ftab[..];
    ColumnStart(g, ss);
    var j := 0;
    while j <= 255
      invariant 0 <= j <= 256 && ColumnMarked(g, ftab[..], ss, j)
    {
      ghost var h := ftab[..];
      ColumnNext(g, h, ss, j);
      KeyIs(j, ss);
      var sb := j * 256 + ss as nat;
      ftab[sb] := WithMask(ftab[sb]);
      assert ftab[..] == h[sb := WithMask(h[sb])];
      j := j + 1;
    }
  }

  // ----- the main loop

  /** The big buckets done are those already taken from the running order. */
  ghost predicate Taken(order: seq<nat>, done: seq<bool>, i: int) {
    && |order| == 256 == |done| && IsPermutation(order)
    && forall k {:trigger order[k]} :: 0 <= k < 256 ==> (done[order[k]] <==> k < i)
  }

  lemma {:induction false} TakeNext(order: seq<nat>, done: seq<bool>, i: nat)
    requires Taken(order, done, i) && i < 256
    ensures |order| == 256 == |done| && order[i] < 256 && !done[order[i]]
    ensures Taken(order, done[order[i] := true], i + 1)
  {
  }

  lemma {:induction false} TakenAll(order: seq<nat>, done: seq<bool>)
    requires Taken(order, done, 256)
    ensures |done| == 256 && forall c: byte {:trigger done[c]} :: done[c]
  {
    forall c: byte ensures done[c] {
      PermutationHits(order, c);
      var k :| 0 <= k < |order| && order[k] == c;
      assert done[order[k]];
    }
  }

  /** A finished big bucket is sorted throughout. */
  lemma {:induction false} BigSorted(f: seq<nat>, b: seq<byte>, ftab: seq<nat>, done: seq<bool>, c: byte)
    requires Sorting(f, b, ftab, done) && |done| == 256 && done[c] && |b| > N_OVERSHOOT
    ensures Start(b, BigKey(c as nat)) <= Start(b, BigKey(c as nat + 1))
    ensures QuadrantUpdate.BigBucket(f, b, c, Start(b, BigKey(c as nat)),
                                     Start(b, BigKey(c as nat + 1)) - Start(b, BigKey(c as nat)))
  {
    hide Start, Two, Bucketed, SmallSorted, IsSet, Clear, MainSimpleSort.InOrder;
    BucketedPlaced(f, b);
    BigBounds(b, c);
    forall s | BigKey(c as nat) <= s < BigKey(c as nat + 1) ensures SmallSorted(f, b, s) {
      KeyOf(s);
      assert IsSet(ftab[Key(c, s % 256)]);
    }
    StretchSorted(f, b, BigKey(c as nat), BigKey(c as nat + 1));
    var base, end := Start(b, BigKey(c as nat)), Start(b, BigKey(c as nat + 1));
    forall p | base <= p < end ensures f[p] < |b| && b[f[p]] == c {
      TwoIn(f, b, BigKey(c as nat), BigKey(c as nat + 1), p);
      FirstByte(b, f[p]);
    }
    forall x | 0 <= x < |b| && b[x] == c ensures exists p :: base <= p < end && f[p] == x {
      PermutationHits(f, x);
      var p :| 0 <= p < |f| && f[p] == x;
      TwoIn(f, b, 0, 0, p);
      FirstByte(b, x);
      StartMonotone(b, BigKey(c as nat), Two(b, x));
      StartMonotone(b, Two(b, x) + 1, BigKey(c as nat + 1));
    }
  }

  lemma {:induction false} FirstByte(b: seq<byte>, x: nat)
    requires x < |b|
    ensures Two(b, x) / 256 == b[x]
  {
    SecondByte(b, x);
  }

  /** When all big buckets are done, all rotations are in order. */
  lemma {:induction false} AllSorted(f: seq<nat>, b: seq<byte>, ftab: seq<nat>, done: seq<bool>)
    requires Sorting(f, b, ftab, done) && |done| == 256 && forall c: byte {:trigger done[c]} :: done[c]
    ensures |b| > 0 && SortedRotations(b, f)
  {
    hide Start, Two, Bucketed, SmallSorted, IsSet, Clear, Cmp;
    BucketedPlaced(f, b);
    forall s | 0 <= s < 65536 ensures SmallSorted(f, b, s) {
      KeyOf(s);
      assert done[(s / 256) as byte];
      assert IsSet(ftab[Key(s / 256, s % 256)]);
    }
    StretchSorted(f, b, 0, 65536);
    StartNext(b, 0);
    forall x, y | 0 <= x < y < |f| ensures Cmp(b, f[x], f[y], |b|) <= 0 {
      assert MainSimpleSort.Order(f, b, x, y) <= 0;
    }
  }

  /** Right after the radix sort nothing is marked. */
  lemma {:induction false} RadixDone(f: seq<nat>, b: seq<byte>, ftab: seq<nat>, done: seq<bool>)
    requires Bucketed(f, b) && 0 < |b| <= 900_000 && |ftab| == 65537 && |done| == 256
    requires forall s {:trigger ftab[s]} :: 0 <= s <= 65536 ==> ftab[s] == Start(b, s)
    requires forall c {:trigger done[c]} :: 0 <= c < 256 ==> !done[c]
    ensures Sorting(f, b, ftab, done)
  {
    hide Start, Bucketed, SmallSorted;
  }

  ghost function SizeOf(b: seq<byte>, c: nat): nat
    requires |b| > 0
  {
    StartMonotone(b, c * 256, (c + 1) * 256);
    Start(b, (c + 1) * 256) - Start(b, c * 256)
  }

  /** How many rotations start with each byte. */
  ghost function Sizes(b: seq<byte>): (e: seq<nat>)
    requires |b| > 0
    ensures |e| == 256 && forall c {:trigger e[c]} :: 0 <= c < 256 ==>
      e[c] == Start(b, (c + 1) * 256) - Start(b, c * 256)
  {
    hide Start;
    seq(256, c requires 0 <= c < 256 => SizeOf(b, c))
  }

  lemma {:induction false} FreshTables(block: seq<byte>, quadrant: seq<u16>, b: seq<byte>)
    requires N_OVERSHOOT < |b| <= 900_000 && |block| >= |b| + N_OVERSHOOT && |quadrant| >= |b| + N_OVERSHOOT
    requires block[..|b|] == b && forall x {:trigger block[x]} :: 0 <= x < N_OVERSHOOT ==> block[|b| + x] == b[x]
    requires forall x {:trigger quadrant[x]} :: 0 <= x < |b| + N_OVERSHOOT ==> quadrant[x] == 0
    ensures MainSimpleSort.Tables(block, quadrant, b)
  {
    forall x | 0 <= x < |b| + N_OVERSHOOT ensures block[x] == b[if x < |b| then x else x - |b|] {
      if x < |b| { assert block[..|b|][x] == b[x]; } else { assert block[x - |b|] == block[..|b|][x - |b|]; }
    }
  }

  lemma {:induction false} TablesOpen(block: seq<byte>, quadrant: seq<u16>, b: seq<byte>)
    ensures MainSimpleSort.Tables(block, quadrant, b) <==>
      Overshot(block, b) && Quadrants(quadrant, b) && 0 < |b| <= 900_000
    ensures N_OVERSHOOT == 34
  {
  }

  /** The overshoot area behind the block, and quadrants that say nothing yet. */
  method Prepare(block: array<byte>, quadrant: array<u16>, nblock: nat, ghost b: seq<byte>)
    requires 34 < nblock == |b| <= 900_000 && block.Length >= nblock + 34 && quadrant.Length >= nblock + 34
    requires block as object != quadrant && block[..nblock] == b
    modifies block, quadrant
    ensures block[..nblock] == b && MainSimpleSort.Tables(block[..], quadrant[..], b)
  {
    hide Quadrants, Overshot, MainSimpleSort.Tables;
    ghost var b0 := block[..];
    var i := 0;
    while i < nblock
      invariant 0 <= i <= nblock && forall x :: 0 <= x < i ==> quadrant[x] == 0
      modifies quadrant
    {
      quadrant[i] := 0;
      i := i + 1;
    }
    i := 0;
    while i < N_OVERSHOOT
      invariant 0 <= i <= N_OVERSHOOT && forall x :: 0 <= x < nblock + i ==> quadrant[x] == 0
      invariant forall x :: 0 <= x < nblock ==> block[x] == b0[x]
      invariant forall x {:trigger block[x]} :: nblock <= x < nblock + i ==> block[x] == b0[x - nblock]
    {
      block[nblock + i] := block[i];
      quadrant[nblock + i] := 0;
      i := i + 1;
    }
    assert block[..nblock] == b0[..nblock] == b;
    forall x | 0 <= x < N_OVERSHOOT ensures block[..][nblock + x] == b[x] { assert b0[..nblock][x] == b0[x]; }
    FreshTables(block[..], quadrant[..], b);
  }

  /** The radix sort and the running order. */
  method Initialise(ptr: array<nat>, block: array<byte>, quadrant: array<u16>, ftab: array<nat>,
                    runningOrder: array<nat>, bigDone: array<bool>, nblock: nat, ghost b: seq<byte>)
    requires 34 < nblock == |b| <= 900_000 && block.Length >= nblock + 34 && quadrant.Length >= nblock + 34
      && ptr.Length == nblock && ftab.Length == 65537
    requires block as object != quadrant && ptr != ftab && runningOrder != ftab && runningOrder != ptr
      && block[..nblock] == b
    requires ptr as object != block && ptr as object != quadrant && ftab as object != block
      && ftab as object != quadrant
    requires runningOrder as object != block && runningOrder as object != quadrant
    requires bigDone as object != block && bigDone as object != quadrant && bigDone as object != ptr
      && bigDone as object != ftab && bigDone as object != runningOrder
    requires runningOrder.Length == 256 == bigDone.Length
    modifies ptr, block, quadrant, ftab, runningOrder, bigDone
    ensures block[..nblock] == b && MainSimpleSort.Tables(block[..], quadrant[..], b)
    ensures Sorting(ptr[..], b, ftab[..], bigDone[..]) && Taken(runningOrder[..], bigDone[..], 0)
    ensures SortStack.SortedBy(runningOrder[..], Sizes(b), 0, 256)
    ensures Uniform(b) ==> ptr[..] == CountingUp(nblock)
  {
    hide Quadrants, Overshot, MainSimpleSort.Tables, Start, Count, Tops, Bucketed, Sorting, SortStack.SortedBy;
    CountPairs(block, ftab, nblock, b);
    Prepare(block, quadrant, nblock, b);
    ghost var bytes, quad := block[..], quadrant[..];
    SumPairs(ftab, b);
    ScatterPairs(block, ftab, ptr, nblock, b);
    ghost var f := ptr[..];
    var i := 0;
    while i <= 255
      invariant 0 <= i <= 256 && forall c :: 0 <= c < i ==> !bigDone[c]
      modifies bigDone
    {
      bigDone[i] := false;
      i := i + 1;
    }
    assert ptr[..] == f;
    RadixDone(f, b, ftab[..], bigDone[..]);
    ghost var t := ftab[..];
    ghost var e := Sizes(b);
    forall c | 0 <= c < 256 ensures ftab[(c + 1) * 256] == ftab[c * 256] + e[c] {
      assert ftab[(c + 1) * 256] == Start(b, (c + 1) * 256) && ftab[c * 256] == Start(b, c * 256);
    }
    RunningOrder.Order(ftab, runningOrder, e);
    assert ptr[..] == f && ftab[..] == t && block[..] == bytes && quadrant[..] == quad;
  }

  /** All three steps for one big bucket. */
  method DoBigBucket(ptr: array<nat>, block: array<byte>, quadrant: array<u16>, ftab: array<nat>, bigDone: array<bool>,
                     ss: byte, last: bool, nblock: nat,
                     copyStart: array<int>, copyEnd: array<int>, budget: int, ghost b: seq<byte>)
    returns (budget': int)
    requires nblock == |b| <= block.Length && block[..nblock] == b && bigDone.Length == 256 && !bigDone[ss]
      && budget >= 0
    requires Sorting(ptr[..], b, ftab[..], bigDone[..]) && MainSimpleSort.Tables(block[..], quadrant[..], b)
    requires copyStart.Length == 256 == copyEnd.Length && copyStart != copyEnd && ptr != ftab
    requires copyStart as object != ftab && copyEnd as object != ftab && copyStart as object != ptr
      && copyEnd as object != ptr
    requires ptr as object != block && ptr as object != quadrant && ftab as object != block
      && ftab as object != quadrant
    requires block as object != quadrant && block as object != copyStart && block as object != copyEnd
      && quadrant as object != copyStart && quadrant as object != copyEnd
    requires bigDone as object != ptr && bigDone as object != ftab && bigDone as object != copyStart
      && bigDone as object != copyEnd && bigDone as object != quadrant && bigDone as object != block
    modifies ptr, quadrant, ftab, bigDone, copyStart, copyEnd
    ensures budget' >= 0 ==>
      Sorting(ptr[..], b, ftab[..], bigDone[..]) && (!last ==> MainSimpleSort.Tables(block[..], quadrant[..], b))
    ensures budget' >= 0 ==> bigDone[..] == old(bigDone[..])[ss := true]
    ensures Uniform(b) ==> budget' == budget && ptr[..] == old(ptr[..])
    ensures Unrepeated(b) ==> budget' == budget
  {
    hide *;
    ghost var done := bigDone[..];
    SortingSize(ptr[..], b, ftab[..], done);
    budget' := SortSmallBuckets(ptr, block, quadrant, ftab, nblock, ss, budget, b, done);
    if budget' < 0 { return; }
    ghost var g, t0 := ptr[..], ftab[..];
    ScanBigBucket(ptr, block, ftab, bigDone, ss, nblock, copyStart, copyEnd, b);
    assert copyStart[ss] - 1 == copyEnd[ss] || (copyStart[ss] == 0 && copyEnd[ss] == nblock - 1);
    SortingOpen(g, b, t0, done);
    SmallStarts(t0, b);
    MarkColumn(ftab, ss);
    BigDone(g, ptr[..], b, t0, ftab[..], done, ss);
    bigDone[ss] := true;
    assert bigDone[..] == done[ss := true];
    if !last {
      ghost var t1 := ftab[..];
      SortingSize(ptr[..], b, t1, bigDone[..]);
      TablesOpen(block[..], quadrant[..], b);
      KeyIs(ss, 0);
      OvershootIs(block[..], b);
      BigSorted(ptr[..], b, t1, bigDone[..], ss);
      assert ftab[ss as nat * 256] == t1[ss as nat * 256] && ftab[(ss as nat + 1) * 256] == t1[(ss as nat + 1) * 256];
      var bbStart := Clear(ftab[ss as nat * 256]);
      var bbSize := Clear(ftab[(ss as nat + 1) * 256]) - bbStart;
      QuadrantUpdate.Update(ptr, quadrant, nblock, bbStart, bbSize, b, ss);
      TablesOpen(block[..], quadrant[..], b);
    }
  }

  lemma {:induction false} OvershootIs(block: seq<byte>, b: seq<byte>)
    requires Overshot(block, b)
    ensures |b| > N_OVERSHOOT
  {
  }

  /**
   * If the budget lasts, ptr lists the rotations of the block in nondescending order. It lasts if the block is one byte
   * repeated, and if no 20 bytes occur twice in it.
   */
  method Sort(ptr: array<nat>, block: array<byte>, quadrant: array<u16>, ftab: array<nat>, nblock: nat, budget: int)
    returns (budget': int)
    requires 34 < nblock <= 900_000 && block.Length >= nblock + 34 && quadrant.Length >= nblock + 34
      && ptr.Length == nblock && ftab.Length == 65537
    requires block as object != quadrant && ptr != ftab && ptr as object != block && ptr as object != quadrant
      && ftab as object != block && ftab as object != quadrant
    requires budget >= 0
    modifies ptr, block, quadrant, ftab
    ensures block[..nblock] == old(block[..nblock])
    ensures budget' >= 0 ==> SortedRotations(block[..nblock], ptr[..])
    ensures Uniform(block[..nblock]) ==> budget' == budget && ptr[..] == CountingUp(nblock)
    ensures Unrepeated(block[..nblock]) ==> budget' == budget
  {
    hide *;
    ghost var b := block[..nblock];
    var runningOrder := new nat[256];
    var bigDone := new bool[256];
    var copyStart := new int[256];
    var copyEnd := new int[256];
    Initialise(ptr, block, quadrant, ftab, runningOrder, bigDone, nblock, b);
    budget' := budget;
    var i := 0;
    while i <= 255
      invariant 0 <= i <= 256 && budget' >= 0 && block[..nblock] == b
      invariant Sorting(ptr[..], b, ftab[..], bigDone[..]) && Taken(runningOrder[..], bigDone[..], i)
      invariant i <= 255 ==> MainSimpleSort.Tables(block[..], quadrant[..], b)
      invariant Uniform(b) ==> budget' == budget && ptr[..] == CountingUp(nblock)
      invariant Unrepeated(b) ==> budget' == budget
    {
      ghost var order, done := runningOrder[..], bigDone[..];
      TakeNext(order, done, i);
      assert runningOrder[i] == order[i];
      var ss := runningOrder[i];
      assert !bigDone[..][ss];
      budget' := DoBigBucket(ptr, block, quadrant, ftab, bigDone, ss, i == 255, nblock, copyStart, copyEnd, budget', b);
      if budget' < 0 { return; }
      i := i + 1;
    }
    TakenAll(runningOrder[..], bigDone[..]);
    AllSorted(ptr[..], b, ftab[..], bigDone[..]);
  }
}
