/** The two scans of step 2 meet: together they sort every small bucket they write to. */
module BucketMeet {
  import opened Bytes
  import opened Rotations
  import opened TwoByteBuckets
  import opened ScanLists
  import opened BucketScan
  import MainSimpleSort

  ghost predicate SmallSorted(f: seq<nat>, b: seq<byte>, s: nat)
    requires |b| > 0
  {
    MainSimpleSort.InOrder(f, b, Start(b, s), Start(b, s + 1))
  }

  /** The small buckets (c, j) with j other than c are sorted. */
  ghost predicate OthersSorted(f: seq<nat>, b: seq<byte>, c: byte) {
    |b| > 0 && forall j: byte {:trigger Key(c, j)} :: j != c ==> SmallSorted(f, b, Key(c, j))
  }

  lemma {:induction false} BucketedPlaced(f: seq<nat>, b: seq<byte>)
    requires Bucketed(f, b)
    ensures Placed(f, b) && IsPermutation(f) && |f| == |b| > 0
  {
  }

  /** A position between the starts of two buckets holds a rotation of a bucket in between. */
  lemma {:induction false} TwoIn(f: seq<nat>, b: seq<byte>, lo: nat, hi: nat, q: int)
    requires Placed(f, b) && 0 <= q < |f|
    ensures f[q] < |b| && |b| > 0 && Start(b, Two(b, f[q])) <= q < Start(b, Two(b, f[q]) + 1)
    ensures Start(b, lo) <= q ==> lo <= Two(b, f[q])
    ensures q < Start(b, hi) ==> Two(b, f[q]) < hi
  {
    hide Start, Two;
    assert InBucket(b, f[q], q);
    var s := Two(b, f[q]);
    if s < lo { StartMonotone(b, s + 1, lo); }
    if hi <= s { StartMonotone(b, hi, s); }
  }

  function SideOf(f: seq<nat>, b: seq<byte>, up: bool, c: byte): (side: seq<nat>)
    requires |f| == |b| > 0
    ensures |side| == SideSize(b, up, c)
    ensures forall i {:trigger side[i]} :: 0 <= i < |side| ==>
      0 <= BigSpot(b, up, c, i) < |f| && side[i] == f[BigSpot(b, up, c, i)]
  {
    hide Start;
    BigBounds(b, c);
    seq(SideSize(b, up, c), i requires 0 <= i < SideSize(b, up, c) => f[BigSpot(b, up, c, i)])
  }

  lemma {:induction false} SideKeys(f: seq<nat>, b: seq<byte>, up: bool, c: byte, i: nat)
    requires Placed(f, b) && |f| == |b| && i < |SideOf(f, b, up, c)|
    ensures var x := SideOf(f, b, up, c)[i]; x < |b| && b[x] == c && if up then Cyc(b, x + 1) < c else Cyc(b, x + 1) > c
  {
    hide Start, Cyc;
    var q := BigSpot(b, up, c, i);
    assert SideOf(f, b, up, c)[i] == f[q];
    BigBounds(b, c);
    if up { TwoIn(f, b, BigKey(c as nat), Key(c, c), q); } else { TwoIn(f, b, Key(c, c) + 1, BigKey(c as nat + 1), q); }
    CycHere(b, f[q]);
  }

  lemma {:induction false} CycHere(b: seq<byte>, x: nat)
    requires x < |b|
    ensures Cyc(b, x) == b[x]
  {
  }

  lemma {:induction false} SideBeyond(f: seq<nat>, b: seq<byte>, up: bool, c: byte)
    requires Placed(f, b) && |f| == |b|
    ensures Beyond(SideOf(f, b, up, c), b, up, c)
  {
    hide SideOf, Cyc;
    var side := SideOf(f, b, up, c);
    forall i | 0 <= i < |side|
      ensures side[i] < |b| && b[side[i]] == c && if up then Cyc(b, side[i] + 1) < c else Cyc(b, side[i] + 1) > c {
      SideKeys(f, b, up, c, i);
    }
  }

  lemma {:induction false} SideHasAll(f: seq<nat>, b: seq<byte>, up: bool, c: byte)
    requires Bucketed(f, b) && |f| == |b|
    ensures HasSide(SideOf(f, b, up, c), b, up, c)
  {
    hide Start, Cyc, Bucketed, SideOf;
    BucketedPlaced(f, b);
    var side := SideOf(f, b, up, c);
    forall x: nat | x < |b| && b[x] == c && (if up then Cyc(b, x + 1) < c else Cyc(b, x + 1) > c) ensures x in side {
      PermutationHits(f, x);
      var q :| 0 <= q < |f| && f[q] == x;
      CycHere(b, x);
      SideIndex(f, b, up, c, q);
    }
  }

  lemma {:induction false} SideIndex(f: seq<nat>, b: seq<byte>, up: bool, c: byte, q: nat)
    requires Placed(f, b) && q < |f| && f[q] < |b| == |f| && b[f[q]] == c
      && (if up then Cyc(b, f[q] + 1) < c else Cyc(b, f[q] + 1) > c)
    ensures f[q] in SideOf(f, b, up, c)
  {
    hide Start, Cyc, SideOf, Placed;
    CycHere(b, f[q]);
    TwoIn(f, b, 0, 0, q);
    var s := Two(b, f[q]);
    var side := SideOf(f, b, up, c);
    BigBounds(b, c);
    if up {
      StartMonotone(b, BigKey(c as nat), s);
      StartMonotone(b, s + 1, Key(c, c));
      assert side[q - Start(b, BigKey(c as nat))] == f[q];
    } else {
      StartMonotone(b, Key(c, c) + 1, s);
      StartMonotone(b, s + 1, BigKey(c as nat + 1));
      assert side[Start(b, BigKey(c as nat + 1)) - 1 - q] == f[q];
    }
  }

  /** Sorted small buckets next to each other make a sorted stretch. */
  lemma {:induction false} StretchSorted(f: seq<nat>, b: seq<byte>, lo: nat, hi: nat)
    requires Placed(f, b) && |b| > 0 && forall s {:trigger SmallSorted(f, b, s)} :: lo <= s < hi ==>
      SmallSorted(f, b, s)
    ensures MainSimpleSort.InOrder(f, b, Start(b, lo), Start(b, hi))
  {
    hide Start, Two, Cmp;
    StartNext(b, 0);
    StartMonotone(b, 0, lo);
    StartMonotone(b, 0, hi);
    forall p, q | Start(b, lo) <= p < q < Start(b, hi) ensures MainSimpleSort.Order(f, b, p, q) <= 0 {
      if p >= 0 && q < |f| {
        TwoIn(f, b, lo, hi, p);
        TwoIn(f, b, lo, hi, q);
        var s, t := Two(b, f[p]), Two(b, f[q]);
        if s == t {
          assert SmallSorted(f, b, s);
          assert MainSimpleSort.Order(f, b, p, q) <= 0;
        } else {
          TwoIn(f, b, s, 0, q);
          BucketsOrder(b, f[p], f[q]);
        }
      }
    }
  }

  lemma {:induction false} SideInOrder(f: seq<nat>, b: seq<byte>, up: bool, c: byte)
    requires Bucketed(f, b) && OthersSorted(f, b, c) && |f| == |b|
    ensures Ordered(SideOf(f, b, up, c), b, up) && Distinct(SideOf(f, b, up, c))
  {
    hide Start, Cmp, Bucketed, SideOf, SmallSorted;
    BucketedPlaced(f, b);
    BigBounds(b, c);
    var side := SideOf(f, b, up, c);
    var lo, hi := if up then BigKey(c as nat) else Key(c, c) + 1, if up then Key(c, c) else BigKey(c as nat + 1);
    forall s | lo <= s < hi ensures SmallSorted(f, b, s) {
      assert s == Key(c, (s - c as nat * 256) as byte);
    }
    StretchSorted(f, b, lo, hi);
    forall i, j | 0 <= i < j < |side| ensures side[i] != side[j] && Leq(b, up, side[i], side[j]) {
      var p, q := BigSpot(b, up, c, i), BigSpot(b, up, c, j);
      assert side[i] == f[p] && side[j] == f[q];
      if up {
        assert MainSimpleSort.Order(f, b, p, q) <= 0;
      } else {
        assert MainSimpleSort.Order(f, b, q, p) <= 0;
      }
    }
  }

  /** Everything is ready for a scan. */
  lemma {:induction false} ScanStart(f: seq<nat>, b: seq<byte>, up: bool, c: byte, done: seq<bool>, side: seq<nat>,
                                     cs: seq<int>)
    requires Placed(f, b) && |f| == |b| > 0 && |done| == 256 == |cs| && !done[c]
    requires Beyond(side, b, up, c) && Distinct(side) && Ordered(side, b, up)
    requires |side| == SideSize(b, up, c) && BigFilled(f, b, up, c, side)
    requires forall t: byte {:trigger cs[t]} :: cs[t] == if up then Start(b, Key(t, c)) else Start(b, Key(t, c) + 1) - 1
    ensures Scanning(f, f, b, up, c, done, side, side, 0) && Pointers(cs, b, up, c, done, side, 0)
  {
    hide Start, Beyond, Distinct, Ordered, Run, Two, Count, Placed, BigFilled;
    GrownStart(side, b, up, c);
    NoPreds(side, b);
  }

  lemma {:induction false} NoPreds(src: seq<nat>, b: seq<byte>)
    ensures forall t: byte {:trigger Preds(src, b, 0, t)} :: Preds(src, b, 0, t) == []
  {
  }

  // ----- after both scans

  /** Bucket (t, c) holds list l from its start and list r, backwards, from its end. */
  ghost predicate Both(f: seq<nat>, b: seq<byte>, t: byte, c: byte, l: seq<nat>, r: seq<nat>) {
    && Placed(f, b) && |b| > 0 && Halves(l, r, b, c, t) && |l| + |r| == Count(b, Key(t, c), |b|)
    && SmallFilled(f, b, true, t, c, l) && SmallFilled(f, b, false, t, c, r)
    && Ordered(l, b, true) && Ordered(r, b, false)
  }

  lemma {:induction false} BothEntry(f: seq<nat>, b: seq<byte>, t: byte, c: byte, l: seq<nat>, r: seq<nat>, q: int)
    requires Both(f, b, t, c, l, r) && Start(b, Key(t, c)) <= q < Start(b, Key(t, c) + 1)
    ensures 0 <= q < |f| && q - Start(b, Key(t, c)) >= 0
    ensures q - Start(b, Key(t, c)) < |l| ==> f[q] == l[q - Start(b, Key(t, c))]
    ensures q - Start(b, Key(t, c)) >= |l| ==>
      0 <= Start(b, Key(t, c) + 1) - 1 - q < |r| && f[q] == r[Start(b, Key(t, c) + 1) - 1 - q]
  {
    hide Start, Placed, Halves, Ordered, Count;
    StartNext(b, Key(t, c));
    var i := q - Start(b, Key(t, c));
    if i < |l| {
      assert l[i] == f[Spot(b, true, t, c, i)];
    } else {
      var j := Start(b, Key(t, c) + 1) - 1 - q;
      assert r[j] == f[Spot(b, false, t, c, j)];
    }
  }

  lemma {:induction false} BothSorted(f: seq<nat>, b: seq<byte>, t: byte, c: byte, l: seq<nat>, r: seq<nat>, p: int,
                                      q: int)
    requires Both(f, b, t, c, l, r) && Start(b, Key(t, c)) <= p < q < Start(b, Key(t, c) + 1)
    ensures 0 <= p < q < |f| && |b| > 0 && f[p] != f[q] && MainSimpleSort.Order(f, b, p, q) <= 0
  {
    hide Start, Cmp, Placed, SmallFilled, OfBucket, Count;
    BothEntry(f, b, t, c, l, r, p);
    BothEntry(f, b, t, c, l, r, q);
    BothLists(f, b, t, c, l, r);
    var lo, end := Start(b, Key(t, c)), Start(b, Key(t, c) + 1);
    if q - lo < |l| {
      assert l[p - lo] != l[q - lo] && Leq(b, true, l[p - lo], l[q - lo]);
    } else if p - lo < |l| {
      Across(b, t, c, l, r, p - lo, end - 1 - q);
    } else {
      assert r[end - 1 - q] != r[end - 1 - p] && Leq(b, false, r[end - 1 - q], r[end - 1 - p]);
    }
  }

  lemma {:induction false} BothLists(f: seq<nat>, b: seq<byte>, t: byte, c: byte, l: seq<nat>, r: seq<nat>)
    requires Both(f, b, t, c, l, r)
    ensures Distinct(l) && Distinct(r) && Halves(l, r, b, c, t)
  {
    hide Start, Placed, SmallFilled, Continues, Ordered, Two, Count;
  }

  lemma {:induction false} Across(b: seq<byte>, t: byte, c: byte, l: seq<nat>, r: seq<nat>, i: nat, j: nat)
    requires Halves(l, r, b, c, t) && i < |l| && j < |r|
    ensures |b| > 0 && l[i] != r[j] && Cmp(b, l[i], r[j], |b|) <= 0
  {
    hide Cmp, Kind, Two;
    assert Two(b, l[i]) == Key(t, c) == Two(b, r[j]);
    assert Kind(b, l[i] + 1, c, |b|) == Side(true) && Kind(b, r[j] + 1, c, |b|) == Side(false);
    HalvesOrder(b, c, t, l[i], r[j]);
  }

  /** Both scans have come to their ends. */
  ghost predicate Scanned(g: seq<nat>, f1: seq<nat>, f: seq<nat>, b: seq<byte>, c: byte, done: seq<bool>,
                          lside: seq<nat>, lsrc: seq<nat>, rside: seq<nat>, rsrc: seq<nat>) {
    && Bucketed(g, b)
    && Scanning(g, f1, b, true, c, done, lside, lsrc, |lsrc|) && HasSide(lside, b, true, c)
    && Scanning(f1, f, b, false, c, done, rside, rsrc, |rsrc|) && HasSide(rside, b, false, c)
  }

  lemma {:induction false} ScannedBoth(g: seq<nat>, f1: seq<nat>, f: seq<nat>, b: seq<byte>, c: byte, done: seq<bool>,
                                       lside: seq<nat>, lsrc: seq<nat>, rside: seq<nat>, rsrc: seq<nat>, t: byte)
    requires Scanned(g, f1, f, b, c, done, lside, lsrc, rside, rsrc) && |b| > 0 && Kind(b, 0, c, |b|) != 0
    requires |done| == 256 && !done[t]
    ensures Both(f, b, t, c, Preds(lsrc, b, |lsrc|, t), Preds(rsrc, b, |rsrc|, t))
  {
    hide Preds, Kind, HasSide, Placed, BigFilled, SmallFilled, Run, Beyond, Ordered, Bucketed, Distinct, Kept, Count;
    var l, r := Preds(lsrc, b, |lsrc|, t), Preds(rsrc, b, |rsrc|, t);
    HalvesMeet(lside, lsrc, rside, rsrc, b, c, t);
    RunPreds(lsrc, b, true, c, |lsrc|, t);
    RunPreds(rsrc, b, false, c, |rsrc|, t);
    LeftKept(f1, f, b, c, done, lsrc, rside, rsrc, t);
  }

  lemma {:induction false} KeptAt(f0: seq<nat>, f: seq<nat>, b: seq<byte>, up: bool, c: byte, done: seq<bool>,
                                  src: seq<nat>, m: nat, s: nat, q: int)
    requires Kept(f0, f, b, up, c, done, src, m) && 0 <= q < |f| && s < 65536 && s == Two(b, f[q])
    ensures |b| > 0 && |done| == 256 && m <= |src| && |f0| == |f|
    ensures f[q] == f0[q] || Written(b, up, c, done, src, m, s, q)
  {
    hide Two, Written;
  }

  lemma {:induction false} LeftKept(f1: seq<nat>, f: seq<nat>, b: seq<byte>, c: byte, done: seq<bool>, lsrc: seq<nat>,
                                    rside: seq<nat>, rsrc: seq<nat>, t: byte)
    requires Scanning(f1, f, b, false, c, done, rside, rsrc, |rsrc|)
    requires |done| == 256 && !done[t] && SmallFilled(f1, b, true, t, c, Preds(lsrc, b, |lsrc|, t)) && |b| > 0
    requires |Preds(lsrc, b, |lsrc|, t)| + |Preds(rsrc, b, |rsrc|, t)| == Count(b, Key(t, c), |b|)
    ensures SmallFilled(f, b, true, t, c, Preds(lsrc, b, |lsrc|, t))
  {
    hide Preds, Run, Beyond, Grown, AllFilled, BigFilled, Start, Count, Two, Placed;
    var l := Preds(lsrc, b, |lsrc|, t);
    StartNext(b, Key(t, c));
    forall i | 0 <= i < |l| ensures 0 <= Spot(b, true, t, c, i) < |f| && f[Spot(b, true, t, c, i)] == l[i] {
      var q := Spot(b, true, t, c, i);
      assert f1[q] == l[i];
      TwoIn(f, b, 0, 0, q);
      OneBucket(b, Key(t, c), Two(b, f[q]), q);
      KeptAt(f1, f, b, false, c, done, rsrc, |rsrc|, Key(t, c), q);
    }
  }

  /** Entries of other buckets, and of big buckets done before, stay. */
  lemma {:induction false} ScanLeaves(g: seq<nat>, f: seq<nat>, b: seq<byte>, up: bool, c: byte, done: seq<bool>,
                                      side: seq<nat>, src: seq<nat>, m: nat, q: nat)
    requires Scanning(g, f, b, up, c, done, side, src, m) && Placed(g, b) && |b| > 0 && |done| == 256 && q < |g|
      && g[q] < |b|
    requires Two(b, g[q]) % 256 != c || done[Two(b, g[q]) / 256]
    ensures q < |f| && f[q] == g[q]
  {
    hide Preds, Run, Beyond, Grown, AllFilled, BigFilled, Start, Count, Two, Placed;
    TwoIn(f, b, 0, 0, q);
    TwoIn(g, b, 0, 0, q);
    OneBucket(b, Two(b, g[q]), Two(b, f[q]), q);
    KeptAt(g, f, b, up, c, done, src, m, Two(b, g[q]), q);
  }

  lemma {:induction false} ScanPlaced(g: seq<nat>, f: seq<nat>, b: seq<byte>, up: bool, c: byte, done: seq<bool>,
                                      side: seq<nat>, src: seq<nat>, m: nat)
    requires Scanning(g, f, b, up, c, done, side, src, m)
    ensures Placed(f, b) && |f| == |b| > 0 && |done| == 256 && !done[c] && |g| == |f|
  {
    hide Preds, Run, Beyond, Grown, AllFilled, BigFilled, InBucket;
  }

  /** What step 2 leaves of other buckets. */
  ghost predicate Leaves(g: seq<nat>, f: seq<nat>, b: seq<byte>, c: byte, done: seq<bool>) {
    && |b| > 0 && |f| == |g| && |done| == 256
    && forall q {:trigger f[q]} ::
         0 <= q < |f| && g[q] < |b| && (Two(b, g[q]) % 256 != c || done[Two(b, g[q]) / 256]) ==> f[q] == g[q]
  }

  lemma {:induction false} ScannedLeaves(g: seq<nat>, f1: seq<nat>, f: seq<nat>, b: seq<byte>, c: byte, done: seq<bool>,
                                         lside: seq<nat>, lsrc: seq<nat>, rside: seq<nat>, rsrc: seq<nat>)
    requires Scanned(g, f1, f, b, c, done, lside, lsrc, rside, rsrc)
    ensures Leaves(g, f, b, c, done)
  {
    hide Scanning, HasSide, Bucketed, Placed, Two;
    BucketedPlaced(g, b);
    ScanPlaced(g, f1, b, true, c, done, lside, lsrc, |lsrc|);
    ScanPlaced(f1, f, b, false, c, done, rside, rsrc, |rsrc|);
    forall q: nat | q < |f| && g[q] < |b| && (Two(b, g[q]) % 256 != c || done[Two(b, g[q]) / 256])
      ensures f[q] == g[q] {
      ScanLeaves(g, f1, b, true, c, done, lside, lsrc, |lsrc|, q);
      ScanLeaves(f1, f, b, false, c, done, rside, rsrc, |rsrc|, q);
    }
  }

  /** After both scans: a permutation again, and sorted wherever the scans wrote. */
  ghost predicate Finished(g: seq<nat>, f: seq<nat>, b: seq<byte>, c: byte, done: seq<bool>) {
    && Bucketed(f, b) && Leaves(g, f, b, c, done) && |b| > 0 && |done| == 256
    && forall t: byte {:trigger done[t]} :: !done[t] ==> SmallSorted(f, b, Key(t, c))
  }

  lemma {:induction false} ScannedPermutation(g: seq<nat>, f1: seq<nat>, f: seq<nat>, b: seq<byte>, c: byte,
                                              done: seq<bool>,
                                              lside: seq<nat>, lsrc: seq<nat>, rside: seq<nat>, rsrc: seq<nat>, p: nat,
                                                q: nat)
    requires Scanned(g, f1, f, b, c, done, lside, lsrc, rside, rsrc) && |b| > 0 && Kind(b, 0, c, |b|) != 0
    requires Leaves(g, f, b, c, done) && p < q < |f|
    ensures f[p] != f[q]
  {
    hide Kind, Scanned, Bucketed, Placed, Two, InBucket;
    ScannedPlaced(g, f1, f, b, c, done, lside, lsrc, rside, rsrc);
    TwoIn(g, b, 0, 0, p); TwoIn(f, b, 0, 0, p);
    TwoIn(g, b, 0, 0, q); TwoIn(f, b, 0, 0, q);
    OneBucket(b, Two(b, g[p]), Two(b, f[p]), p);
    OneBucket(b, Two(b, g[q]), Two(b, f[q]), q);
    var s := Two(b, f[p]);
    if s == Two(b, f[q]) {
      if s % 256 == c && !done[s / 256] {
        var t: byte := s / 256;
        ScannedBoth(g, f1, f, b, c, done, lside, lsrc, rside, rsrc, t);
        BothSorted(f, b, t, c, Preds(lsrc, b, |lsrc|, t), Preds(rsrc, b, |rsrc|, t), p, q);
      } else {
        assert f[p] == g[p] && f[q] == g[q];
      }
    }
  }

  lemma {:induction false} ScannedPlaced(g: seq<nat>, f1: seq<nat>, f: seq<nat>, b: seq<byte>, c: byte, done: seq<bool>,
                                         lside: seq<nat>, lsrc: seq<nat>, rside: seq<nat>, rsrc: seq<nat>)
    requires Scanned(g, f1, f, b, c, done, lside, lsrc, rside, rsrc)
    ensures Placed(g, b) && IsPermutation(g) && Placed(f, b) && |g| == |f| == |b| > 0 && |done| == 256 && !done[c]
  {
    hide Scanning, HasSide, Bucketed, Placed;
    BucketedPlaced(g, b);
    ScanPlaced(g, f1, b, true, c, done, lside, lsrc, |lsrc|);
    ScanPlaced(f1, f, b, false, c, done, rside, rsrc, |rsrc|);
  }

  lemma {:induction false} ScansDone(g: seq<nat>, f1: seq<nat>, f: seq<nat>, b: seq<byte>, c: byte, done: seq<bool>,
                                     lside: seq<nat>, lsrc: seq<nat>, rside: seq<nat>, rsrc: seq<nat>)
    requires Scanned(g, f1, f, b, c, done, lside, lsrc, rside, rsrc) && |b| > 0 && Kind(b, 0, c, |b|) != 0
    ensures Finished(g, f, b, c, done)
  {
    hide Kind, Scanned, Placed, Two, Leaves, Start, Cmp;
    ScannedPlaced(g, f1, f, b, c, done, lside, lsrc, rside, rsrc);
    ScannedLeaves(g, f1, f, b, c, done, lside, lsrc, rside, rsrc);
    forall p, q | 0 <= p < q < |f| ensures f[p] != f[q] {
      ScannedPermutation(g, f1, f, b, c, done, lside, lsrc, rside, rsrc, p, q);
    }
    forall q | 0 <= q < |f| ensures InBucket(b, f[q], q) { TwoIn(f, b, 0, 0, q); }
    forall t: byte | !done[t] ensures SmallSorted(f, b, Key(t, c)) {
      ScannedBoth(g, f1, f, b, c, done, lside, lsrc, rside, rsrc, t);
      forall p, q | Start(b, Key(t, c)) <= p < q < Start(b, Key(t, c) + 1)
        ensures MainSimpleSort.Order(f, b, p, q) <= 0 {
        BothSorted(f, b, t, c, Preds(lsrc, b, |lsrc|, t), Preds(rsrc, b, |rsrc|, t), p, q);
      }
    }
  }

  // ----- one byte repeated: nothing to scan

  lemma {:induction false} OneByte(b: seq<byte>, c: byte, x: nat, h: nat, y: nat)
    requires |b| > 0 && Kind(b, 0, c, |b|) == 0
    ensures Cmp(b, x, y, h) == 0 && Kind(b, x, c, |b|) == 0
    decreases h
  {
    hide Kind, Cyc;
    AllSame(b, 0, c, x, |b|);
    EverySame(b, 0, c, x);
    EverySame(b, 0, c, y);
    if h > 0 { OneByte(b, c, x + 1, h - 1, y + 1); }
  }

  lemma {:induction false} OneByteIdle(g: seq<nat>, f: seq<nat>, b: seq<byte>, up: bool, c: byte, done: seq<bool>,
                                       side: seq<nat>, src: seq<nat>)
    requires Scanning(g, f, b, up, c, done, side, src, |src|) && |b| > 0 && Kind(b, 0, c, |b|) == 0
    ensures src == [] && f == g
  {
    hide Kind, Start, Placed, AllFilled, BigFilled, Beyond, Ordered, Distinct;
    if |src| > 0 {
      assert Kind(b, src[0], c, |b|) == Side(up);
      OneByte(b, c, src[0], 0, 0);
      assert false;
    }
    NoPreds(src, b);
    forall q | 0 <= q < |f| ensures f[q] == g[q] {
      IdleAt(g, f, b, up, c, done, src, q);
    }
  }

  lemma {:induction false} IdleAt(g: seq<nat>, f: seq<nat>, b: seq<byte>, up: bool, c: byte, done: seq<bool>,
                                  src: seq<nat>, q: nat)
    requires Kept(g, f, b, up, c, done, src, 0) && q < |f| && Placed(f, b)
    ensures f[q] == g[q]
  {
    hide Start, Two, Placed;
    NoPreds(src, b);
    TwoIn(f, b, 0, 0, q);
    KeptAt(g, f, b, up, c, done, src, 0, Two(b, f[q]), q);
  }

  lemma {:induction false} ScansIdle(g: seq<nat>, f1: seq<nat>, f: seq<nat>, b: seq<byte>, c: byte, done: seq<bool>,
                                     lside: seq<nat>, lsrc: seq<nat>, rside: seq<nat>, rsrc: seq<nat>)
    requires Scanned(g, f1, f, b, c, done, lside, lsrc, rside, rsrc) && |b| > 0 && Kind(b, 0, c, |b|) == 0
    ensures Finished(g, f, b, c, done) && lsrc == [] && rsrc == []
  {
    hide Kind, Cmp, Scanning, HasSide, Bucketed, Leaves, Start;
    ScannedLeaves(g, f1, f, b, c, done, lside, lsrc, rside, rsrc);
    ScannedPlaced(g, f1, f, b, c, done, lside, lsrc, rside, rsrc);
    OneByteIdle(g, f1, b, true, c, done, lside, lsrc);
    OneByteIdle(f1, f, b, false, c, done, rside, rsrc);
    forall x, y ensures MainSimpleSort.Order(f, b, x, y) <= 0 {
      if 0 <= x < |f| && 0 <= y < |f| { OneByte(b, c, f[x], |b|, f[y]); }
    }
  }
}
