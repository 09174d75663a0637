/** Step 2 of mainSort: one scan of a sorted big bucket sorts every small bucket that ends in its byte. */
module BucketScan {
  import opened Bytes
  import opened Rotations
  import opened TwoByteBuckets
  import opened ScanLists

  function Key(t: byte, c: byte): (s: nat)
    ensures s < 65536 && s / 256 == t && s % 256 == c
  {
    t as nat * 256 + c as nat
  }

  function BigKey(c: nat): nat {
    c * 256
  }

  /** Position i of the stretch [lo, end), counted from its start (up) or from its end. */
  function At(up: bool, lo: int, end: int, i: int): int {
    if up then lo + i else end - 1 - i
  }

  function Index(up: bool, lo: int, end: int, q: int): int {
    if up then q - lo else end - 1 - q
  }

  function Spot(b: seq<byte>, up: bool, t: byte, c: byte, i: int): int
    requires |b| > 0
  {
    At(up, Start(b, Key(t, c)), Start(b, Key(t, c) + 1), i)
  }

  /** Position i of the big bucket c. */
  function BigSpot(b: seq<byte>, up: bool, c: byte, i: int): int
    requires |b| > 0
  {
    At(up, Start(b, BigKey(c as nat)), Start(b, BigKey(c as nat + 1)), i)
  }

  /** Each entry is a rotation inside its bucket. */
  ghost predicate Placed(f: seq<nat>, b: seq<byte>) {
    |b| > 0 && |f| == |b| && forall q {:trigger f[q]} :: 0 <= q < |f| ==> InBucket(b, f[q], q)
  }

  ghost predicate SmallFilled(f: seq<nat>, b: seq<byte>, up: bool, t: byte, c: byte, l: seq<nat>) {
    && |b| > 0 && |f| == |b| && |l| <= Count(b, Key(t, c), |b|)
    && forall i {:trigger l[i]} :: 0 <= i < |l| ==> 0 <= Spot(b, up, t, c, i) < |f| && f[Spot(b, up, t, c, i)] == l[i]
  }

  ghost predicate BigFilled(f: seq<nat>, b: seq<byte>, up: bool, c: byte, l: seq<nat>) {
    && |b| > 0 && |f| == |b|
    && forall i {:trigger l[i]} :: 0 <= i < |l| ==> 0 <= BigSpot(b, up, c, i) < |f| && f[BigSpot(b, up, c, i)] == l[i]
  }

  /** Position q, in bucket s, is one of those written by the scan. */
  ghost predicate Written(b: seq<byte>, up: bool, c: byte, done: seq<bool>, src: seq<nat>, m: nat, s: nat, q: int)
    requires |b| > 0 && |done| == 256 && m <= |src| && s < 65536
  {
    s % 256 == c && !done[s / 256] && Index(up, Start(b, s), Start(b, s + 1), q) < |Preds(src, b, m, s / 256)|
  }

  ghost predicate Kept(f0: seq<nat>, f: seq<nat>, b: seq<byte>, up: bool, c: byte, done: seq<bool>, src: seq<nat>,
                       m: nat) {
    && |b| > 0 && |f| == |f0| && |done| == 256 && m <= |src|
    && forall q {:trigger f[q]} :: 0 <= q < |f| ==> f[q] == f0[q] || Written(b, up, c, done, src, m, Two(b, f[q]), q)
  }

  ghost predicate AllFilled(f: seq<nat>, b: seq<byte>, up: bool, c: byte, done: seq<bool>, src: seq<nat>, m: nat) {
    && m <= |src| && |done| == 256
    && forall t: byte {:trigger done[t]} :: !done[t] ==> SmallFilled(f, b, up, t, c, Preds(src, b, m, t))
  }

  /** m entries of big bucket c read, and their predecessors written. */
  ghost predicate Scanning(f0: seq<nat>, f: seq<nat>, b: seq<byte>, up: bool, c: byte, done: seq<bool>, side: seq<nat>,
                           src: seq<nat>, m: nat) {
    && Placed(f, b) && |done| == 256 && !done[c] && Grown(side, src, b, up, c, m)
    && BigFilled(f, b, up, c, src) && AllFilled(f, b, up, c, done, src, m) && Kept(f0, f, b, up, c, done, src, m)
    && |b| > 0 && |side| == SideSize(b, up, c)
  }

  /** How many rotations start with c and go on with a smaller (up) or greater byte. */
  function SideSize(b: seq<byte>, up: bool, c: byte): int
    requires |b| > 0
  {
    if up then Start(b, Key(c, c)) - Start(b, BigKey(c as nat))
      else Start(b, BigKey(c as nat + 1)) - Start(b, Key(c, c) + 1)
  }

  /** What the opposite scan has put into the buckets, or will. */
  ghost predicate Opposite(opp: seq<seq<nat>>, b: seq<byte>, up: bool, c: byte) {
    && |opp| == 256
    && forall t: byte {:trigger opp[t]} :: OfBucket(opp[t], b, Key(t, c)) && Continues(opp[t], b, !up, c)
  }

  /** One byte repeated: no bucket holds a rotation whose second byte differs from the first. */
  lemma {:induction false} OneByteSide(b: seq<byte>, up: bool, c: byte)
    requires |b| > 0 && Uniform(b)
    ensures SideSize(b, up, c) == 0
  {
    OneByteTwo(b, 0);
    OneByteCounts(b, Key(c, c), |b|);
    OneByteCounts(b, Key(c, c) + 1, |b|);
    OneByteCounts(b, BigKey(c as nat), |b|);
    OneByteCounts(b, BigKey(c as nat + 1), |b|);
    hide Two, Below, Count, Uniform;
  }

  lemma {:induction false} OneByteScan(f0: seq<nat>, f: seq<nat>, b: seq<byte>, up: bool, c: byte, done: seq<bool>,
                                       side: seq<nat>, src: seq<nat>, m: nat)
    requires |b| > 0 && Uniform(b) && Scanning(f0, f, b, up, c, done, side, src, m)
    ensures side == []
  {
    OneByteSide(b, up, c);
  }

  lemma {:induction false} OppositeFits(opp: seq<seq<nat>>, b: seq<byte>, up: bool, c: byte, src: seq<nat>, m: nat,
                                        t: byte)
    requires Opposite(opp, b, up, c) && Run(src, b, up, c) && m <= |src|
    ensures |Preds(src, b, m, t)| + |opp[t]| <= Count(b, Key(t, c), |b|)
  {
    hide Run, OfBucket, Continues, Ordered;
    var l := Preds(src, b, m, t);
    RunPreds(src, b, up, c, m, t);
    assert OfBucket(opp[t], b, Key(t, c)) && Continues(opp[t], b, !up, c);
    if up { HalvesFit(l, opp[t], b, c, t); } else { HalvesFit(opp[t], l, b, c, t); }
  }

  /** Spots inside the bucket. */
  lemma {:induction false} SpotInside(b: seq<byte>, up: bool, t: byte, c: byte, i: nat)
    requires |b| > 0 && i < Count(b, Key(t, c), |b|)
    ensures 0 <= Start(b, Key(t, c)) <= Spot(b, up, t, c, i) < Start(b, Key(t, c) + 1) <= |b|
    ensures Index(up, Start(b, Key(t, c)), Start(b, Key(t, c) + 1), Spot(b, up, t, c, i)) == i
  {
    hide Start, Count;
    StartNext(b, Key(t, c));
  }

  /** A position belongs to one bucket only. */
  lemma {:induction false} OneBucket(b: seq<byte>, s: nat, s': nat, q: int)
    requires |b| > 0 && Start(b, s) <= q < Start(b, s + 1) && Start(b, s') <= q < Start(b, s' + 1)
    ensures s == s'
  {
    hide Start;
    if s < s' { StartMonotone(b, s + 1, s'); }
    if s' < s { StartMonotone(b, s' + 1, s); }
  }

  lemma {:induction false} BigBounds(b: seq<byte>, c: byte)
    requires |b| > 0
    ensures 0 <= Start(b, BigKey(c as nat)) <= Start(b, Key(c, c))
      <= Start(b, Key(c, c) + 1) <= Start(b, BigKey(c as nat + 1)) <= |b|
  {
    hide Start;
    StartMonotone(b, BigKey(c as nat), Key(c, c));
    StartMonotone(b, Key(c, c), Key(c, c) + 1);
    StartMonotone(b, Key(c, c) + 1, BigKey(c as nat + 1));
    StartMonotone(b, BigKey(c as nat + 1), 65536);
    StartNext(b, 0);
  }

  /** The next entry to read, before the write of this step reaches it. */
  lemma {:induction false} ReadSpot(b: seq<byte>, up: bool, c: byte, m: nat, k: nat)
    requires |b| > 0 && m < SideSize(b, up, c) + k && k <= Count(b, Key(c, c), |b|)
    ensures 0 <= BigSpot(b, up, c, m) < |b|
    ensures BigSpot(b, up, c, SideSize(b, up, c) + k) == Spot(b, up, c, c, k)
  {
    hide Start, Count;
    BigBounds(b, c);
    StartNext(b, Key(c, c));
  }

  /** Writing into a bucket (t, c) other than (c, c) stays clear of the part of the big bucket that is read. */
  lemma {:induction false} ClearOfRead(b: seq<byte>, up: bool, t: byte, c: byte, i: nat, m: nat, k: nat)
    requires |b| > 0 && i < Count(b, Key(t, c), |b|) && t != c && m < SideSize(b, up, c) + k
      && k <= Count(b, Key(c, c), |b|)
    ensures BigSpot(b, up, c, m) != Spot(b, up, t, c, i)
  {
    hide Start, Count;
    SpotInside(b, up, t, c, i);
    BigBounds(b, c);
    StartNext(b, Key(c, c));
    if t < c { StartMonotone(b, Key(t, c) + 1, BigKey(c as nat)); }
      else { StartMonotone(b, BigKey(c as nat + 1), Key(t, c)); }
  }

  lemma {:induction false} PlacedWrite(f: seq<nat>, b: seq<byte>, p: nat, k: nat, t: byte, c: byte)
    requires Placed(f, b) && k < |b| && Two(b, k) == Key(t, c)
      && Start(b, Key(t, c)) <= p < Start(b, Key(t, c) + 1) <= |f|
    ensures Placed(f[p := k], b)
  {
    hide Start, Two;
  }

  lemma {:induction false} SmallWrite(f: seq<nat>, b: seq<byte>, up: bool, t: byte, c: byte, l: seq<nat>, k: nat)
    requires SmallFilled(f, b, up, t, c, l) && |l| < Count(b, Key(t, c), |b|)
    ensures 0 <= Spot(b, up, t, c, |l|) < |f| == |b|
    ensures SmallFilled(f[Spot(b, up, t, c, |l|) := k], b, up, t, c, l + [k])
  {
    hide Count, Start;
    SpotInside(b, up, t, c, |l|);
    forall i | 0 <= i < |l| ensures Spot(b, up, t, c, i) != Spot(b, up, t, c, |l|) { }
  }

  lemma {:induction false} SmallOther(f: seq<nat>, b: seq<byte>, up: bool, t: byte, u: byte, c: byte, l: seq<nat>,
                                      i: nat, k: nat)
    requires SmallFilled(f, b, up, u, c, l) && t != u && i < Count(b, Key(t, c), |b|)
    ensures 0 <= Spot(b, up, t, c, i) < |f|
    ensures SmallFilled(f[Spot(b, up, t, c, i) := k], b, up, u, c, l)
  {
    hide Count, Start;
    var p := Spot(b, up, t, c, i);
    SpotInside(b, up, t, c, i);
    var f' := f[p := k];
    forall j | 0 <= j < |l| ensures 0 <= Spot(b, up, u, c, j) < |f| && f'[Spot(b, up, u, c, j)] == l[j] {
      assert f[Spot(b, up, u, c, j)] == l[j];
      SpotInside(b, up, u, c, j);
      if Spot(b, up, u, c, j) == p { OneBucket(b, Key(t, c), Key(u, c), p); }
    }
  }

  lemma {:induction false} BigWrite(f: seq<nat>, b: seq<byte>, up: bool, t: byte, c: byte, src: seq<nat>, i: nat,
                                    k: nat, own: nat)
    requires BigFilled(f, b, up, c, src) && i < Count(b, Key(t, c), |b|)
    requires |b| > 0 && |src| == SideSize(b, up, c) + own && own <= Count(b, Key(c, c), |b|) && (t == c ==> i == own)
    ensures 0 <= Spot(b, up, t, c, i) < |f|
    ensures BigFilled(f[Spot(b, up, t, c, i) := k], b, up, c, if t == c then src + [k] else src)
  {
    hide Count, Start;
    var p := Spot(b, up, t, c, i);
    SpotInside(b, up, t, c, i);
    var f' := f[p := k];
    forall j | 0 <= j < |src| ensures 0 <= BigSpot(b, up, c, j) < |f| && f'[BigSpot(b, up, c, j)] == src[j] {
      assert f[BigSpot(b, up, c, j)] == src[j];
      if t != c {
        ClearOfRead(b, up, t, c, i, j, own);
      } else {
        ReadSpot(b, up, c, j, own);
      }
    }
    if t == c { BigSpotOwn(b, up, c, own); }
  }

  lemma {:induction false} BigSpotOwn(b: seq<byte>, up: bool, c: byte, k: nat)
    requires |b| > 0
    ensures BigSpot(b, up, c, SideSize(b, up, c) + k) == Spot(b, up, c, c, k)
  {
    hide Start;
  }

  lemma {:induction false} WrittenStays(b: seq<byte>, up: bool, c: byte, done: seq<bool>, src: seq<nat>,
                                        src': seq<nat>, m: nat, s: nat, q: int)
    requires |b| > 0 && |done| == 256 && m < |src| <= |src'| && src'[..|src|] == src && s < 65536
    requires Written(b, up, c, done, src, m, s, q)
    ensures Written(b, up, c, done, src', m + 1, s, q)
  {
    hide Preds, Start;
    PredsSame(src, src', b, m, s / 256);
    PredsGrow(src', b, m, m + 1, s / 256);
  }

  lemma {:induction false} KeptWrite(f0: seq<nat>, f: seq<nat>, b: seq<byte>, up: bool, c: byte, done: seq<bool>,
                                     src: seq<nat>, src': seq<nat>, m: nat, t: byte, k: nat)
    requires Kept(f0, f, b, up, c, done, src, m) && |f| == |b| && m < |src| <= |src'| && src'[..|src|] == src
    requires k < |b| && Two(b, k) == Key(t, c) && !done[t]
      && |Preds(src, b, m, t)| < |Preds(src', b, m + 1, t)| <= Count(b, Key(t, c), |b|)
    ensures var p := Spot(b, up, t, c, |Preds(src, b, m, t)|);
      0 <= p < |f| && Kept(f0, f[p := k], b, up, c, done, src', m + 1)
  {
    hide Written, Preds, Two, Count;
    var i := |Preds(src, b, m, t)|;
    var p := Spot(b, up, t, c, i);
    SpotInside(b, up, t, c, i);
    WrittenHere(b, up, c, done, src', m + 1, t, p, i);
    var f' := f[p := k];
    forall q | 0 <= q < |f| ensures f'[q] == f0[q] || Written(b, up, c, done, src', m + 1, Two(b, f'[q]), q) {
      if q != p && f[q] != f0[q] { WrittenStays(b, up, c, done, src, src', m, Two(b, f[q]), q); }
    }
  }

  lemma {:induction false} WrittenHere(b: seq<byte>, up: bool, c: byte, done: seq<bool>, src: seq<nat>, m: nat,
                                       t: byte, q: int, i: int)
    requires |b| > 0 && |done| == 256 && m <= |src| && !done[t]
    requires i == Index(up, Start(b, Key(t, c)), Start(b, Key(t, c) + 1), q) && i < |Preds(src, b, m, t)|
    ensures Written(b, up, c, done, src, m, Key(t, c), q)
  {
    hide Start, Preds;
  }

  lemma {:induction false} KeptNoWrite(f0: seq<nat>, f: seq<nat>, b: seq<byte>, up: bool, c: byte, done: seq<bool>,
                                       src: seq<nat>, m: nat)
    requires Kept(f0, f, b, up, c, done, src, m) && m < |src|
    ensures Kept(f0, f, b, up, c, done, src, m + 1)
  {
    hide Written, Two;
    forall q | 0 <= q < |f| ensures f[q] == f0[q] || Written(b, up, c, done, src, m + 1, Two(b, f[q]), q) {
      if f[q] != f0[q] { WrittenStays(b, up, c, done, src, src, m, Two(b, f[q]), q); }
    }
  }

  lemma {:induction false} NextPreds(src: seq<nat>, b: seq<byte>, m: nat, c: byte, u: byte)
    requires m < |src| && src[m] < |b|
    ensures Longer(src, b, m, c)[..|src|] == src
    ensures var k := LastToFirst.Before(|b|, src[m]);
      && Preds(Longer(src, b, m, c), b, m + 1, u)
         == (if b[k] == u then Preds(src, b, m, u) + [k] else Preds(src, b, m, u))
      && Longer(src, b, m, c) == (if b[k] == c then src + [k] else src)
  {
    PredsSame(src, Longer(src, b, m, c), b, m, u);
    assert Longer(src, b, m, c)[m] == src[m];
  }

  /** The scan finds the next entry where it reads. */
  lemma {:induction false} ScanReads(f0: seq<nat>, f: seq<nat>, b: seq<byte>, up: bool, c: byte, done: seq<bool>,
                                     side: seq<nat>, src: seq<nat>, m: nat)
    requires Scanning(f0, f, b, up, c, done, side, src, m) && m < |src|
    ensures |b| > 0 && 0 <= BigSpot(b, up, c, m) < |f| == |b| && f[BigSpot(b, up, c, m)] == src[m] < |b|
  {
    hide Grown, AllFilled, Kept, Placed;
    GrownRun(side, src, b, up, c, m);
    assert src[m] < |b| && f[BigSpot(b, up, c, m)] == src[m];
  }

  lemma {:induction false} GrownRun(side: seq<nat>, src: seq<nat>, b: seq<byte>, up: bool, c: byte, m: nat)
    requires Grown(side, src, b, up, c, m)
    ensures m <= |src| && Run(src, b, up, c) && |src| == |side| + |Preds(src, b, m, c)|
  {
  }

  lemma {:induction false} ScanStepDone(f0: seq<nat>, f: seq<nat>, b: seq<byte>, up: bool, c: byte, done: seq<bool>,
                                        side: seq<nat>, src: seq<nat>, m: nat)
    requires Scanning(f0, f, b, up, c, done, side, src, m) && m < |src| && src[m] < |b|
    requires |done| == 256 && done[b[LastToFirst.Before(|b|, src[m])]]
    ensures Scanning(f0, f, b, up, c, done, side, src, m + 1)
    ensures forall t: byte {:trigger Preds(src, b, m, t)} :: !done[t] ==> Preds(src, b, m + 1, t) == Preds(src, b, m, t)
  {
    hide Grown, Kept, Placed, SmallFilled, BigFilled, Preds, LastToFirst.Before;
    GrownStep(side, src, b, up, c, m);
    NextPreds(src, b, m, c, c);
    KeptNoWrite(f0, f, b, up, c, done, src, m);
    forall t: byte | !done[t] ensures Preds(src, b, m + 1, t) == Preds(src, b, m, t) {
      NextPreds(src, b, m, c, t);
    }
  }

  lemma {:induction false} ScanStep(f0: seq<nat>, f: seq<nat>, b: seq<byte>, up: bool, c: byte, done: seq<bool>,
                                    side: seq<nat>, src: seq<nat>, m: nat,
                                    opp: seq<seq<nat>>, k: nat, t: byte)
    requires Scanning(f0, f, b, up, c, done, side, src, m) && m < |src| && src[m] < |b| && Opposite(opp, b, up, c)
    requires |done| == 256 && k == LastToFirst.Before(|b|, src[m]) && t == b[k] && !done[t]
    ensures var p := Spot(b, up, t, c, |Preds(src, b, m, t)|);
            0 <= p < |f| && Scanning(f0, f[p := k], b, up, c, done, side, Longer(src, b, m, c), m + 1)
    ensures Longer(src, b, m, c)[..|src|] == src
    ensures forall u: byte {:trigger Preds(src, b, m, u)} ::
            |Preds(Longer(src, b, m, c), b, m + 1, u)| == |Preds(src, b, m, u)| + if u == t then 1 else 0
  {
    hide Grown, Kept, Placed, SmallFilled, BigFilled, Preds, LastToFirst.Before, Start, Count, Two, Spot, Opposite, Run,
      SideSize;
    var src', i := Longer(src, b, m, c), |Preds(src, b, m, t)|;
    GrownRun(side, src, b, up, c, m);
    GrownStep(side, src, b, up, c, m);
    GrownRun(side, src', b, up, c, m + 1);
    NextPreds(src, b, m, c, t);
    NextPreds(src, b, m, c, c);
    OppositeFits(opp, b, up, c, src', m + 1, t);
    OppositeFits(opp, b, up, c, src, m, c);
    NewKey(src, b, up, c, m);
    SmallWrite(f, b, up, t, c, Preds(src, b, m, t), k);
    BigWrite(f, b, up, t, c, src, i, k, |Preds(src, b, m, c)|);
    SpotInside(b, up, t, c, i);
    PlacedWrite(f, b, Spot(b, up, t, c, i), k, t, c);
    KeptWrite(f0, f, b, up, c, done, src, src', m, t, k);
    forall u: byte ensures |Preds(src', b, m + 1, u)| == |Preds(src, b, m, u)| + if u == t then 1
      else 0 { NextPreds(src, b, m, c, u); }
    forall u: byte | !done[u] ensures SmallFilled(f[Spot(b, up, t, c, i) := k], b, up, u, c, Preds(src', b, m + 1, u)) {
      NextPreds(src, b, m, c, u);
      if u != t { SmallOther(f, b, up, t, u, c, Preds(src, b, m, u), i, k); }
    }
  }

  lemma {:induction false} NewKey(src: seq<nat>, b: seq<byte>, up: bool, c: byte, m: nat)
    requires Run(src, b, up, c) && m < |src|
    ensures src[m] < |b| && var k := LastToFirst.Before(|b|, src[m]); Two(b, k) == Key(b[k], c)
  {
    BeforeFacts(b, src[m], c);
  }

  // ----- the loops

  /** copyStart (up) or copyEnd, for the big buckets not done. */
  ghost predicate Pointers(cs: seq<int>, b: seq<byte>, up: bool, c: byte, done: seq<bool>, src: seq<nat>, m: nat) {
    && |b| > 0 && |cs| == 256 == |done| && m <= |src|
    && forall t: byte {:trigger done[t]} :: !done[t] ==> cs[t] == Spot(b, up, t, c, |Preds(src, b, m, t)|)
  }

  /** The loop goes on exactly as long as there are entries to read. */
  lemma {:induction false} ScanTest(f0: seq<nat>, f: seq<nat>, b: seq<byte>, up: bool, c: byte, done: seq<bool>,
                                    side: seq<nat>, src: seq<nat>, m: nat, cs: seq<int>)
    requires Scanning(f0, f, b, up, c, done, side, src, m) && Pointers(cs, b, up, c, done, src, m)
    ensures |cs| == 256 == |done| && |b| > 0 && |f| == |b| && m <= |src| && !done[c]
    ensures m < |src| <==> if up then BigSpot(b, up, c, m) < cs[c] else BigSpot(b, up, c, m) > cs[c]
    ensures m < |src| ==> 0 <= BigSpot(b, up, c, m) < |f| && f[BigSpot(b, up, c, m)] == src[m] < |b|
  {
    hide Preds, Kept, AllFilled, BigFilled, Run, Grown, SideSize, Spot, Start;
    GrownRun(side, src, b, up, c, m);
    BigSpotOwn(b, up, c, |Preds(src, b, m, c)|);
    assert !done[c];
    assert cs[c] == BigSpot(b, up, c, |src|);
    if m < |src| { ScanReads(f0, f, b, up, c, done, side, src, m); }
  }

  lemma {:induction false} PointersDone(b: seq<byte>, up: bool, c: byte, done: seq<bool>, src: seq<nat>, m: nat,
                                        cs: seq<int>)
    requires Pointers(cs, b, up, c, done, src, m) && m < |src| && |done| == 256
    requires forall t: byte {:trigger Preds(src, b, m, t)} :: !done[t] ==>
      Preds(src, b, m + 1, t) == Preds(src, b, m, t)
    ensures Pointers(cs, b, up, c, done, src, m + 1)
  {
    hide Preds;
  }

  lemma {:induction false} PointersStep(b: seq<byte>, up: bool, c: byte, done: seq<bool>, src: seq<nat>, m: nat,
                                        cs: seq<int>, t: byte)
    requires Pointers(cs, b, up, c, done, src, m) && m < |src| && |done| == 256 && !done[t]
    requires forall u: byte {:trigger Preds(src, b, m, u)} ::
            |Preds(Longer(src, b, m, c), b, m + 1, u)| == |Preds(src, b, m, u)| + if u == t then 1 else 0
    ensures |cs| == 256 && cs[t] == Spot(b, up, t, c, |Preds(src, b, m, t)|)
    ensures Pointers(cs[t := cs[t] + if up then 1 else -1], b, up, c, done, Longer(src, b, m, c), m + 1)
  {
    hide Preds, Start, Longer;
    SpotNext(b, up, t, c, |Preds(src, b, m, t)|);
    var cs' := cs[t := cs[t] + if up then 1 else -1];
    assert |Longer(src, b, m, c)| >= |src| by { LongerSize(src, b, m, c); }
    forall u: byte | !done[u] ensures cs'[u] == Spot(b, up, u, c, |Preds(Longer(src, b, m, c), b, m + 1, u)|) { }
  }

  lemma {:induction false} LongerSize(src: seq<nat>, b: seq<byte>, m: nat, c: byte)
    requires m < |src|
    ensures |src| <= |Longer(src, b, m, c)|
  {
  }

  lemma {:induction false} SpotNext(b: seq<byte>, up: bool, t: byte, c: byte, i: int)
    requires |b| > 0
    ensures Spot(b, up, t, c, i + 1) == Spot(b, up, t, c, i) + if up then 1 else -1
    ensures BigSpot(b, up, c, i + 1) == BigSpot(b, up, c, i) + if up then 1 else -1
  {
    hide Start;
  }

  /** One entry read by either scan: the rotation before it goes to the next free place of its bucket. */
  method ScanOne(ptr: array<nat>, block: array<byte>, bigDone: array<bool>, cs: array<int>, j: nat, nblock: nat,
                 ghost f0: seq<nat>, ghost b: seq<byte>, ghost up: bool, ghost c: byte, ghost side: seq<nat>,
                   ghost src: seq<nat>, ghost m: nat,
                 ghost opp: seq<seq<nat>>, step: int)
    returns (ghost src': seq<nat>)
    requires Scanning(f0, ptr[..], b, up, c, bigDone[..], side, src, m)
      && Pointers(cs[..], b, up, c, bigDone[..], src, m)
    requires m < |src| && |b| > 0 && j == BigSpot(b, up, c, m) && Opposite(opp, b, up, c)
      && step == if up then 1 else -1
    requires nblock == |b| <= block.Length && block[..nblock] == b && cs as object != ptr
    modifies ptr, cs
    ensures Scanning(f0, ptr[..], b, up, c, bigDone[..], side, src', m + 1)
      && Pointers(cs[..], b, up, c, bigDone[..], src', m + 1)
  {
    hide *;
    ghost var f, g, done := ptr[..], cs[..], bigDone[..];
    ScanTest(f0, f, b, up, c, done, side, src, m, g);
    var k: int := ptr[j] as int - 1;
    if k < 0 { k := k + nblock; }
    BeforeIs(|b|, src[m]);
    var c1 := block[k];
    assert c1 == block[..nblock][k];
    if !bigDone[c1] {
      ScanStep(f0, f, b, up, c, done, side, src, m, opp, k, c1);
      PointersStep(b, up, c, done, src, m, g, c1);
      ptr[cs[c1]] := k;
      cs[c1] := cs[c1] + step;
      src' := Longer(src, b, m, c);
      assert ptr[..] == f[Spot(b, up, c1, c, |Preds(src, b, m, c1)|) := k as nat];
      assert cs[..] == g[c1 := g[c1] + step];
    } else {
      ScanStepDone(f0, f, b, up, c, done, side, src, m);
      PointersDone(b, up, c, done, src, m, g);
      src' := src;
    }
  }

  lemma {:induction false} BeforeIs(n: nat, x: nat)
    requires x < n
    ensures LastToFirst.Before(n, x) == if x == 0 then n - 1 else x - 1
  {
  }

  method ScanUp(ptr: array<nat>, block: array<byte>, bigDone: array<bool>, copyStart: array<int>, from: nat,
                nblock: nat, ghost b: seq<byte>, c: byte, ghost side: seq<nat>, ghost opp: seq<seq<nat>>)
    returns (ghost src: seq<nat>)
    requires Scanning(ptr[..], ptr[..], b, true, c, bigDone[..], side, side, 0)
      && Pointers(copyStart[..], b, true, c, bigDone[..], side, 0)
    requires |b| > 0 && from == BigSpot(b, true, c, 0) && Opposite(opp, b, true, c)
    requires nblock == |b| <= block.Length && block[..nblock] == b && copyStart as object != ptr
    modifies ptr, copyStart
    ensures Scanning(old(ptr[..]), ptr[..], b, true, c, bigDone[..], side, src, |src|)
    ensures Pointers(copyStart[..], b, true, c, bigDone[..], src, |src|)
    ensures side == [] ==> ptr[..] == old(ptr[..])
  {
    hide *;
    ghost var f0 := ptr[..];
    ghost var m := 0;
    src := side;
    var j := from;
    ScanTest(f0, ptr[..], b, true, c, bigDone[..], side, src, m, copyStart[..]);
    while j < copyStart[c]
      invariant m <= |src| && j == BigSpot(b, true, c, m)
      invariant Scanning(f0, ptr[..], b, true, c, bigDone[..], side, src, m)
        && Pointers(copyStart[..], b, true, c, bigDone[..], src, m)
      invariant side == [] ==> src == [] && ptr[..] == f0
      decreases |b| - j
    {
      ScanTest(f0, ptr[..], b, true, c, bigDone[..], side, src, m, copyStart[..]);
      src := ScanOne(ptr, block, bigDone, copyStart, j, nblock, f0, b, true, c, side, src, m, opp, 1);
      SpotNext(b, true, 0, c, m);
      m := m + 1;
      ScanTest(f0, ptr[..], b, true, c, bigDone[..], side, src, m, copyStart[..]);
      j := j + 1;
    }
    ScanTest(f0, ptr[..], b, true, c, bigDone[..], side, src, m, copyStart[..]);
  }

  method ScanDown(ptr: array<nat>, block: array<byte>, bigDone: array<bool>, copyEnd: array<int>, from: int,
                  nblock: nat, ghost b: seq<byte>, c: byte, ghost side: seq<nat>, ghost opp: seq<seq<nat>>)
    returns (ghost src: seq<nat>)
    requires Scanning(ptr[..], ptr[..], b, false, c, bigDone[..], side, side, 0)
      && Pointers(copyEnd[..], b, false, c, bigDone[..], side, 0)
    requires |b| > 0 && from == BigSpot(b, false, c, 0) && Opposite(opp, b, false, c)
    requires nblock == |b| <= block.Length && block[..nblock] == b && copyEnd as object != ptr
    modifies ptr, copyEnd
    ensures Scanning(old(ptr[..]), ptr[..], b, false, c, bigDone[..], side, src, |src|)
    ensures Pointers(copyEnd[..], b, false, c, bigDone[..], src, |src|)
    ensures side == [] ==> ptr[..] == old(ptr[..])
  {
    hide *;
    ghost var f0 := ptr[..];
    ghost var m := 0;
    src := side;
    var j: int := from;
    ScanTest(f0, ptr[..], b, false, c, bigDone[..], side, src, m, copyEnd[..]);
    while j > copyEnd[c]
      invariant m <= |src| && j == BigSpot(b, false, c, m)
      invariant Scanning(f0, ptr[..], b, false, c, bigDone[..], side, src, m)
        && Pointers(copyEnd[..], b, false, c, bigDone[..], src, m)
      invariant side == [] ==> src == [] && ptr[..] == f0
      decreases j
    {
      ScanTest(f0, ptr[..], b, false, c, bigDone[..], side, src, m, copyEnd[..]);
      src := ScanOne(ptr, block, bigDone, copyEnd, j, nblock, f0, b, false, c, side, src, m, opp, -1);
      SpotNext(b, false, 0, c, m);
      m := m + 1;
      ScanTest(f0, ptr[..], b, false, c, bigDone[..], side, src, m, copyEnd[..]);
      j := j - 1;
    }
    ScanTest(f0, ptr[..], b, false, c, bigDone[..], side, src, m, copyEnd[..]);
  }
}
