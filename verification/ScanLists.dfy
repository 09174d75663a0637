/** Scanning a sorted big bucket: the rotations one earlier, first byte by first byte. */
module ScanLists {
  import opened Bytes
  import opened Rotations
  import LastToFirst
  import opened TwoByteBuckets
  import MainCompare

  // ----- below or above an endless repetition of one byte

  /** -1 or 1 if the first byte other than c, within k bytes, is smaller or greater; 0 if there is none. */
  function Kind(b: seq<byte>, x: nat, c: byte, k: nat): int
    requires |b| > 0
    decreases k
  {
    if k == 0 then 0
    else if Cyc(b, x) < c then -1
    else if Cyc(b, x) > c then 1
    else Kind(b, x + 1, c, k - 1)
  }

  lemma {:induction false} KindMore(b: seq<byte>, x: nat, c: byte, k: nat, m: nat)
    requires |b| > 0 && k <= m && Kind(b, x, c, k) != 0
    ensures Kind(b, x, c, m) == Kind(b, x, c, k)
    decreases k
  {
    if Cyc(b, x) == c { KindMore(b, x + 1, c, k - 1, m - 1); }
  }

  /** Stepping over a byte c does not change the kind. */
  lemma {:induction false} KindStep(b: seq<byte>, x: nat, c: byte)
    requires |b| > 0 && Cyc(b, x) == c && Kind(b, x, c, |b|) != 0
    ensures Kind(b, x + 1, c, |b|) == Kind(b, x, c, |b|)
  {
    KindMore(b, x + 1, c, |b| - 1, |b|);
  }

  lemma {:induction false} KindBack(b: seq<byte>, x: nat, c: byte)
    requires |b| > 0 && Cyc(b, x) == c && Kind(b, x + 1, c, |b|) != 0
    ensures Kind(b, x, c, |b|) == Kind(b, x + 1, c, |b|)
  {
    if Kind(b, x, c, |b|) == 0 {
      AllSame(b, x, c, x + 1, |b|);
    } else {
      KindStep(b, x, c);
    }
  }

  lemma {:induction false} NoneOther(b: seq<byte>, x: nat, c: byte, k: nat, y: nat)
    requires |b| > 0 && Kind(b, x, c, k) == 0 && x <= y < x + k
    ensures Cyc(b, y) == c
    decreases k
  {
    if y > x { NoneOther(b, x + 1, c, k - 1, y); }
  }

  /** If |b| bytes in a row are c, all are. */
  lemma {:induction false} AllSame(b: seq<byte>, x: nat, c: byte, y: nat, k: nat)
    requires |b| > 0 && Kind(b, x, c, |b|) == 0 && y >= x
    ensures Kind(b, y, c, k) == 0
    decreases k
  {
    if k > 0 {
      EverySame(b, x, c, y);
      AllSame(b, x, c, y + 1, k - 1);
    }
  }

  lemma {:induction false} EverySame(b: seq<byte>, x: nat, c: byte, y: nat)
    requires |b| > 0 && Kind(b, x, c, |b|) == 0 && y >= x
    ensures Cyc(b, y) == c
    decreases y
  {
    if y < x + |b| { NoneOther(b, x, c, |b|, y); } else { EverySame(b, x, c, y - |b|); }
  }

  lemma {:induction false} KindWrap(b: seq<byte>, x: nat, c: byte, k: nat)
    requires |b| > 0
    ensures Kind(b, x + |b|, c, k) == Kind(b, x, c, k)
    decreases k
  {
    if k > 0 { KindWrap(b, x + 1, c, k - 1); }
  }

  /** A rotation of the lower kind is smaller than one of the upper kind. */
  lemma {:induction false} KindsInOrder(b: seq<byte>, x: nat, y: nat, c: byte, k: nat)
    requires |b| > 0 && Kind(b, x, c, k) < 0 && Kind(b, y, c, k) > 0
    ensures Cmp(b, x, y, k) < 0
    decreases k
  {
    if Cyc(b, x) == c && Cyc(b, y) == c { KindsInOrder(b, x + 1, y + 1, c, k - 1); }
  }

  // ----- a list of distinct rotations of one bucket is no longer than the bucket

  function Members(b: seq<byte>, s: nat, k: nat): (m: seq<nat>)
    requires |b| > 0
    ensures |m| == Count(b, s, k)
  {
    if k == 0 then [] else Members(b, s, k - 1) + if Two(b, k - 1) == s then [k - 1] else []
  }

  lemma {:induction false} IsMember(b: seq<byte>, s: nat, k: nat, i: nat)
    requires |b| > 0 && i < k && Two(b, i) == s
    ensures i in Members(b, s, k)
  {
    hide Two;
    if i < k - 1 { IsMember(b, s, k - 1, i); }
  }

  lemma {:induction false} MemberIs(b: seq<byte>, s: nat, k: nat, x: nat)
    requires |b| > 0 && x < |Members(b, s, k)|
    ensures Members(b, s, k)[x] < k && Two(b, Members(b, s, k)[x]) == s
  {
    hide Two;
    if x < |Members(b, s, k - 1)| { MemberIs(b, s, k - 1, x); }
  }

  ghost predicate Distinct(s: seq<nat>) {
    forall i, j {:trigger s[i], s[j]} :: 0 <= i < j < |s| ==> s[i] != s[j]
  }

  lemma {:induction false} MembersDistinct(b: seq<byte>, s: nat, k: nat)
    requires |b| > 0
    ensures Distinct(Members(b, s, k))
  {
    hide Two;
    if k > 0 {
      MembersDistinct(b, s, k - 1);
      var m := Members(b, s, k - 1);
      forall x | 0 <= x < |m| ensures m[x] < k - 1 { MemberIs(b, s, k - 1, x); }
    }
  }

  /** Rotations of bucket s, all different. */
  ghost predicate OfBucket(m: seq<nat>, b: seq<byte>, s: nat) {
    |b| > 0 && Distinct(m) && forall i {:trigger m[i]} :: 0 <= i < |m| ==> m[i] < |b| && Two(b, m[i]) == s
  }

  lemma {:induction false} BucketFits(m: seq<nat>, b: seq<byte>, s: nat)
    requires OfBucket(m, b, s)
    ensures |m| <= Count(b, s, |b|)
  {
    hide Two, Members;
    forall i | 0 <= i < |m| ensures m[i] in Members(b, s, |b|) { IsMember(b, s, |b|, m[i]); }
    DistinctFits(m, Members(b, s, |b|));
  }

  /** A list that holds every rotation of the bucket is at least as long. */
  lemma {:induction false} BucketCovers(m: seq<nat>, b: seq<byte>, s: nat)
    requires |b| > 0 && forall i {:trigger Two(b, i)} :: 0 <= i < |b| && Two(b, i) == s ==> i in m
    ensures |m| >= Count(b, s, |b|)
  {
    hide Two, Members;
    var all := Members(b, s, |b|);
    MembersDistinct(b, s, |b|);
    forall i | 0 <= i < |all| ensures all[i] in m { MemberIs(b, s, |b|, i); }
    DistinctFits(all, m);
  }

  // ----- the rotations one earlier than the first m of a list, if they start with t

  function One(b: seq<byte>, x: nat, t: byte): (s: seq<nat>)
    ensures |s| <= 1
  {
    if x < |b| && b[LastToFirst.Before(|b|, x)] == t then [LastToFirst.Before(|b|, x)] else []
  }

  function Preds(src: seq<nat>, b: seq<byte>, m: nat, t: byte): seq<nat>
    requires m <= |src|
  {
    if m == 0 then [] else Preds(src, b, m - 1, t) + One(b, src[m - 1], t)
  }

  lemma {:induction false} PredsSame(src: seq<nat>, src': seq<nat>, b: seq<byte>, m: nat, t: byte)
    requires m <= |src| <= |src'| && src'[..|src|] == src
    ensures Preds(src', b, m, t) == Preds(src, b, m, t)
  {
    if m > 0 {
      PredsSame(src, src', b, m - 1, t);
      assert src'[m - 1] == src'[..|src|][m - 1];
    }
  }

  /** Where an entry of the list comes from. */
  lemma {:induction false} PredSource(src: seq<nat>, b: seq<byte>, m: nat, t: byte, i: nat) returns (p: nat)
    requires m <= |src| && i < |Preds(src, b, m, t)|
    ensures p < m && src[p] < |b| && Preds(src, b, m, t)[i] == LastToFirst.Before(|b|, src[p])
      && b[LastToFirst.Before(|b|, src[p])] == t
    ensures i == |Preds(src, b, p, t)|
    decreases m
  {
    if i < |Preds(src, b, m - 1, t)| {
      p := PredSource(src, b, m - 1, t, i);
    } else {
      p := m - 1;
    }
  }

  lemma {:induction false} PredsGrow(src: seq<nat>, b: seq<byte>, p: nat, q: nat, t: byte)
    requires p <= q <= |src|
    ensures |Preds(src, b, p, t)| <= |Preds(src, b, q, t)|
    decreases q
  {
    hide One;
    if p < q { PredsGrow(src, b, p, q - 1, t); }
  }

  /** Every suitable entry is listed. */
  lemma {:induction false} PredListed(src: seq<nat>, b: seq<byte>, m: nat, t: byte, p: nat)
    requires p < m <= |src| && src[p] < |b| && b[LastToFirst.Before(|b|, src[p])] == t
    ensures LastToFirst.Before(|b|, src[p]) in Preds(src, b, m, t)
    decreases m
  {
    if p < m - 1 { PredListed(src, b, m - 1, t, p); }
  }

  /** Nondescending (up) or nonascending. */
  ghost predicate Leq(b: seq<byte>, up: bool, x: nat, y: nat)
    requires |b| > 0
  {
    if up then Cmp(b, x, y, |b|) <= 0 else Cmp(b, y, x, |b|) <= 0
  }

  ghost predicate Ordered(s: seq<nat>, b: seq<byte>, up: bool) {
    |b| > 0 && forall i, j {:trigger s[i], s[j]} :: 0 <= i < j < |s| ==> Leq(b, up, s[i], s[j])
  }

  function Side(up: bool): int {
    if up then -1 else 1
  }

  /** Different rotations, in order, that start with c and then lie below (up) or above an endless repetition of c. */
  ghost predicate Run(src: seq<nat>, b: seq<byte>, up: bool, c: byte) {
    && |b| > 0 && Distinct(src) && Ordered(src, b, up)
    && forall i {:trigger src[i]} :: 0 <= i < |src| ==>
       src[i] < |b| && b[src[i]] == c && Kind(b, src[i], c, |b|) == Side(up)
  }

  /** Every entry continues, after its first byte, on the given side of an endless repetition of c. */
  ghost predicate Continues(s: seq<nat>, b: seq<byte>, up: bool, c: byte) {
    |b| > 0 && forall i {:trigger s[i]} :: 0 <= i < |s| ==> Kind(b, s[i] + 1, c, |b|) == Side(up)
  }

  lemma {:induction false} BeforeFacts(b: seq<byte>, x: nat, c: byte)
    requires x < |b|
    ensures Cyc(b, x + |b| - 1) == Cyc(b, LastToFirst.Before(|b|, x)) == b[LastToFirst.Before(|b|, x)]
    ensures Cyc(b, LastToFirst.Before(|b|, x) + 1) == b[x]
    ensures Kind(b, LastToFirst.Before(|b|, x) + 1, c, |b|) == Kind(b, x, c, |b|)
    ensures b[x] == c ==> Two(b, LastToFirst.Before(|b|, x)) == b[LastToFirst.Before(|b|, x)] as int * 256 + c as int
  {
    hide Kind;
    KindWrap(b, 0, c, |b|);
  }

  lemma {:induction false} BeforeInjective(n: nat, x: nat, y: nat)
    requires x < n && y < n && x != y
    ensures LastToFirst.Before(n, x) != LastToFirst.Before(n, y)
  {
  }

  lemma {:induction false} BeforeLeq(b: seq<byte>, up: bool, x: nat, y: nat)
    requires x < |b| && y < |b| && b[LastToFirst.Before(|b|, x)] == b[LastToFirst.Before(|b|, y)] && Leq(b, up, x, y)
    ensures Leq(b, up, LastToFirst.Before(|b|, x), LastToFirst.Before(|b|, y))
  {
    hide LastToFirst.Before, Cmp, Cyc, Kind;
    BeforeFacts(b, x, 0);
    BeforeFacts(b, y, 0);
    if up { LastToFirst.BeforeInOrder(b, x, y); } else { LastToFirst.BeforeInOrder(b, y, x); }
  }

  /** The predecessors of a run that start with t are different rotations of one bucket, in order. */
  lemma {:induction false} RunPreds(src: seq<nat>, b: seq<byte>, up: bool, c: byte, m: nat, t: byte)
    requires Run(src, b, up, c) && m <= |src|
    ensures OfBucket(Preds(src, b, m, t), b, t as nat * 256 + c as nat) && Ordered(Preds(src, b, m, t), b, up)
    ensures Continues(Preds(src, b, m, t), b, up, c)
  {
    hide Preds, LastToFirst.Before, Cmp, Cyc, Kind, Leq;
    var s := Preds(src, b, m, t);
    forall i | 0 <= i < |s|
      ensures s[i] < |b| && Two(b, s[i]) == t as nat * 256 + c as nat && Kind(b, s[i] + 1, c, |b|) == Side(up) {
      var p := PredSource(src, b, m, t, i);
      BeforeFacts(b, src[p], c);
    }
    forall i, j | 0 <= i < j < |s| ensures s[i] != s[j] && Leq(b, up, s[i], s[j]) {
      var p := PredSource(src, b, m, t, i);
      var q := PredSource(src, b, m, t, j);
      if q <= p { PredsGrow(src, b, q, p, t); }
      assert src[p] != src[q] && Leq(b, up, src[p], src[q]);
      BeforeInjective(|b|, src[p], src[q]);
      BeforeLeq(b, up, src[p], src[q]);
    }
  }

  // ----- the stretch that grows while it is read

  /** A second byte below (up) or above c. */
  ghost predicate Beyond(side: seq<nat>, b: seq<byte>, up: bool, c: byte) {
    |b| > 0 && forall i {:trigger side[i]} :: 0 <= i < |side| ==>
      side[i] < |b| && b[side[i]] == c && if up then Cyc(b, side[i] + 1) < c else Cyc(b, side[i] + 1) > c
  }

  /** m entries read; the list began as side and got the predecessors starting with c appended. */
  ghost predicate Grown(side: seq<nat>, src: seq<nat>, b: seq<byte>, up: bool, c: byte, m: nat) {
    && m <= |src| && Run(src, b, up, c) && src == side + Preds(src, b, m, c)
    && Beyond(side, b, up, c) && Distinct(side) && Ordered(side, b, up)
  }

  lemma {:induction false} GrownStart(side: seq<nat>, b: seq<byte>, up: bool, c: byte)
    requires Beyond(side, b, up, c) && Distinct(side) && Ordered(side, b, up)
    ensures Grown(side, side, b, up, c, 0)
  {
    hide Cmp, Leq, Kind, Cyc;
    forall i | 0 <= i < |side| ensures Kind(b, side[i], c, |b|) == Side(up) { SideKind(side[i], b, up, c); }
    assert Preds(side, b, 0, c) == [];
  }

  /** The list after reading entry m. */
  function Longer(src: seq<nat>, b: seq<byte>, m: nat, c: byte): seq<nat>
    requires m < |src|
  {
    src + One(b, src[m], c)
  }

  lemma {:induction false} GrownStep(side: seq<nat>, src: seq<nat>, b: seq<byte>, up: bool, c: byte, m: nat)
    requires Grown(side, src, b, up, c, m) && m < |src|
    ensures Grown(side, Longer(src, b, m, c), b, up, c, m + 1)
  {
    hide LastToFirst.Before, Cmp, Cyc, Kind, Leq, One, Run, Beyond, OfBucket, Ordered, Continues;
    var s, s' := Preds(src, b, m + 1, c), Longer(src, b, m, c);
    RunPreds(src, b, up, c, m + 1, c);
    assert s' == side + s;
    PredsSame(src, s', b, m + 1, c);
    Extended(side, s, b, up, c);
  }

  /** Nothing on one side of c reaches the rotations that start with c twice. */
  lemma {:induction false} Extended(side: seq<nat>, s: seq<nat>, b: seq<byte>, up: bool, c: byte)
    requires Beyond(side, b, up, c) && Distinct(side) && Ordered(side, b, up)
    requires OfBucket(s, b, c as nat * 256 + c as nat) && Ordered(s, b, up) && Continues(s, b, up, c)
    ensures Run(side + s, b, up, c)
  {
    hide Cmp, Cyc, Kind, Leq, Two;
    var s' := side + s;
    forall i | 0 <= i < |s'| ensures s'[i] < |b| && b[s'[i]] == c && Kind(b, s'[i], c, |b|) == Side(up) {
      if i < |side| {
        assert s'[i] == side[i];
        SideKind(side[i], b, up, c);
      } else {
        assert s'[i] == s[i - |side|];
        NewEntry(s[i - |side|], b, up, c);
      }
    }
    forall i, j | 0 <= i < j < |s'| ensures s'[i] != s'[j] && Leq(b, up, s'[i], s'[j]) {
      if j < |side| {
        assert s'[i] == side[i] && s'[j] == side[j];
      } else if i < |side| {
        assert s'[i] == side[i] && s'[j] == s[j - |side|];
        OneFrom(side[i], s[j - |side|], b, up, c);
      } else {
        assert s'[i] == s[i - |side|] && s'[j] == s[j - |side|];
      }
    }
  }

  lemma {:induction false} SideKind(x: nat, b: seq<byte>, up: bool, c: byte)
    requires x < |b| && b[x] == c && (if up then Cyc(b, x + 1) < c else Cyc(b, x + 1) > c)
    ensures Kind(b, x, c, |b|) == Side(up)
  {
    assert Cyc(b, x) == c;
    assert Kind(b, x + 1, c, |b| - 1) == Side(up);
  }

  lemma {:induction false} NewEntry(x: nat, b: seq<byte>, up: bool, c: byte)
    requires x < |b| && Two(b, x) == c as nat * 256 + c as nat && Kind(b, x + 1, c, |b|) == Side(up)
    ensures b[x] == c && Kind(b, x, c, |b|) == Side(up)
  {
    KindBack(b, x, c);
  }

  lemma {:induction false} OneFrom(x: nat, y: nat, b: seq<byte>, up: bool, c: byte)
    requires x < |b| && b[x] == c && (if up then Cyc(b, x + 1) < c else Cyc(b, x + 1) > c)
    requires y < |b| && Two(b, y) == c as nat * 256 + c as nat
    ensures x != y && Leq(b, up, x, y)
  {
    if up { BucketsOrder(b, x, y); } else { BucketsOrder(b, y, x); }
  }

  /** Rotations of different buckets are in the order of their buckets. */
  lemma {:induction false} BucketsOrder(b: seq<byte>, x: nat, y: nat)
    requires |b| > 0 && Two(b, x) < Two(b, y)
    ensures Cmp(b, x, y, |b|) < 0
  {
    assert Cyc(b, x) <= Cyc(b, y);
    if |b| == 1 {
      assert Cyc(b, x) == b[0] == Cyc(b, y) by { EveryByte(b, x); EveryByte(b, y); }
      EveryByte(b, x + 1);
      EveryByte(b, y + 1);
    }
    assert Cyc(b, x) == Cyc(b, y) ==> Cmp(b, x + 1, y + 1, |b| - 1) < 0;
  }

  lemma {:induction false} EveryByte(b: seq<byte>, x: nat)
    requires |b| == 1
    ensures Cyc(b, x) == b[0]
    decreases x
  {
    if x >= 1 { EveryByte(b, x - 1); }
  }

  // ----- everything is found

  ghost predicate HasSide(side: seq<nat>, b: seq<byte>, up: bool, c: byte) {
    |b| > 0 && forall x {:trigger Cyc(b, x + 1)} ::
      0 <= x < |b| && b[x] == c && (if up then Cyc(b, x + 1) < c else Cyc(b, x + 1) > c) ==> x in side
  }

  function After(n: nat, x: nat): (y: nat)
    requires x < n
    ensures y < n && LastToFirst.Before(n, y) == x
  {
    if x + 1 == n then 0 else x + 1
  }

  lemma {:induction false} AfterKind(b: seq<byte>, x: nat, c: byte, k: nat)
    requires x < |b|
    ensures Kind(b, After(|b|, x), c, k) == Kind(b, x + 1, c, k) && b[After(|b|, x)] == Cyc(b, x + 1)
  {
    hide Kind;
    KindWrap(b, 0, c, k);
  }

  /** Once all entries are read, every rotation that starts with c and lies on this side is in the list. */
  lemma {:induction false} RunComplete(side: seq<nat>, src: seq<nat>, b: seq<byte>, up: bool, c: byte, x: nat, k: nat)
    requires Grown(side, src, b, up, c, |src|) && HasSide(side, b, up, c)
    requires x < |b| && b[x] == c && Kind(b, x, c, k) == Side(up)
    ensures x in src
    decreases k
  {
    hide HasSide, Run, Beyond, LastToFirst.Before, Preds, Distinct, Ordered;
    if Cyc(b, x + 1) == c {
      var y := After(|b|, x);
      AfterKind(b, x, c, k - 1);
      RunComplete(side, src, b, up, c, y, k - 1);
      var p :| 0 <= p < |src| && src[p] == y;
      PredListed(src, b, |src|, c, p);
    } else {
      SideHas(side, b, up, c, x, k);
    }
  }

  lemma {:induction false} SideHas(side: seq<nat>, b: seq<byte>, up: bool, c: byte, x: nat, k: nat)
    requires HasSide(side, b, up, c)
    requires x < |b| && b[x] == c && Kind(b, x, c, k) == Side(up) && Cyc(b, x + 1) != c
    ensures x in side
  {
    assert Cyc(b, x) == c;
    assert k >= 2 && Kind(b, x + 1, c, k - 1) == Side(up);
  }

  /** Likewise for the predecessors that start with t. */
  lemma {:induction false} PredsComplete(side: seq<nat>, src: seq<nat>, b: seq<byte>, up: bool, c: byte, t: byte,
                                         x: nat)
    requires Grown(side, src, b, up, c, |src|) && HasSide(side, b, up, c)
    requires x < |b| && Two(b, x) == t as nat * 256 + c as nat && Kind(b, x + 1, c, |b|) == Side(up)
    ensures x in Preds(src, b, |src|, t)
  {
    hide HasSide, Run, Beyond, LastToFirst.Before, Preds, Distinct, Ordered, Kind;
    assert b[x] == t && Cyc(b, x + 1) == c;
    var y := After(|b|, x);
    AfterKind(b, x, c, |b|);
    RunComplete(side, src, b, up, c, y, |b|);
    var p :| 0 <= p < |src| && src[p] == y;
    PredListed(src, b, |src|, t, p);
  }

  // ----- the two lists of a bucket

  /** Two lists of different rotations of bucket (t, c): one below, one above. */
  ghost predicate Halves(l: seq<nat>, r: seq<nat>, b: seq<byte>, c: byte, t: byte) {
    && OfBucket(l, b, t as nat * 256 + c as nat) && OfBucket(r, b, t as nat * 256 + c as nat)
    && Continues(l, b, true, c) && Continues(r, b, false, c)
  }

  lemma {:induction false} HalvesFit(l: seq<nat>, r: seq<nat>, b: seq<byte>, c: byte, t: byte)
    requires Halves(l, r, b, c, t)
    ensures OfBucket(l + r, b, t as nat * 256 + c as nat) && |l| + |r| <= Count(b, t as nat * 256 + c as nat, |b|)
  {
    hide Two, Kind, Count;
    var m := l + r;
    forall i, j | 0 <= i < j < |m| ensures m[i] != m[j] {
      if i < |l| <= j { assert m[i] == l[i] && m[j] == r[j - |l|]; }
      else if j < |l| { assert m[i] == l[i] && m[j] == l[j]; }
      else { assert m[i] == r[i - |l|] && m[j] == r[j - |l|]; }
    }
    BucketFits(m, b, t as nat * 256 + c as nat);
  }

  /** The two scans find the whole bucket, unless the block is one byte repeated. */
  lemma {:induction false} HalvesMeet(lside: seq<nat>, lsrc: seq<nat>, rside: seq<nat>, rsrc: seq<nat>, b: seq<byte>,
                                      c: byte, t: byte)
    requires Grown(lside, lsrc, b, true, c, |lsrc|) && HasSide(lside, b, true, c)
    requires Grown(rside, rsrc, b, false, c, |rsrc|) && HasSide(rside, b, false, c)
    requires Kind(b, 0, c, |b|) != 0
    ensures |Preds(lsrc, b, |lsrc|, t)| + |Preds(rsrc, b, |rsrc|, t)| == Count(b, t as nat * 256 + c as nat, |b|)
  {
    hide HasSide, Kind, Two, Preds, Count, Beyond;
    var l, r := Preds(lsrc, b, |lsrc|, t), Preds(rsrc, b, |rsrc|, t);
    RunPreds(lsrc, b, true, c, |lsrc|, t);
    RunPreds(rsrc, b, false, c, |rsrc|, t);
    HalvesFit(l, r, b, c, t);
    forall x | 0 <= x < |b| && Two(b, x) == t as nat * 256 + c as nat ensures x in l + r {
      SomeKind(b, c, x + 1);
      if Kind(b, x + 1, c, |b|) < 0 {
        PredsComplete(lside, lsrc, b, true, c, t, x);
      } else {
        PredsComplete(rside, rsrc, b, false, c, t, x);
      }
    }
    BucketCovers(l + r, b, t as nat * 256 + c as nat);
  }

  lemma {:induction false} SomeKind(b: seq<byte>, c: byte, x: nat)
    requires |b| > 0 && Kind(b, 0, c, |b|) != 0
    ensures Kind(b, x, c, |b|) == -1 || Kind(b, x, c, |b|) == 1
  {
    KindRange(b, x, c, |b|);
    if Kind(b, x, c, |b|) == 0 {
      var y := x * |b|;
      Multiple(b, x, c);
      AllSame(b, x, c, y + |b|, |b|);
      Multiple(b, x + 1, c);
    }
  }

  lemma {:induction false} KindRange(b: seq<byte>, x: nat, c: byte, k: nat)
    requires |b| > 0
    ensures -1 <= Kind(b, x, c, k) <= 1
    decreases k
  {
    if k > 0 { KindRange(b, x + 1, c, k - 1); }
  }

  lemma {:induction false} Multiple(b: seq<byte>, x: nat, c: byte)
    requires |b| > 0
    ensures x * |b| >= x && (x + 1) * |b| == x * |b| + |b|
    ensures Kind(b, x * |b|, c, |b|) == Kind(b, 0, c, |b|)
  {
    hide Kind;
    if x > 0 {
      Multiple(b, x - 1, c);
      KindWrap(b, (x - 1) * |b|, c, |b|);
    }
  }

  /** Everything in the lower list is at most everything in the upper one. */
  lemma {:induction false} HalvesOrder(b: seq<byte>, c: byte, t: byte, x: nat, y: nat)
    requires x < |b| && y < |b| && Two(b, x) == t as nat * 256 + c as nat == Two(b, y)
    requires Kind(b, x + 1, c, |b|) == -1 && Kind(b, y + 1, c, |b|) == 1
    ensures Cmp(b, x, y, |b|) <= 0
  {
    hide Kind, Cmp;
    assert Cyc(b, x) == Cyc(b, y);
    KindsInOrder(b, x + 1, y + 1, c, |b|);
    CmpSplit(b, x, y, 1, |b|);
    assert Cmp(b, x, y, 1) == 0 by { CmpOne(b, x, y); }
    MainCompare.Longer(b, x, y, |b| + 1);
  }

  lemma {:induction false} CmpOne(b: seq<byte>, x: nat, y: nat)
    requires |b| > 0 && Cyc(b, x) == Cyc(b, y)
    ensures Cmp(b, x, y, 1) == 0
  {
    assert Cmp(b, x + 1, y + 1, 0) == 0;
  }
}
