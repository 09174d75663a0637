/** The decoder's move-to-front list: sixteen segments of sixteen entries that slide down through mtfa. */
module MtfCache {
  import opened Bytes
  import opened MoveToFront

  const MTFA_SIZE := 4096
  const MTFL_SIZE := 16

  /** Segments are in order and apart. */
  ghost predicate Laid(base: seq<int>) {
    && |base| == 16 && 0 <= base[0] && base[15] + 16 <= 4096
    && forall k {:trigger base[k]} :: 0 <= k < 15 ==> base[k] + 16 <= base[k + 1]
  }

  lemma {:induction false} LaidOrder(base: seq<int>, j: nat, k: nat)
    requires Laid(base) && j <= k < 16
    ensures base[j] + 16 * (k - j) <= base[k]
    decreases k
  {
    if j < k { LaidOrder(base, j, k - 1); }
  }

  lemma {:induction false} LaidBounds(base: seq<int>, k: nat)
    requires Laid(base) && k < 16
    ensures 16 * k <= base[k] <= 3840 + 16 * k
  {
    LaidOrder(base, 0, k);
    LaidOrder(base, k, 15);
  }

  /** cnt entries of l, starting with number n, lie in a from address b on. */
  ghost predicate Seg(a: seq<byte>, b: int, l: seq<byte>, n: int, cnt: int) {
    && 0 <= b && 0 <= cnt && b + cnt <= |a| && 0 <= n && n + cnt <= |l|
    && a[b..b + cnt] == l[n..n + cnt]
  }

  lemma {:induction false} SegAt(a: seq<byte>, b: int, l: seq<byte>, n: int, cnt: int, t: nat)
    requires Seg(a, b, l, n, cnt) && t < cnt
    ensures a[b + t] == l[n + t]
  {
    assert a[b..b + cnt][t] == l[n..n + cnt][t];
  }

  lemma {:induction false} SegWrite(a: seq<byte>, b: int, l: seq<byte>, n: int, cnt: int, x: nat, c: byte)
    requires Seg(a, b, l, n, cnt) && x < |a| && (x < b || b + cnt <= x)
    ensures Seg(a[x := c], b, l, n, cnt)
  {
  }

  lemma {:induction false} SegCons(a: seq<byte>, b: int, l: seq<byte>, n: int, cnt: int)
    requires Seg(a, b + 1, l, n + 1, cnt) && b >= 0 && n >= 0 && a[b] == l[n]
    ensures Seg(a, b, l, n, cnt + 1)
  {
    assert a[b..b + cnt + 1] == [a[b]] + a[b + 1..b + 1 + cnt];
    assert l[n..n + cnt + 1] == [l[n]] + l[n + 1..n + 1 + cnt];
  }

  lemma {:induction false} SegOther(a: seq<byte>, a': seq<byte>, b: int, l: seq<byte>, l': seq<byte>, n: int, n': int,
                                    cnt: int)
    requires Seg(a, b, l, n, cnt) && |a'| == |a| && 0 <= n' && n' + cnt <= |l'|
    requires forall x {:trigger a'[x]} :: b <= x < b + cnt ==> a'[x] == a[x]
    requires n >= 0 && n + cnt <= |l| && l'[n'..n' + cnt] == l[n..n + cnt]
    ensures Seg(a', b, l', n', cnt)
  {
    assert a'[b..b + cnt] == a[b..b + cnt];
  }

  lemma {:induction false} MoveSlices(l: seq<byte>, k: nat, n: nat, cnt: nat)
    requires k < |l|
    ensures n + cnt <= k ==> MoveFront(l, k)[n + 1..n + 1 + cnt] == l[n..n + cnt]
    ensures k < n && n + cnt <= |l| ==> MoveFront(l, k)[n..n + cnt] == l[n..n + cnt]
  {
  }

  ghost predicate SegK(a: seq<byte>, base: seq<int>, l: seq<byte>, k: int)
    requires 0 <= k < |base|
  {
    Seg(a, base[k], l, 16 * k, 16)
  }

  /** The segments stand for the list l. */
  ghost predicate Stands(a: seq<byte>, base: seq<int>, l: seq<byte>) {
    && |a| == 4096 && |l| == 256 && Laid(base)
    && forall k {:trigger SegK(a, base, l, k)} :: 0 <= k < 16 ==> SegK(a, base, l, k)
  }

  /** Entry x of the list is found at offset x mod 16 of segment x div 16. */
  lemma {:induction false} StandsAt(a: seq<byte>, base: seq<int>, l: seq<byte>, x: nat)
    requires Stands(a, base, l) && x < 256
    ensures 0 <= base[x / 16] + x % 16 < 4096 && a[base[x / 16] + x % 16] == l[x]
  {
    assert SegK(a, base, l, x / 16);
    SegAt(a, base[x / 16], l, 16 * (x / 16), 16, x % 16);
  }

  /** A layout stands for only one list. */
  lemma {:induction false} StandsUnique(a: seq<byte>, base: seq<int>, l: seq<byte>, m: seq<byte>)
    requires Stands(a, base, l) && Stands(a, base, m)
    ensures l == m
  {
    forall x | 0 <= x < 256 ensures l[x] == m[x] {
      StandsAt(a, base, l, x);
      StandsAt(a, base, m, x);
    }
  }

  // ----- the general case

  /** Segments below k hold the old list l, those above k the new list m; segment k lacks its first entry. */
  ghost predicate Sliding(a: seq<byte>, base: seq<int>, l: seq<byte>, m: seq<byte>, k: nat, nn: nat) {
    && |a| == 4096 && |base| == 16 && |l| == |m| == 256 && 16 * k <= nn < 256 && m == MoveFront(l, nn)
    && 0 < base[0] && base[15] + 16 <= 4096 + (if k == 15 then 1 else 0)
    && (forall j {:trigger base[j]} :: 0 <= j < 15 ==> base[j] + (if j == k then 15 else 16) <= base[j + 1])
    && (forall j {:trigger SegK(a, base, l, j)} :: 0 <= j < k ==> SegK(a, base, l, j))
    && (forall j {:trigger SegK(a, base, m, j)} :: k < j < 16 ==> SegK(a, base, m, j))
    && Seg(a, base[k], m, 16 * k + 1, 15)
  }

  lemma {:induction false} SlidingOrder(base: seq<int>, k: nat, i: nat, j: nat)
    requires |base| == 16
      && (forall j {:trigger base[j]} :: 0 <= j < 15 ==> base[j] + (if j == k then 15 else 16) <= base[j + 1])
    requires i < j < 16
    ensures base[i] + (if i == k then 15 else 16) <= base[j]
    decreases j
  {
    if i < j - 1 { SlidingOrder(base, k, i, j - 1); }
  }

  /** The entry that moves up a segment. */
  lemma {:induction false} SlideEntry(a: seq<byte>, base: seq<int>, l: seq<byte>, m: seq<byte>, k: nat, nn: nat)
    requires Sliding(a, base, l, m, k, nn) && 0 < k < 16
    ensures 0 <= base[k] - 1 < 4096 && 0 <= base[k - 1] && base[k - 1] + 15 < 4096 && a[base[k - 1] + 15] == m[16 * k]
  {
    assert SegK(a, base, l, k - 1);
    SegAt(a, base[k - 1], l, 16 * (k - 1), 16, 15);
    assert Seg(a, base[k], m, 16 * k + 1, 15);
  }

  /** One turn of the loop over lno: the last entry of the segment below becomes the first of this one. */
  lemma {:induction false} SlideStep(a: seq<byte>, base: seq<int>, l: seq<byte>, m: seq<byte>, k: nat, nn: nat)
    requires Sliding(a, base, l, m, k, nn) && 0 < k < 16
    ensures 0 <= base[k] - 1 < 4096 && 0 <= base[k - 1] + 15 < 4096
    ensures Sliding(a[base[k] - 1 := a[base[k - 1] + 15]], base[k := base[k] - 1], l, m, k - 1, nn)
  {
    hide Seg, MoveFront;
    SlideEntry(a, base, l, m, k, nn);
    var b := base[k] - 1;
    assert base[k - 1] + 16 <= base[k];
    var c := a[base[k - 1] + 15];
    var a', base' := a[b := c], base[k := b];
    assert SegK(a, base, l, k - 1);
    SegWrite(a, base[k], m, 16 * k + 1, 15, b, c);
    SegCons(a', b, m, 16 * k, 15);
    forall j | k - 1 < j < 16 ensures SegK(a', base', m, j) {
      if j > k {
        SlidingOrder(base, k, k, j);
        assert SegK(a, base, m, j);
        SegWrite(a, base[j], m, 16 * j, 16, b, c);
      }
    }
    forall j | 0 <= j < k - 1 ensures SegK(a', base', l, j) {
      SlidingOrder(base, k, j, k - 1);
      assert SegK(a, base, l, j);
      SegWrite(a, base[j], l, 16 * j, 16, b, c);
    }
    SegDrop(a, base[k - 1], l, 16 * (k - 1), 15);
    SegWrite(a, base[k - 1], l, 16 * (k - 1), 15, b, c);
    MoveSlices(l, nn, 16 * (k - 1), 15);
    SegOther(a', a', base[k - 1], l, m, 16 * (k - 1), 16 * (k - 1) + 1, 15);
  }

  lemma {:induction false} SegDrop(a: seq<byte>, b: int, l: seq<byte>, n: int, cnt: int)
    requires Seg(a, b, l, n, cnt + 1) && cnt >= 0
    ensures Seg(a, b, l, n, cnt)
  {
    assert a[b..b + cnt] == a[b..b + cnt + 1][..cnt];
    assert l[n..n + cnt] == l[n..n + cnt + 1][..cnt];
  }

  /** The entry taken out goes in front of the first segment. */
  lemma {:induction false} SlideEnd(a: seq<byte>, base: seq<int>, l: seq<byte>, m: seq<byte>, nn: nat)
    requires Sliding(a, base, l, m, 0, nn)
    ensures 0 <= base[0] - 1 < 4096
    ensures Stands(a[base[0] - 1 := l[nn]], base[0 := base[0] - 1], m)
  {
    hide Seg;
    var b := base[0] - 1;
    SlidingOrder(base, 0, 0, 15);
    var a', base' := a[b := l[nn]], base[0 := b];
    SegWrite(a, base[0], m, 1, 15, b, l[nn]);
    SegCons(a', b, m, 0, 15);
    forall j | 0 <= j < 16 ensures SegK(a', base', m, j) {
      if j > 0 {
        SlidingOrder(base, 0, 0, j);
        assert SegK(a, base, m, j);
        SegWrite(a, base[j], m, 16 * j, 16, b, l[nn]);
      }
    }
  }

  /** Entries up to address x of segment k have moved up by one. */
  ghost predicate Opened(a: seq<byte>, a0: seq<byte>, lo: int, x: int, hi: int) {
    && |a| == |a0| && 0 <= lo <= x <= hi < |a0|
    && (forall y {:trigger a[y]} :: 0 <= y < |a| && (y <= x || y > hi) ==> a[y] == a0[y])
    && (forall y {:trigger a[y]} :: x < y <= hi ==> a[y] == a0[y - 1])
  }

  lemma {:induction false} SlideStart(a: seq<byte>, a0: seq<byte>, base: seq<int>, l: seq<byte>, k: nat, nn: nat)
    requires Stands(a0, base, l) && 0 < base[0] && nn < 256 && k == nn / 16
    requires Opened(a, a0, base[k], base[k], base[k] + nn % 16)
    ensures Sliding(a, base[k := base[k] + 1], l, MoveFront(l, nn), k, nn)
  {
    var m, base', b := MoveFront(l, nn), base[k := base[k] + 1], base[k];
    LaidBounds(base, k);
    forall j | 0 <= j < k ensures SegK(a, base', l, j) {
      assert SegK(a0, base, l, j);
      LaidOrder(base, j, k);
      SegOther(a0, a, base[j], l, l, 16 * j, 16 * j, 16);
    }
    forall j | k < j < 16 ensures SegK(a, base', m, j) {
      assert SegK(a0, base, l, j);
      LaidOrder(base, k, j);
      MoveSlices(l, nn, 16 * j, 16);
      SegOther(a0, a, base[j], l, m, 16 * j, 16 * j, 16);
    }
    assert SegK(a0, base, l, k);
    SegOpened(a, a0, b, l, k, nn);
  }

  lemma {:induction false} SegOpened(a: seq<byte>, a0: seq<byte>, b: int, l: seq<byte>, k: nat, nn: nat)
    requires Seg(a0, b, l, 16 * k, 16) && |l| == 256 && nn < 256 && k == nn / 16 && Opened(a, a0, b, b, b + nn % 16)
    ensures Seg(a, b + 1, MoveFront(l, nn), 16 * k + 1, 15)
  {
    var m := MoveFront(l, nn);
    var s, r := a[b + 1..b + 16], m[16 * k + 1..16 * k + 16];
    forall t | 0 <= t < 15 ensures s[t] == r[t] {
      SegAt(a0, b, l, 16 * k, 16, t);
      SegAt(a0, b, l, 16 * k, 16, t + 1);
      assert s[t] == a[b + 1 + t] && r[t] == m[16 * k + 1 + t];
    }
    assert s == r;
  }

  // ----- the quick case

  lemma {:induction false} QuickMove(a: seq<byte>, a0: seq<byte>, base: seq<int>, l: seq<byte>, nn: nat)
    requires Stands(a0, base, l) && nn < 16 && Opened(a, a0, base[0], base[0], base[0] + nn)
    ensures Stands(a[base[0] := l[nn]], base, MoveFront(l, nn))
  {
    var m, a' := MoveFront(l, nn), a[base[0] := l[nn]];
    LaidBounds(base, 0);
    forall j | 0 <= j < 16 ensures SegK(a', base, m, j) {
      if j > 0 {
        assert SegK(a0, base, l, j);
        LaidOrder(base, 0, j);
        MoveSlices(l, nn, 16 * j, 16);
        SegOther(a0, a', base[j], l, m, 16 * j, 16 * j, 16);
      } else {
        var b := base[0];
        assert SegK(a0, base, l, 0);
        forall t | 0 <= t < 16 ensures a'[b + t] == m[t] {
          SegAt(a0, b, l, 0, 16, t);
          if t > 0 { SegAt(a0, b, l, 0, 16, t - 1); }
        }
        assert a'[b..b + 16] == m[0..16];
      }
    }
  }

  // ----- sliding back up

  /** Segment at src has been copied, from the top, to dst; t entries are still to be copied. */
  ghost predicate Copying(a: seq<byte>, a0: seq<byte>, src: int, dst: int, t: int) {
    && |a| == |a0| && 0 <= src <= dst && dst + 16 <= |a| && 0 <= t <= 16
    && (forall y {:trigger a[y]} :: 0 <= y < |a| && (y < dst + t || dst + 16 <= y) ==> a[y] == a0[y])
    && (forall y {:trigger a[y]} :: dst + t <= y < dst + 16 ==> a[y] == a0[y - dst + src])
  }

  ghost predicate Raised(base: seq<int>, i: nat) {
    |base| == 16 && forall k {:trigger base[k]} :: i <= k < 16 ==> base[k] == 3840 + 16 * k
  }

  lemma {:induction false} SegCopied(a: seq<byte>, a0: seq<byte>, src: int, dst: int, l: seq<byte>, n: int)
    requires Seg(a0, src, l, n, 16) && Copying(a, a0, src, dst, 0)
    ensures Seg(a, dst, l, n, 16)
  {
    var s, t := a[dst..dst + 16], a0[src..src + 16];
    forall y | 0 <= y < 16 ensures s[y] == t[y] { assert s[y] == a[dst + y]; }
    assert s == t;
  }

  lemma {:induction false} RaiseStep(a: seq<byte>, a0: seq<byte>, base: seq<int>, l: seq<byte>, i: nat)
    requires i < 16 && Stands(a0, base, l) && Raised(base, i + 1) && Copying(a, a0, base[i], 3840 + 16 * i, 0)
    ensures Stands(a, base[i := 3840 + 16 * i], l) && Raised(base[i := 3840 + 16 * i], i)
  {
    var dst := 3840 + 16 * i;
    var base' := base[i := dst];
    LaidBounds(base, i);
    forall j | 0 <= j < 16 ensures SegK(a, base', l, j) {
      assert SegK(a0, base, l, j);
      if j < i {
        LaidOrder(base, j, i);
        SegOther(a0, a, base[j], l, l, 16 * j, 16 * j, 16);
      } else if j > i {
        SegOther(a0, a, base[j], l, l, 16 * j, 16 * j, 16);
      } else {
        SegCopied(a, a0, base[i], dst, l, 16 * i);
      }
    }
    if i > 0 { LaidBounds(base, i - 1); }
  }

  /** The initial list, high in mtfa. */
  ghost predicate Filled(a: seq<byte>, kk: int) {
    |a| == 4096 && 3839 <= kk < 4096 && forall y {:trigger a[y]} :: kk < y < 4096 ==> a[y] == y - 3840
  }

  lemma {:induction false} FilledStands(a: seq<byte>, base: seq<int>)
    requires Filled(a, 3839) && Raised(base, 0)
    ensures Stands(a, base, Iota(256))
  {
    forall j | 0 <= j < 16 ensures SegK(a, base, Iota(256), j) {
      assert a[base[j]..base[j] + 16] == Iota(256)[16 * j..16 * j + 16];
    }
  }

  class MtfList {
    const mtfa: array<byte>
    const mtfbase: array<int>
    ghost var list: seq<byte>

    ghost predicate Valid()
      reads this, mtfa, mtfbase
    {
      && mtfa.Length == MTFA_SIZE && mtfbase.Length == 256 / MTFL_SIZE && mtfa as object != mtfbase
      && Stands(mtfa[..], mtfbase[..], list) && 0 < mtfbase[0]
    }

    constructor ()
      ensures Valid() && fresh(mtfa) && fresh(mtfbase) && list == Iota(256)
    {
      mtfa := new byte[MTFA_SIZE];
      mtfbase := new int[256 / MTFL_SIZE];
      new;
      Init();
    }

    /** MTF init. */
    method Init()
      requires mtfa.Length == MTFA_SIZE && mtfbase.Length == 256 / MTFL_SIZE && mtfa as object != mtfbase
      modifies this, mtfa, mtfbase
      ensures Valid() && list == Iota(256)
    {
      list := Iota(256);
      var kk := MTFA_SIZE - 1;
      var ii := 256 / MTFL_SIZE - 1;
      while ii >= 0
        invariant -1 <= ii < 16 && kk == 3840 + 16 * (ii + 1) - 1
        invariant Filled(mtfa[..], kk) && Raised(mtfbase[..], ii + 1)
        modifies mtfa, mtfbase
      {
        var jj := MTFL_SIZE - 1;
        while jj >= 0
          invariant -1 <= jj < 16 && kk == 3840 + 16 * ii + jj
          invariant Filled(mtfa[..], kk)
          modifies mtfa
        {
          mtfa[kk] := ii * MTFL_SIZE + jj;
          kk := kk - 1;
          jj := jj - 1;
        }
        mtfbase[ii] := kk + 1;
        ii := ii - 1;
      }
      FilledStands(mtfa[..], mtfbase[..]);
    }

    /** mtfa[mtfbase[0]]. */
    method Front() returns (uc: byte)
      requires Valid()
      ensures |list| == 256 && uc == list[0]
    {
      StandsAt(mtfa[..], mtfbase[..], list, 0);
      uc := mtfa[mtfbase[0]];
    }

    /** Moves the entries of a segment below offset off up by one. */
    method OpenUp(b: nat, off: nat)
      requires b + off < mtfa.Length
      modifies mtfa
      ensures Opened(mtfa[..], old(mtfa[..]), b, b, b + off)
    {
      ghost var a0 := mtfa[..];
      var pp := b + off;
      while pp > b
        invariant b <= pp <= b + off && Opened(mtfa[..], a0, b, pp, b + off)
      {
        mtfa[pp] := mtfa[pp - 1];
        pp := pp - 1;
      }
    }

    /** uc = MTF(nn): entry nn of the list, which moves to the front. */
    method Take(nn: nat) returns (uc: byte)
      requires Valid() && nn < 256
      modifies this, mtfa, mtfbase
      ensures Valid() && |old(list)| == 256 && uc == old(list)[nn] && list == MoveFront(old(list), nn)
    {
      StandsAt(mtfa[..], mtfbase[..], list, nn);
      LaidBounds(mtfbase[..], nn / 16);
      if nn < MTFL_SIZE {
        uc := TakeQuick(nn);
      } else {
        uc := TakeGeneral(nn);
        if mtfbase[0] == 0 { Rebuild(); }
      }
    }

    method TakeQuick(nn: nat) returns (uc: byte)
      requires Valid() && nn < 16
      modifies this, mtfa
      ensures Valid() && |old(list)| == 256 && uc == old(list)[nn] && list == MoveFront(old(list), nn)
    {
      ghost var a0, base := mtfa[..], mtfbase[..];
      StandsAt(a0, base, list, nn);
      LaidBounds(base, 0);
      var pp := mtfbase[0];
      uc := mtfa[pp + nn];
      OpenUp(pp, nn);
      QuickMove(mtfa[..], a0, base, list, nn);
      ghost var a := mtfa[..];
      mtfa[pp] := uc;
      assert mtfa[..] == a[pp := uc];
      list := MoveFront(list, nn);
    }

    /** The general case, up to the entry in front. */
    method TakeGeneral(nn: nat) returns (uc: byte)
      requires Valid() && 16 <= nn < 256
      modifies this, mtfa, mtfbase
      ensures mtfa.Length == MTFA_SIZE && mtfbase.Length == 16 && mtfa as object != mtfbase
      ensures |old(list)| == 256 && uc == old(list)[nn] && list == MoveFront(old(list), nn)
      ensures Stands(mtfa[..], mtfbase[..], list)
    {
      ghost var l := list;
      var lno := nn / MTFL_SIZE;
      uc := TakeOut(nn);
      list := MoveFront(l, nn);
      SlideDown(l, lno, nn);
      ghost var a, b := mtfa[..], mtfbase[..];
      SlideEnd(a, b, l, list, nn);
      mtfbase[0] := mtfbase[0] - 1;
      mtfa[mtfbase[0]] := uc;
      assert mtfa[..] == a[b[0] - 1 := uc] && mtfbase[..] == b[0 := b[0] - 1];
    }

    /** Takes entry nn out of its segment. */
    method TakeOut(nn: nat) returns (uc: byte)
      requires Valid() && 16 <= nn < 256
      modifies mtfa, mtfbase
      ensures |list| == 256 && uc == list[nn]
      ensures Sliding(mtfa[..], mtfbase[..], list, MoveFront(list, nn), nn / 16, nn)
    {
      ghost var a0, base := mtfa[..], mtfbase[..];
      var lno, off := nn / MTFL_SIZE, nn % MTFL_SIZE;
      StandsAt(a0, base, list, nn);
      LaidBounds(base, lno);
      uc := mtfa[mtfbase[lno] + off];
      OpenUp(mtfbase[lno], off);
      SlideStart(mtfa[..], a0, base, list, lno, nn);
      mtfbase[lno] := mtfbase[lno] + 1;
      assert mtfbase[..] == base[lno := base[lno] + 1];
    }

    /** One entry moves up from each lower segment into the next. */
    method SlideDown(ghost l: seq<byte>, lno0: nat, ghost nn: nat)
      requires mtfa.Length == MTFA_SIZE && mtfbase.Length == 16 && mtfa as object != mtfbase && lno0 < 16
      requires Sliding(mtfa[..], mtfbase[..], l, list, lno0, nn)
      modifies mtfa, mtfbase
      ensures Sliding(mtfa[..], mtfbase[..], l, list, 0, nn)
    {
      var lno := lno0;
      assert MTFA_SIZE == 4096 && MTFL_SIZE == 16;
      hide *;
      while lno > 0
        invariant 0 <= lno < 16
        invariant Sliding(mtfa[..], mtfbase[..], l, list, lno, nn)
        decreases lno
      {
        ghost var a, b := mtfa[..], mtfbase[..];
        SlideStep(a, b, l, list, lno, nn);
        mtfbase[lno] := mtfbase[lno] - 1;
        mtfa[mtfbase[lno]] := mtfa[mtfbase[lno - 1] + MTFL_SIZE - 1];
        assert mtfa[..] == a[b[lno] - 1 := a[b[lno - 1] + 15]] && mtfbase[..] == b[lno := b[lno] - 1];
        lno := lno - 1;
      }
    }

    method Rebuild()
      requires mtfa.Length == MTFA_SIZE && mtfbase.Length == 16 && mtfa as object != mtfbase
      requires Stands(mtfa[..], mtfbase[..], list)
      modifies mtfa, mtfbase
      ensures Valid()
    {
      var kk := MTFA_SIZE - 1;
      var ii := 256 / MTFL_SIZE - 1;
      while ii >= 0
        invariant -1 <= ii < 16 && kk == 3840 + 16 * (ii + 1) - 1
        invariant Stands(mtfa[..], mtfbase[..], list) && Raised(mtfbase[..], ii + 1)
      {
        kk := Raise(ii, kk);
        ii := ii - 1;
      }
    }

    /** Copies segment ii to where it was at the start. */
    method Raise(ii: nat, kk0: int) returns (kk: int)
      requires mtfa.Length == MTFA_SIZE && mtfbase.Length == 16 && mtfa as object != mtfbase
      requires ii < 16 && kk0 == 3840 + 16 * ii + 15
      requires Stands(mtfa[..], mtfbase[..], list) && Raised(mtfbase[..], ii + 1)
      modifies mtfa, mtfbase
      ensures kk == kk0 - 16 && Stands(mtfa[..], mtfbase[..], list) && Raised(mtfbase[..], ii)
    {
      ghost var a0, base := mtfa[..], mtfbase[..];
      LaidBounds(base, ii);
      kk := kk0;
      var jj := MTFL_SIZE - 1;
      while jj >= 0
        invariant -1 <= jj < 16 && kk == 3840 + 16 * ii + jj
        invariant Copying(mtfa[..], a0, mtfbase[ii], 3840 + 16 * ii, jj + 1)
        modifies mtfa
      {
        mtfa[kk] := mtfa[mtfbase[ii] + jj];
        kk := kk - 1;
        jj := jj - 1;
      }
      RaiseStep(mtfa[..], a0, base, list, ii);
      mtfbase[ii] := kk + 1;
      assert mtfbase[..] == base[ii := 3840 + 16 * ii];
    }
  }
}
