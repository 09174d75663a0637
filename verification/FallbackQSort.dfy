/** fallbackSimpleSort and fallbackQSort3: sorting a stretch of fmap by the class of its entries. */
module FallbackQSort {
  import opened Shuffles
  import opened FatPartition
  import opened SortStack
  import opened Powers

  const STACK_SIZE := 100

  /** While inserting: g is fmap with the carried entry put back into the hole at h. */
  ghost predicate Inserting(g: seq<nat>, e: seq<nat>, i: int, h: int, end: int) {
    && i <= h < end
    && (forall x, y {:trigger Key(g, e, x), Key(g, e, y)} :: i <= x < y < end && y != h && x != h ==>
        Key(g, e, x) <= Key(g, e, y))
    && (forall x {:trigger Key(g, e, x)} :: i <= x < h ==> Key(g, e, x) < Key(g, e, h))
  }

  lemma {:induction false} InsertStep(g: seq<nat>, e: seq<nat>, i: nat, h: nat, end: nat)
    requires Inserting(g, e, i, h, end) && h + 1 < end <= |g| && Key(g, e, h) > Key(g, e, h + 1)
    ensures Inserting(Swap(g, h, h + 1), e, i, h + 1, end)
  {
    var g' := Swap(g, h, h + 1);
    forall x | 0 <= x < |g|
      ensures Key(g', e, x) == if x == h then Key(g, e, h + 1) else if x == h + 1 then Key(g, e, h) else Key(g, e, x)
    {
    }
  }

  lemma {:induction false} InsertDone(g: seq<nat>, e: seq<nat>, i: nat, h: nat, end: nat)
    requires Inserting(g, e, i, h, end)
    requires h + 1 == end || Key(g, e, h) <= Key(g, e, h + 1)
    ensures SortedBy(g, e, i, end)
  {
    forall x, y | i <= x < y < end
      ensures Key(g, e, x) <= Key(g, e, y)
    {
      if x == h && y > h + 1 {
        assert Key(g, e, h + 1) <= Key(g, e, y);
      }
    }
  }

  lemma {:induction false} InsertStart(g: seq<nat>, e: seq<nat>, i: nat, end: nat)
    requires i < end && SortedBy(g, e, i + 1, end)
    ensures Inserting(g, e, i, i, end)
  {
  }

  /** In the middle of an insertion: fmap with the hole at h, tmp in hand. */
  ghost predicate Carrying(f0: seq<nat>, f: seq<nat>, e: seq<nat>, tmp: nat, i: int, h: int, end: int, gap: nat) {
    && |f| == |f0| && 0 <= i <= h < end <= |f| && tmp < |e| && Indexed(f, e)
    && Shuffled(f0, f[h := tmp], i, end)
    && (gap == 1 ==> Inserting(f[h := tmp], e, i, h, end))
  }

  lemma {:induction false} CarryStart(f: seq<nat>, e: seq<nat>, i: nat, end: nat, gap: nat)
    requires i < end <= |f| && Indexed(f, e)
    requires gap == 1 ==> SortedBy(f, e, i + 1, end)
    ensures Carrying(f, f, e, f[i], i, i, end, gap)
  {
    assert f[i := f[i]] == f;
  }

  lemma {:induction false} CarryStep(f0: seq<nat>, f: seq<nat>, e: seq<nat>, tmp: nat, i: int, h: int, end: int,
                                     gap: nat)
    requires Carrying(f0, f, e, tmp, i, h, end, gap) && gap >= 1
    requires h + gap < end && Indexed(f, e) && e[tmp] > e[f[h + gap]]
    ensures Carrying(f0, f[h := f[h + gap]], e, tmp, i, h + gap, end, gap)
  {
    hide Shuffled, SortedBy, Inserting, Indexed, Swap, Key;
    var g, k := f[h := tmp], h + gap;
    CarrySwap(f, e, h, k, tmp);
    CarryShuffled(f0, g, h, k, i, end);
    if gap == 1 { InsertStep(g, e, i, h, end); }
  }

  lemma {:induction false} CarrySwap(f: seq<nat>, e: seq<nat>, h: nat, k: nat, tmp: nat)
    requires h < |f| && k < |f| && h != k && Indexed(f, e) && tmp < |e|
    ensures f[h := f[k]][k := tmp] == Swap(f[h := tmp], h, k) && Indexed(f[h := f[k]], e)
    ensures Key(f[h := tmp], e, h) == e[tmp] && Key(f[h := tmp], e, k) == e[f[k]]
  {
  }

  lemma {:induction false} CarryShuffled(f0: seq<nat>, g: seq<nat>, h: nat, k: nat, i: nat, end: nat)
    requires Shuffled(f0, g, i, end) && i <= h < end <= |g| && i <= k < end
    ensures Shuffled(f0, Swap(g, h, k), i, end)
  {
    hide Shuffled, Swap;
    SwapShuffles(g, h, k, i, end);
    ShuffledTrans(f0, g, Swap(g, h, k), i, end);
  }

  lemma {:induction false} CarryDone(f0: seq<nat>, f: seq<nat>, e: seq<nat>, tmp: nat, i: int, h: int, end: int,
                                     gap: nat)
    requires Carrying(f0, f, e, tmp, i, h, end, gap) && gap >= 1
    requires h + gap >= end || e[tmp] <= e[f[h + gap]]
    ensures Shuffled(f0, f[h := tmp], i, end) && Indexed(f[h := tmp], e)
    ensures gap == 1 ==> SortedBy(f[h := tmp], e, i, end)
  {
    hide Shuffled, SortedBy, Inserting;
    if gap == 1 { InsertDone(f[h := tmp], e, i, h, end); }
  }

  /** All entries have one and the same class. */
  ghost predicate OneClass(e: seq<nat>) {
    forall x {:trigger e[x]} :: 0 <= x < |e| ==> e[x] == e[0]
  }

  lemma {:induction false} OneClassAt(e: seq<nat>, x: nat, y: nat)
    requires x < |e| && y < |e|
    ensures OneClass(e) ==> e[x] == e[y]
  {
  }

  /** Carries entry i upwards in steps of gap while the entries there have smaller classes. */
  method Insert(fmap: array<nat>, eclass: array<nat>, i: nat, hi: nat, gap: nat)
    requires fmap != eclass && gap >= 1 && i + gap <= hi < fmap.Length
    requires Indexed(fmap[..], eclass[..])
    requires gap == 1 ==> SortedBy(fmap[..], eclass[..], i + 1, hi + 1)
    modifies fmap
    ensures Indexed(fmap[..], eclass[..])
    ensures Shuffled(old(fmap[..]), fmap[..], i, hi + 1)
    ensures gap == 1 ==> SortedBy(fmap[..], eclass[..], i, hi + 1)
    ensures OneClass(eclass[..]) ==> fmap[..] == old(fmap[..])
  {
    hide Shuffled, SortedBy, Inserting, Carrying, OneClass;
    ghost var f0, e := fmap[..], eclass[..];
    var tmp: nat := fmap[i];
    var ecTmp := eclass[tmp];
    var j := i + gap;
    CarryStart(f0, e, i, hi + 1, gap);
    while j <= hi && ecTmp > eclass[fmap[j]]
      invariant i + gap <= j <= hi + gap && tmp < |e|
      invariant Indexed(fmap[..], e)
      invariant Carrying(f0, fmap[..], e, tmp, i, j - gap, hi + 1, gap)
      invariant OneClass(e) ==> j == i + gap && fmap[..] == f0
    {
      OneClassAt(e, tmp, fmap[j]);
      CarryStep(f0, fmap[..], e, tmp, i, j - gap, hi + 1, gap);
      ghost var f := fmap[..];
      fmap[j - gap] := fmap[j];
      assert fmap[..] == f[j - gap := f[j]];
      j := j + gap;
    }
    CarryDone(f0, fmap[..], e, tmp, i, j - gap, hi + 1, gap);
    ghost var f := fmap[..];
    fmap[j - gap] := tmp;
    assert fmap[..] == f[j - gap := tmp];
  }

  /** fallbackSimpleSort: one pass with gap 4, which only prepares, then insertion sort. */
  method SimpleSort(fmap: array<nat>, eclass: array<nat>, lo: nat, hi: int)
    requires fmap != eclass && lo <= hi + 1 <= fmap.Length
    requires Indexed(fmap[..], eclass[..])
    modifies fmap
    ensures Indexed(fmap[..], eclass[..])
    ensures Shuffled(old(fmap[..]), fmap[..], lo, hi + 1)
    ensures SortedBy(fmap[..], eclass[..], lo, hi + 1)
    ensures OneClass(eclass[..]) ==> fmap[..] == old(fmap[..])
  {
    ghost var f0, e := fmap[..], eclass[..];
    ShuffledRefl(f0, lo, hi + 1);
    if lo == hi { return; }
    if hi - lo > 3 {
      InsertionPass(fmap, eclass, lo, hi, 4);
    }
    ghost var f1 := fmap[..];
    if hi > lo {
      InsertionPass(fmap, eclass, lo, hi, 1);
    } else {
      ShuffledRefl(f1, lo, hi + 1);
    }
    ShuffledTrans(f0, f1, fmap[..], lo, hi + 1);
  }

  /** Entries from i on have been inserted. */
  ghost predicate Inserted(f0: seq<nat>, f: seq<nat>, e: seq<nat>, i: int, lo: int, hi: int, gap: nat) {
    Indexed(f, e) && Shuffled(f0, f, lo, hi + 1) && (gap == 1 ==> SortedBy(f, e, i, hi + 1))
  }

  lemma {:induction false} InsertedNone(f: seq<nat>, e: seq<nat>, lo: nat, hi: nat, gap: nat)
    requires Indexed(f, e) && lo <= hi < |f|
    ensures Inserted(f, f, e, hi - gap + 1, lo, hi, gap)
  {
  }

  lemma {:induction false} InsertedOpen(f0: seq<nat>, f: seq<nat>, e: seq<nat>, i: int, lo: int, hi: int, gap: nat)
    requires Inserted(f0, f, e, i, lo, hi, gap)
    ensures Indexed(f, e) && Shuffled(f0, f, lo, hi + 1) && (gap == 1 ==> SortedBy(f, e, i, hi + 1))
  {
  }

  lemma {:induction false} InsertedNext(f0: seq<nat>, f: seq<nat>, f': seq<nat>, e: seq<nat>, i: nat, lo: nat, hi: nat,
                                        gap: nat)
    requires Inserted(f0, f, e, i + 1, lo, hi, gap) && lo <= i <= hi < |f|
    requires Indexed(f', e) && Shuffled(f, f', i, hi + 1) && (gap == 1 ==> SortedBy(f', e, i, hi + 1))
    ensures Inserted(f0, f', e, i, lo, hi, gap)
  {
    hide Indexed, Shuffled, SortedBy;
    ShuffledWiden(f, f', lo, hi + 1, i, hi + 1);
    ShuffledTrans(f0, f, f', lo, hi + 1);
  }

  method InsertionPass(fmap: array<nat>, eclass: array<nat>, lo: nat, hi: nat, gap: nat)
    requires fmap != eclass && gap >= 1 && lo + gap <= hi < fmap.Length
    requires Indexed(fmap[..], eclass[..])
    modifies fmap
    ensures Indexed(fmap[..], eclass[..])
    ensures Shuffled(old(fmap[..]), fmap[..], lo, hi + 1)
    ensures gap == 1 ==> SortedBy(fmap[..], eclass[..], lo, hi + 1)
    ensures OneClass(eclass[..]) ==> fmap[..] == old(fmap[..])
  {
    hide *;
    ghost var f0 := fmap[..];
    InsertedNone(f0, eclass[..], lo, hi, gap);
    var i: int := hi - gap;
    while i >= lo
      invariant lo - 1 <= i <= hi - gap
      invariant Inserted(f0, fmap[..], eclass[..], i + 1, lo, hi, gap)
      invariant OneClass(eclass[..]) ==> fmap[..] == f0
    {
      hide Shuffled, Indexed;
      ghost var f := fmap[..];
      InsertedOpen(f0, f, eclass[..], i + 1, lo, hi, gap);
      Insert(fmap, eclass, i, hi, gap);
      InsertedNext(f0, f, fmap[..], eclass[..], i, lo, hi, gap);
      i := i - 1;
    }
    InsertedOpen(f0, fmap[..], eclass[..], i + 1, lo, hi, gap);
  }

  ghost predicate AllMed(e: seq<nat>, med: nat) {
    forall x {:trigger e[x]} :: 0 <= x < |e| ==> e[x] == med
  }

  lemma {:induction false} AllMedAt(e: seq<nat>, med: nat, x: nat)
    requires x < |e|
    ensures AllMed(e, med) ==> e[x] == med
    ensures OneClass(e) && e[x] == med ==> AllMed(e, med)
  {
  }

  lemma {:induction false} SwapSelf(f: seq<nat>, i: nat)
    requires i < |f|
    ensures Swap(f, i, i) == f
  {
  }

  /** First inner loop: stops at an entry above med, or when the unseen part is empty. */
  method ScanUp(fmap: array<nat>, eclass: array<nat>, med: nat, ghost f0: seq<nat>,
                lo: nat, lt0: int, ul0: int, uh: int, ghost gt: int, ghost hi: int)
    returns (lt: int, ul: int)
    requires fmap != eclass && Splitting(f0, fmap[..], eclass[..], med, lo, lt0, ul0, uh, gt, hi)
    modifies fmap
    ensures Splitting(f0, fmap[..], eclass[..], med, lo, lt, ul, uh, gt, hi)
    ensures ul <= uh ==> Key(fmap[..], eclass[..], ul) > med
    ensures ul - ul0 >= 0 && lt >= lt0
    ensures AllMed(eclass[..], med) && lt0 == ul0 ==> lt == ul > uh && fmap[..] == old(fmap[..])
  {
    hide *;
    lt, ul := lt0, ul0;
    ghost var start := fmap[..];
    while true
      invariant Splitting(f0, fmap[..], eclass[..], med, lo, lt, ul, uh, gt, hi)
      invariant lt0 <= lt && ul0 <= ul
      invariant AllMed(eclass[..], med) && lt0 == ul0 ==> lt == ul && fmap[..] == start
      decreases uh - ul
    {
      if ul > uh { break; }
      ghost var f, e := fmap[..], eclass[..];
      SplitBounds(f0, f, e, med, lo, lt, ul, uh, gt, hi);
      SplitUp(f0, f, e, med, lo, lt, ul, uh, gt, hi);
      IndexedAt(f, e, ul);
      AllMedAt(e, med, f[ul]);
      var n := eclass[fmap[ul]] - med;
      if n == 0 {
        SwapSelf(f, ul);
        Exchange(fmap, ul, lt);
        lt, ul := lt + 1, ul + 1;
        continue;
      }
      if n > 0 { break; }
      ul := ul + 1;
    }
  }

  /** Second inner loop: stops at an entry below med, or when the unseen part is empty. */
  method ScanDown(fmap: array<nat>, eclass: array<nat>, med: nat, ghost f0: seq<nat>,
                  ghost lo: nat, ghost lt: int, ul: int, uh0: int, gt0: int, ghost hi: int)
    returns (uh: int, gt: int)
    requires fmap != eclass && Splitting(f0, fmap[..], eclass[..], med, lo, lt, ul, uh0, gt0, hi)
    requires ul <= uh0 ==> Key(fmap[..], eclass[..], ul) > med
    modifies fmap
    ensures Splitting(f0, fmap[..], eclass[..], med, lo, lt, ul, uh, gt, hi)
    ensures ul <= uh ==> Key(fmap[..], eclass[..], ul) > med && Key(fmap[..], eclass[..], uh) < med
    ensures uh <= uh0
    ensures ul > uh0 ==> uh == uh0 && gt == gt0 && fmap[..] == old(fmap[..])
  {
    hide *;
    uh, gt := uh0, gt0;
    ghost var start := fmap[..];
    while true
      invariant ul > uh0 ==> uh == uh0 && gt == gt0 && fmap[..] == start
      invariant Splitting(f0, fmap[..], eclass[..], med, lo, lt, ul, uh, gt, hi)
      invariant ul <= uh ==> Key(fmap[..], eclass[..], ul) > med
      invariant uh <= uh0
      decreases uh - ul
    {
      if ul > uh { break; }
      ghost var f, e := fmap[..], eclass[..];
      SplitBounds(f0, f, e, med, lo, lt, ul, uh, gt, hi);
      SplitDown(f0, f, e, med, lo, lt, ul, uh, gt, hi);
      IndexedAt(f, e, uh);
      var n := eclass[fmap[uh]] - med;
      if n == 0 {
        KeySwap(f, e, uh, gt, ul);
        Exchange(fmap, uh, gt);
        gt, uh := gt - 1, uh - 1;
        continue;
      }
      if n < 0 { break; }
      uh := uh - 1;
    }
  }

  method Partition(fmap: array<nat>, eclass: array<nat>, med: nat, lo: nat, hi: nat)
    returns (lt: int, ul: int, uh: int, gt: int)
    requires fmap != eclass && lo <= hi < fmap.Length && Indexed(fmap[..], eclass[..])
    modifies fmap
    ensures Splitting(old(fmap[..]), fmap[..], eclass[..], med, lo, lt, ul, uh, gt, hi)
    ensures uh == ul - 1
    ensures AllMed(eclass[..], med) ==> gt < lt && fmap[..] == old(fmap[..])
  {
    hide *;
    ghost var f0 := fmap[..];
    lt, ul, uh, gt := lo, lo, hi, hi;
    ShuffledRefl(f0, lo, hi + 1);
    SplitStart(f0, eclass[..], med, lo, hi);
    while true
      invariant Splitting(f0, fmap[..], eclass[..], med, lo, lt, ul, uh, gt, hi)
      invariant AllMed(eclass[..], med) ==> lt == ul && gt == hi == uh && fmap[..] == f0
      decreases uh - ul
    {
      lt, ul := ScanUp(fmap, eclass, med, f0, lo, lt, ul, uh, gt, hi);
      uh, gt := ScanDown(fmap, eclass, med, f0, lo, lt, ul, uh, gt, hi);
      SplitBounds(f0, fmap[..], eclass[..], med, lo, lt, ul, uh, gt, hi);
      if ul > uh { break; }
      ghost var f := fmap[..];
      SplitCross(f0, f, eclass[..], med, lo, lt, ul, uh, gt, hi);
      Exchange(fmap, ul, uh);
      ul, uh := ul + 1, uh - 1;
    }
  }

  /**
   * One round of the quicksort on [lo, hi]: the bounds of what is left to sort, or nothing if all classes are equal.
   */
  method Split(fmap: array<nat>, eclass: array<nat>, med: nat, lo: nat, hi: nat)
    returns (allEqual: bool, n: int, m: int)
    requires fmap != eclass && lo <= hi < fmap.Length && Indexed(fmap[..], eclass[..])
    requires exists x :: lo <= x <= hi && Key(fmap[..], eclass[..], x) == med
    modifies fmap
    ensures Indexed(fmap[..], eclass[..]) && Shuffled(old(fmap[..]), fmap[..], lo, hi + 1)
    ensures allEqual ==> ThreeWay(fmap[..], eclass[..], med, lo, lo - 1, hi + 1, hi)
    ensures !allEqual ==> lo - 1 <= n < m - 1 && m <= hi + 1 && ThreeWay(fmap[..], eclass[..], med, lo, n, m, hi)
    ensures !allEqual ==> lo <= n || m <= hi
    ensures AllMed(eclass[..], med) ==> allEqual && fmap[..] == old(fmap[..])
  {
    hide *;
    ghost var f0, e := fmap[..], eclass[..];
    var lt, ul, uh, gt := Partition(fmap, eclass, med, lo, hi);
    ghost var f1 := fmap[..];
    SplitBounds(f0, f1, e, med, lo, lt, ul, uh, gt, hi);
    SplitHasMed(f0, f1, e, med, lo, lt, ul, uh, gt, hi);
    allEqual, n, m := false, 0, 0;
    if gt < lt {
      return true, n, m;
    }
    n := Min(lt - lo, ul - lt);
    VSwap(fmap, lo, ul - n, n, lo, hi + 1);
    ghost var f2 := fmap[..];
    m := Min(hi - gt, gt - uh);
    VSwap(fmap, ul, hi - m + 1, m, lo, hi + 1);
    n := lo + ul - lt - 1;
    m := hi - (gt - uh) + 1;
    SplitFinish(f0, f1, f2, fmap[..], e, med, lo, lt, ul, gt, hi);
  }

  // ----- the explicit stack

  /** The top range has been split; its outer parts go back on the stack, a before b. */
  lemma {:induction false} PendingSplit(f: seq<nat>, f': seq<nat>, e: seq<nat>, st: seq<Range>, lo: int, hi: int,
                     med: nat, n: int, m: int, a: Range, b: Range)
    requires Pending(f, e, st, lo, hi) && st != []
    requires var r := st[|st|-1];
      && Shuffled(f, f', r.lo, r.hi + 1)
      && r.lo - 1 <= n < m - 1 && m <= r.hi + 1 && ThreeWay(f', e, med, r.lo, n, m, r.hi)
      && ((a == Range(r.lo, n) && b == Range(m, r.hi)) || (b == Range(r.lo, n) && a == Range(m, r.hi)))
    ensures Pending(f', e, st[..|st|-1] + [a, b], lo, hi)
  {
    var r, base := st[|st|-1], st[..|st|-1];
    var st' := base + [a, b];
    forall x, y | lo <= x < y <= hi
      ensures InOrder(f', e, st', x, y)
    {
      if !Covers(r, x, y) {
        OthersKept(f, f', e, st, lo, hi, x, y);
        MoreRanges(f', e, base, [a, b], x, y);
      } else {
        SplitOrder(f', e, med, r, n, m, x, y);
        assert st'[|base|] == a && st'[|base| + 1] == b;
      }
    }
  }

  lemma {:induction false} SplitOrder(f: seq<nat>, e: seq<nat>, med: nat, r: Range, n: int, m: int, x: int, y: int)
    requires ThreeWay(f, e, med, r.lo, n, m, r.hi) && n < m - 1 && r.lo <= x < y <= r.hi
    ensures Key(f, e, x) <= Key(f, e, y) || y <= n || m <= x
  {
  }

  /** Range k is at least as long as all later ones together. */
  ghost predicate HalvingAt(st: seq<Range>, k: nat)
    requires k < |st|
  {
    Size(st[k]) >= Sum(st, k + 1) && (k < |st| - 1 ==> Size(st[k]) >= 1)
  }

  ghost predicate Halving(st: seq<Range>) {
    forall k {:trigger HalvingAt(st, k)} :: 0 <= k < |st| ==> HalvingAt(st, k)
  }

  lemma {:induction false} HalvingDepth(st: seq<Range>, k: nat)
    requires Halving(st) && k <= |st| - 2
    ensures Sum(st, k) >= Pow2(|st| - 2 - k)
    decreases |st| - k
  {
    assert HalvingAt(st, k) && HalvingAt(st, k + 1);
    if k < |st| - 2 { HalvingDepth(st, k + 1); }
  }

  /** The stack never holds more ranges than the source reserves room for. */
  lemma {:induction false} StackFits(st: seq<Range>)
    requires Halving(st) && Sum(st, 0) < 0x8000_0000
    ensures |st| < STACK_SIZE - 1
  {
    if |st| >= 33 {
      HalvingDepth(st, 0);
      Pow2Monotone(31, |st| - 2);
      assert Pow2(31) == 0x8000_0000 by { Pow2Values(); }
    }
  }

  lemma {:induction false} SumReplace(base: seq<Range>, s: Range, a: Range, b: Range, k: nat)
    requires Size(a) + Size(b) <= Size(s) && k <= |base|
    ensures Sum(base + [a, b], k) == Sum(base + [s], k) - Size(s) + Size(a) + Size(b)
    ensures Sum(base, k) == Sum(base + [s], k) - Size(s)
    decreases |base| - k
  {
    if k < |base| {
      SumReplace(base, s, a, b, k + 1);
    } else {
      var t := base + [a, b];
      assert Sum(t, k) == Size(a) + Sum(t, k + 1) == Size(a) + Size(b) + Sum(t, k + 2);
    }
  }

  lemma {:induction false} HalvingPop(st: seq<Range>)
    requires Halving(st) && st != []
    ensures Halving(st[..|st|-1])
    ensures Sum(st[..|st|-1], 0) == Sum(st, 0) - Size(st[|st|-1])
  {
    hide Size, Sum;
    var base, s := st[..|st|-1], st[|st|-1];
    assert base + [s] == st;
    EmptyRange();
    forall k | 0 <= k <= |base| ensures Sum(base, k) == Sum(st, k) - Size(s) {
      SumReplace(base, s, Range(0, -1), Range(0, -1), k);
    }
    forall k | 0 <= k < |base| ensures HalvingAt(base, k) {
      assert HalvingAt(st, k);
    }
  }

  lemma {:induction false} EmptyRange()
    ensures Size(Range(0, -1)) == 0
  {
  }

  lemma {:induction false} SumTail(base: seq<Range>, a: Range, b: Range)
    ensures var t := base + [a, b]; Sum(t, |base| + 1) == Size(b) && Sum(t, |base| + 2) == 0
  {
  }

  lemma {:induction false} HalvingSplit(st: seq<Range>, a: Range, b: Range)
    requires Halving(st) && st != []
    requires Size(a) >= Size(b) && Size(a) >= 1 && Size(a) + Size(b) < Size(st[|st|-1])
    ensures Halving(st[..|st|-1] + [a, b])
    ensures Sum(st[..|st|-1] + [a, b], 0) < Sum(st, 0)
  {
    hide Size, Sum, Halving;
    var base, s := st[..|st|-1], st[|st|-1];
    SumTail(base, a, b);
    assert base + [s] == st;
    forall k | 0 <= k <= |base| ensures Sum(base + [a, b], k) == Sum(st, k) - Size(s) + Size(a) + Size(b) {
      SumReplace(base, s, a, b, k);
    }
    HalvingReplaced(base, s, a, b);
  }

  lemma {:induction false} HalvingReplaced(base: seq<Range>, s: Range, a: Range, b: Range)
    requires Halving(base + [s]) && Size(a) >= Size(b) && Size(a) >= 1
    requires Sum(base + [a, b], |base| + 1) == Size(b) && Sum(base + [a, b], |base| + 2) == 0
    requires forall k :: 0 <= k <= |base| ==> Sum(base + [a, b], k) <= Sum(base + [s], k)
    ensures Halving(base + [a, b])
  {
    hide Size, Sum;
    var t := base + [a, b];
    forall k | 0 <= k < |t| ensures HalvingAt(t, k) {
      if k < |base| { assert HalvingAt(base + [s], k); }
    }
  }

  /** What holds between two rounds of the quicksort. */
  ghost predicate Rounds(f0: seq<nat>, f: seq<nat>, e: seq<nat>, st: seq<Range>, lo: nat, hi: int) {
    && Indexed(f, e) && Pending(f, e, st, lo, hi) && Shuffled(f0, f, lo, hi + 1)
    && Halving(st) && Sum(st, 0) <= Size(Range(lo, hi))
  }

  lemma {:induction false} RoundsStart(f: seq<nat>, e: seq<nat>, lo: nat, hi: int)
    requires Indexed(f, e) && lo <= hi + 1 <= |f|
    ensures Rounds(f, f, e, [Range(lo, hi)], lo, hi)
  {
    PendingStart(f, e, lo, hi);
    var st := [Range(lo, hi)];
    assert Sum(st, 1) == 0;
  }

  lemma {:induction false} RoundsTop(f0: seq<nat>, f: seq<nat>, e: seq<nat>, st: seq<Range>, lo: nat, hi: int)
    requires Rounds(f0, f, e, st, lo, hi) && st != []
    ensures var r := st[|st|-1]; lo <= r.lo <= r.hi + 1 <= hi + 1 <= |f|
    ensures Indexed(f, e)
    ensures hi - lo < 0x7fff_ffff ==> |st| < STACK_SIZE - 1
  {
    if hi - lo < 0x7fff_ffff { StackFits(st); }
  }

  lemma {:induction false} RoundsOpen(f0: seq<nat>, f: seq<nat>, e: seq<nat>, st: seq<Range>, lo: nat, hi: int)
    requires Rounds(f0, f, e, st, lo, hi)
    ensures Indexed(f, e) && Pending(f, e, st, lo, hi) && Shuffled(f0, f, lo, hi + 1)
    ensures Halving(st) && Sum(st, 0) <= Size(Range(lo, hi))
  {
  }

  lemma {:induction false} RoundsClose(f0: seq<nat>, f: seq<nat>, e: seq<nat>, st: seq<Range>, lo: nat, hi: int)
    requires Indexed(f, e) && Pending(f, e, st, lo, hi) && Shuffled(f0, f, lo, hi + 1)
    requires Halving(st) && Sum(st, 0) <= Size(Range(lo, hi))
    ensures Rounds(f0, f, e, st, lo, hi)
  {
  }

  lemma {:induction false} SizesAdd(r: Range, n: int, m: int)
    requires r.lo - 1 <= n < m - 1 && m <= r.hi + 1
    ensures Size(Range(r.lo, n)) + Size(Range(m, r.hi)) < Size(r)
  {
  }

  lemma {:induction false} RoundsPop(f0: seq<nat>, f: seq<nat>, f': seq<nat>, e: seq<nat>, st: seq<Range>, lo: nat,
                                     hi: int)
    requires Rounds(f0, f, e, st, lo, hi) && st != [] && Indexed(f', e)
    requires var r := st[|st|-1]; Shuffled(f, f', r.lo, r.hi + 1) && SortedBy(f', e, r.lo, r.hi + 1)
    ensures Rounds(f0, f', e, st[..|st|-1], lo, hi)
    ensures Sum(st[..|st|-1], 0) <= Sum(st, 0)
  {
    hide *;
    RoundsTop(f0, f, e, st, lo, hi);
    RoundsOpen(f0, f, e, st, lo, hi);
    var r := st[|st|-1];
    PendingPop(f, f', e, st, lo, hi);
    HalvingPop(st);
    ShuffledWiden(f, f', lo, hi + 1, r.lo, r.hi + 1);
    ShuffledTrans(f0, f, f', lo, hi + 1);
    RoundsClose(f0, f', e, st[..|st|-1], lo, hi);
  }

  lemma {:induction false} RoundsSplit(f0: seq<nat>, f: seq<nat>, f': seq<nat>, e: seq<nat>, st: seq<Range>, lo: nat,
                                       hi: int,
                    med: nat, n: int, m: int, a: Range, b: Range)
    requires Rounds(f0, f, e, st, lo, hi) && st != [] && Indexed(f', e)
    requires var r := st[|st|-1];
      && Shuffled(f, f', r.lo, r.hi + 1)
      && r.lo - 1 <= n < m - 1 && m <= r.hi + 1 && ThreeWay(f', e, med, r.lo, n, m, r.hi)
      && ((a == Range(r.lo, n) && b == Range(m, r.hi)) || (b == Range(r.lo, n) && a == Range(m, r.hi)))
    requires Size(a) >= Size(b) && Size(a) >= 1
    ensures Rounds(f0, f', e, st[..|st|-1] + [a, b], lo, hi)
    ensures Sum(st[..|st|-1] + [a, b], 0) < Sum(st, 0)
  {
    hide *;
    RoundsTop(f0, f, e, st, lo, hi);
    RoundsOpen(f0, f, e, st, lo, hi);
    SizesAdd(st[|st|-1], n, m);
    var r := st[|st|-1];
    PendingSplit(f, f', e, st, lo, hi, med, n, m, a, b);
    HalvingSplit(st, a, b);
    ShuffledWiden(f, f', lo, hi + 1, r.lo, r.hi + 1);
    ShuffledTrans(f0, f, f', lo, hi + 1);
    RoundsClose(f0, f', e, st[..|st|-1] + [a, b], lo, hi);
  }

  lemma {:induction false} RoundsDone(f0: seq<nat>, f: seq<nat>, e: seq<nat>, lo: nat, hi: int)
    requires Rounds(f0, f, e, [], lo, hi)
    ensures Indexed(f, e) && Shuffled(f0, f, lo, hi + 1) && SortedBy(f, e, lo, hi + 1)
  {
    PendingDone(f, e, lo, hi);
  }

  lemma {:induction false} AllEqualSorted(f: seq<nat>, e: seq<nat>, med: nat, lo: int, hi: int)
    requires ThreeWay(f, e, med, lo, lo - 1, hi + 1, hi)
    ensures SortedBy(f, e, lo, hi + 1)
  {
  }

  lemma {:induction false} MedPicked(f: seq<nat>, e: seq<nat>, lo: nat, hi: nat, i: nat)
    requires lo <= i <= hi < |f| && Indexed(f, e)
    ensures exists x :: lo <= x <= hi && Key(f, e, x) == e[f[i]]
  {
    assert Key(f, e, i) == e[f[i]];
  }

  /** A round with the class of the entry at pick. */
  method SplitAt(fmap: array<nat>, eclass: array<nat>, pick: nat, lo: nat, hi: nat)
    returns (allEqual: bool, n: int, m: int, ghost med: nat)
    requires fmap != eclass && lo <= pick <= hi < fmap.Length && Indexed(fmap[..], eclass[..])
    modifies fmap
    ensures Indexed(fmap[..], eclass[..]) && Shuffled(old(fmap[..]), fmap[..], lo, hi + 1)
    ensures allEqual ==> SortedBy(fmap[..], eclass[..], lo, hi + 1)
    ensures !allEqual ==> lo - 1 <= n < m - 1 && m <= hi + 1 && ThreeWay(fmap[..], eclass[..], med, lo, n, m, hi)
    ensures !allEqual ==> lo <= n || m <= hi
    ensures OneClass(eclass[..]) ==> allEqual && fmap[..] == old(fmap[..])
  {
    hide *;
    ghost var f, e := fmap[..], eclass[..];
    IndexedAt(f, e, pick);
    var z := eclass[fmap[pick]];
    med := z;
    AllMedAt(e, med, f[pick]);
    MedPicked(f, e, lo, hi, pick);
    allEqual, n, m := Split(fmap, eclass, z, lo, hi);
    if allEqual { AllEqualSorted(fmap[..], e, med, lo, hi); }
  }

  /** fallbackQSort3: three-way quicksort with its own stack, which never overflows. */
  method QSort3(fmap: array<nat>, eclass: array<nat>, loSt: nat, hiSt: int)
    requires fmap != eclass && loSt <= hiSt + 1 <= fmap.Length && hiSt - loSt < 0x7fff_ffff
    requires Indexed(fmap[..], eclass[..])
    modifies fmap
    ensures Indexed(fmap[..], eclass[..])
    ensures Shuffled(old(fmap[..]), fmap[..], loSt, hiSt + 1)
    ensures SortedBy(fmap[..], eclass[..], loSt, hiSt + 1)
    ensures OneClass(eclass[..]) ==> fmap[..] == old(fmap[..])
  {
    hide *;
    ghost var f0, e := fmap[..], eclass[..];
    var r := 0;
    var stack := [Range(loSt, hiSt)];
    RoundsStart(f0, e, loSt, hiSt);
    while |stack| > 0
      invariant 0 <= r < 32768
      invariant Rounds(f0, fmap[..], e, stack, loSt, hiSt)
      invariant OneClass(e) ==> fmap[..] == f0
      decreases Sum(stack, 0), |stack|
    {
      ghost var f := fmap[..];
      RoundsTop(f0, f, e, stack, loSt, hiSt);
      assert |stack| < STACK_SIZE - 1;
      var top := stack[|stack|-1];
      var lo, hi := top.lo, top.hi;
      if hi - lo < 10 {
        SimpleSort(fmap, eclass, lo, hi);
        RoundsPop(f0, f, fmap[..], e, stack, loSt, hiSt);
        stack := stack[..|stack|-1];
        continue;
      }
      r := (r * 7621 + 1) % 32768;
      var r3 := r % 3;
      var pick: nat := if r3 == 0 then lo else if r3 == 1 then (lo + hi) / 2 else hi;
      var allEqual, n, m, med := SplitAt(fmap, eclass, pick, lo, hi);
      if allEqual {
        RoundsPop(f0, f, fmap[..], e, stack, loSt, hiSt);
        stack := stack[..|stack|-1];
        continue;
      }
      var a, b := Range(lo, n), Range(m, hi);
      if n - lo <= hi - m { a, b := b, a; }
      SizesOrdered(lo, n, m, hi);
      RoundsSplit(f0, f, fmap[..], e, stack, loSt, hiSt, med, n, m, a, b);
      stack := stack[..|stack|-1] + [a, b];
    }
    assert stack == [];
    RoundsDone(f0, fmap[..], e, loSt, hiSt);
  }

  lemma {:induction false} SizesOrdered(lo: nat, n: int, m: nat, hi: int)
    requires lo - 1 <= n < m - 1 && m <= hi + 1 && (lo <= n || m <= hi)
    ensures n - lo > hi - m ==> Size(Range(lo, n)) >= Size(Range(m, hi)) && Size(Range(lo, n)) >= 1
    ensures n - lo <= hi - m ==> Size(Range(m, hi)) >= Size(Range(lo, n)) && Size(Range(m, hi)) >= 1
  {
  }
}
