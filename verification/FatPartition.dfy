/** Three-way partition of a stretch by keys, shared by both quicksorts. */
module FatPartition {
  import opened Shuffles

  /** All entries of f are in the range of the keys e. */
  ghost predicate Indexed(f: seq<nat>, e: seq<nat>) {
    forall i :: 0 <= i < |f| ==> f[i] < |e|
  }

  function Key(f: seq<nat>, e: seq<nat>, i: int): nat {
    if 0 <= i < |f| && f[i] < |e| then e[f[i]] else 0
  }

  /** The four regions of the fat partition: equal, less, (unseen), greater, equal. */
  ghost predicate Part(f: seq<nat>, e: seq<nat>, med: nat, lo: int, lt: int, ul: int, uh: int, gt: int, hi: int) {
    && 0 <= lo <= lt <= ul <= uh + 1 <= gt + 1 <= hi + 1 <= |f|
    && (forall x {:trigger Key(f, e, x)} :: lo <= x < lt ==> Key(f, e, x) == med)
    && (forall x {:trigger Key(f, e, x)} :: lt <= x < ul ==> Key(f, e, x) < med)
    && (forall x {:trigger Key(f, e, x)} :: uh < x <= gt ==> Key(f, e, x) > med)
    && (forall x {:trigger Key(f, e, x)} :: gt < x <= hi ==> Key(f, e, x) == med)
  }

  lemma {:induction false} KeySwap(f: seq<nat>, e: seq<nat>, i: nat, j: nat, x: int)
    requires i < |f| && j < |f|
    ensures Key(Swap(f, i, j), e, x) == Key(f, e, if x == i then j else if x == j then i else x)
  {
  }

  lemma {:induction false} SwapIndexed(f: seq<nat>, e: seq<nat>, i: nat, j: nat)
    requires i < |f| && j < |f| && Indexed(f, e)
    ensures Indexed(Swap(f, i, j), e)
  {
  }

  lemma {:induction false} UpEqual(f: seq<nat>, e: seq<nat>, med: nat, lo: int, lt: int, ul: int, uh: int, gt: int,
                                   hi: int)
    requires Part(f, e, med, lo, lt, ul, uh, gt, hi) && ul <= uh && Key(f, e, ul) == med
    ensures Part(Swap(f, ul, lt), e, med, lo, lt + 1, ul + 1, uh, gt, hi)
  {
    forall x ensures Key(Swap(f, ul, lt), e, x) == Key(f, e, if x == ul then lt else if x == lt then ul else x) {
      KeySwap(f, e, ul, lt, x);
    }
  }

  lemma {:induction false} DownEqual(f: seq<nat>, e: seq<nat>, med: nat, lo: int, lt: int, ul: int, uh: int, gt: int,
                                     hi: int)
    requires Part(f, e, med, lo, lt, ul, uh, gt, hi) && ul <= uh && Key(f, e, uh) == med
    ensures Part(Swap(f, uh, gt), e, med, lo, lt, ul, uh - 1, gt - 1, hi)
  {
    forall x ensures Key(Swap(f, uh, gt), e, x) == Key(f, e, if x == uh then gt else if x == gt then uh else x) {
      KeySwap(f, e, uh, gt, x);
    }
  }

  lemma {:induction false} Cross(f: seq<nat>, e: seq<nat>, med: nat, lo: int, lt: int, ul: int, uh: int, gt: int,
                                 hi: int)
    requires Part(f, e, med, lo, lt, ul, uh, gt, hi) && ul <= uh
    requires Key(f, e, ul) > med && Key(f, e, uh) < med
    ensures ul < uh && Part(Swap(f, ul, uh), e, med, lo, lt, ul + 1, uh - 1, gt, hi)
  {
    forall x ensures Key(Swap(f, ul, uh), e, x) == Key(f, e, if x == ul then uh else if x == uh then ul else x) {
      KeySwap(f, e, ul, uh, x);
    }
  }

  /** The state a scan keeps: a partition of a rearrangement of the entries it began with. */
  ghost predicate Splitting(f0: seq<nat>, f: seq<nat>, e: seq<nat>, med: nat,
                            lo: int, lt: int, ul: int, uh: int, gt: int, hi: int) {
    Part(f, e, med, lo, lt, ul, uh, gt, hi) && Indexed(f, e) && Shuffled(f0, f, lo, hi + 1)
  }

  lemma {:induction false} SplitSwap(f0: seq<nat>, f: seq<nat>, e: seq<nat>, lo: nat, hi: int, i: nat, j: nat)
    requires Indexed(f, e) && Shuffled(f0, f, lo, hi + 1) && lo <= i <= hi && lo <= j <= hi
    ensures Indexed(Swap(f, i, j), e) && Shuffled(f0, Swap(f, i, j), lo, hi + 1)
  {
    hide Indexed, Swap;
    SwapIndexed(f, e, i, j);
    SwapShuffles(f, i, j, lo, hi + 1);
    ShuffledTrans(f0, f, Swap(f, i, j), lo, hi + 1);
  }

  lemma {:induction false} SplitBounds(f0: seq<nat>, f: seq<nat>, e: seq<nat>, med: nat,
                    lo: int, lt: int, ul: int, uh: int, gt: int, hi: int)
    requires Splitting(f0, f, e, med, lo, lt, ul, uh, gt, hi)
    ensures 0 <= lo <= lt <= ul <= uh + 1 <= gt + 1 <= hi + 1 <= |f|
    ensures Indexed(f, e)
    ensures ul <= uh ==> Key(f, e, ul) == e[f[ul]] && Key(f, e, uh) == e[f[uh]]
  {
  }

  lemma {:induction false} SplitUp(f0: seq<nat>, f: seq<nat>, e: seq<nat>, med: nat,
                lo: int, lt: int, ul: int, uh: int, gt: int, hi: int)
    requires Splitting(f0, f, e, med, lo, lt, ul, uh, gt, hi) && ul <= uh
    ensures 0 <= lt < |f| && 0 <= ul < |f|
    ensures Key(f, e, ul) == med ==> Splitting(f0, Swap(f, ul, lt), e, med, lo, lt + 1, ul + 1, uh, gt, hi)
    ensures Key(f, e, ul) < med ==> Splitting(f0, f, e, med, lo, lt, ul + 1, uh, gt, hi)
  {
    if Key(f, e, ul) == med {
      UpEqual(f, e, med, lo, lt, ul, uh, gt, hi);
      SplitSwap(f0, f, e, lo, hi, ul, lt);
    }
  }

  lemma {:induction false} SplitDown(f0: seq<nat>, f: seq<nat>, e: seq<nat>, med: nat,
                  lo: int, lt: int, ul: int, uh: int, gt: int, hi: int)
    requires Splitting(f0, f, e, med, lo, lt, ul, uh, gt, hi) && ul <= uh
    ensures 0 <= uh < |f| && 0 <= gt < |f|
    ensures Key(f, e, uh) == med ==> Splitting(f0, Swap(f, uh, gt), e, med, lo, lt, ul, uh - 1, gt - 1, hi)
    ensures Key(f, e, uh) > med ==> Splitting(f0, f, e, med, lo, lt, ul, uh - 1, gt, hi)
  {
    if Key(f, e, uh) == med {
      DownEqual(f, e, med, lo, lt, ul, uh, gt, hi);
      SplitSwap(f0, f, e, lo, hi, uh, gt);
    }
  }

  lemma {:induction false} SplitCross(f0: seq<nat>, f: seq<nat>, e: seq<nat>, med: nat,
                   lo: int, lt: int, ul: int, uh: int, gt: int, hi: int)
    requires Splitting(f0, f, e, med, lo, lt, ul, uh, gt, hi) && ul <= uh
    requires Key(f, e, ul) > med && Key(f, e, uh) < med
    ensures 0 <= ul < |f| && 0 <= uh < |f| && ul < uh
    ensures Splitting(f0, Swap(f, ul, uh), e, med, lo, lt, ul + 1, uh - 1, gt, hi)
  {
    hide Shuffled, Indexed;
    Cross(f, e, med, lo, lt, ul, uh, gt, hi);
    SplitSwap(f0, f, e, lo, hi, ul, uh);
  }

  lemma {:induction false} IndexedAt(f: seq<nat>, e: seq<nat>, i: int)
    requires Indexed(f, e) && 0 <= i < |f|
    ensures f[i] < |e|
  {
  }

  /** fswap. */
  method Exchange(fmap: array<nat>, i: nat, j: nat)
    requires i < fmap.Length && j < fmap.Length
    modifies fmap
    ensures fmap[..] == Swap(old(fmap[..]), i, j)
  {
    fmap[i], fmap[j] := fmap[j], fmap[i];
  }

  lemma {:induction false} SplitStart(f: seq<nat>, e: seq<nat>, med: nat, lo: nat, hi: nat)
    requires lo <= hi < |f| && Indexed(f, e) && Shuffled(f, f, lo, hi + 1)
    ensures Splitting(f, f, e, med, lo, lo, lo, hi, hi, hi)
  {
  }

  /** a with the n entries from p1 on exchanged for those from p2 on. */
  ghost predicate Exchanged(a: seq<nat>, b: seq<nat>, p1: int, p2: int, n: int) {
    && |a| == |b| && 0 <= p1 && p1 + n <= p2 && 0 <= n && p2 + n <= |a|
    && forall x {:trigger b[x]} :: 0 <= x < |a| ==>
         b[x] == a[if p1 <= x < p1 + n then x - p1 + p2 else if p2 <= x < p2 + n then x - p2 + p1 else x]
  }

  lemma {:induction false} ExchangedStep(a: seq<nat>, b: seq<nat>, p1: nat, p2: nat, n: nat)
    requires Exchanged(a, b, p1, p2, n) && p1 + n < p2 && p2 + n < |a|
    ensures |a| == |b| && Exchanged(a, Swap(b, p1 + n, p2 + n), p1, p2, n + 1)
  {
  }

  /** The first n pairs have been exchanged, all of them between lo and end. */
  ghost predicate Exchanging(a: seq<nat>, b: seq<nat>, p1: int, p2: int, n: int, lo: int, end: int) {
    Exchanged(a, b, p1, p2, n) && Shuffled(a, b, lo, end)
  }

  lemma {:induction false} ExchangingNone(a: seq<nat>, p1: nat, p2: nat, lo: nat, end: nat)
    requires lo <= p1 <= p2 <= end <= |a|
    ensures Exchanging(a, a, p1, p2, 0, lo, end)
  {
  }

  lemma {:induction false} ExchangingStep(a: seq<nat>, b: seq<nat>, p1: nat, p2: nat, n: nat, lo: nat, end: nat)
    requires Exchanging(a, b, p1, p2, n, lo, end) && lo <= p1 && p1 + n < p2 && p2 + n < end
    ensures |a| == |b| && end <= |a| && Exchanging(a, Swap(b, p1 + n, p2 + n), p1, p2, n + 1, lo, end)
  {
    hide *;
    ExchangingLength(a, b, p1, p2, n, lo, end);
    ExchangedStep(a, b, p1, p2, n);
    SwapShuffles(b, p1 + n, p2 + n, lo, end);
    ShuffledTrans(a, b, Swap(b, p1 + n, p2 + n), lo, end);
    ExchangingClose(a, Swap(b, p1 + n, p2 + n), p1, p2, n + 1, lo, end);
  }

  lemma {:induction false} ExchangingClose(a: seq<nat>, b: seq<nat>, p1: nat, p2: nat, n: nat, lo: nat, end: nat)
    requires Exchanged(a, b, p1, p2, n) && Shuffled(a, b, lo, end)
    ensures Exchanging(a, b, p1, p2, n, lo, end)
  {
  }

  lemma {:induction false} ExchangingLength(a: seq<nat>, b: seq<nat>, p1: int, p2: int, n: int, lo: int, end: int)
    requires Exchanging(a, b, p1, p2, n, lo, end)
    ensures |a| == |b| && end <= |a| && Exchanged(a, b, p1, p2, n) && Shuffled(a, b, lo, end)
  {
  }

  /** fvswap. */
  method VSwap(fmap: array<nat>, p1: nat, p2: nat, n: nat, ghost lo: nat, ghost end: nat)
    requires lo <= p1 && p1 + n <= p2 && p2 + n <= end <= fmap.Length
    modifies fmap
    ensures Exchanged(old(fmap[..]), fmap[..], p1, p2, n)
    ensures Shuffled(old(fmap[..]), fmap[..], lo, end)
  {
    hide *;
    ghost var f0 := fmap[..];
    ExchangingNone(f0, p1, p2, lo, end);
    var y1: nat, y2: nat, left: nat := p1, p2, n;
    while left > 0
      invariant left <= n && y1 == p1 + (n - left) && y2 == p2 + (n - left)
      invariant Exchanging(f0, fmap[..], p1, p2, n - left, lo, end)
      decreases left
    {
      ExchangingStep(f0, fmap[..], p1, p2, n - left, lo, end);
      Exchange(fmap, y1, y2);
      y1, y2, left := y1 + 1, y2 + 1, left - 1;
    }
    ExchangingLength(f0, fmap[..], p1, p2, n, lo, end);
  }

  /** Less, equal, greater: the entries below n+1, between, and from m on. */
  ghost predicate ThreeWay(f: seq<nat>, e: seq<nat>, med: nat, lo: int, n: int, m: int, hi: int) {
    && (forall x {:trigger Key(f, e, x)} :: lo <= x <= n ==> Key(f, e, x) < med)
    && (forall x {:trigger Key(f, e, x)} :: n < x < m ==> Key(f, e, x) == med)
    && (forall x {:trigger Key(f, e, x)} :: m <= x <= hi ==> Key(f, e, x) > med)
  }

  function Min(a: int, b: int): (m: int)
    ensures m <= a && m <= b && (m == a || m == b)
  {
    if a < b then a else b
  }

  lemma {:induction false} MoveEqualLow(f: seq<nat>, g: seq<nat>, e: seq<nat>, med: nat, lo: int, lt: int, ul: int,
                                        gt: int, hi: int)
    requires Part(f, e, med, lo, lt, ul, ul - 1, gt, hi)
    requires Exchanged(f, g, lo, ul - Min(lt - lo, ul - lt), Min(lt - lo, ul - lt))
    ensures forall x {:trigger Key(g, e, x)} :: lo <= x <= lo + ul - lt - 1 ==> Key(g, e, x) < med
    ensures forall x {:trigger Key(g, e, x)} :: lo + ul - lt - 1 < x < ul ==> Key(g, e, x) == med
    ensures forall x {:trigger Key(g, e, x)} :: ul <= x <= gt ==> Key(g, e, x) > med
    ensures forall x {:trigger Key(g, e, x)} :: gt < x <= hi ==> Key(g, e, x) == med
    ensures |g| == |f|
  {
    var n := Min(lt - lo, ul - lt);
    forall x | 0 <= x < |f|
      ensures Key(g, e, x) ==
        Key(f, e, if lo <= x < lo + n then x - lo + ul - n else if ul - n <= x < ul then x - ul + n + lo else x)
    {
    }
  }

  lemma {:induction false} MoveEqualHigh(f: seq<nat>, g: seq<nat>, e: seq<nat>, med: nat, lo: int, ul: int, gt: int,
                                         hi: int)
    requires 0 <= lo <= ul <= gt + 1 <= hi + 1 <= |f|
    requires forall x {:trigger Key(f, e, x)} :: ul <= x <= gt ==> Key(f, e, x) > med
    requires forall x {:trigger Key(f, e, x)} :: gt < x <= hi ==> Key(f, e, x) == med
    requires Exchanged(f, g, ul, hi - Min(hi - gt, gt - (ul - 1)) + 1, Min(hi - gt, gt - (ul - 1)))
    ensures forall x {:trigger Key(g, e, x)} :: lo <= x < ul ==> Key(g, e, x) == Key(f, e, x)
    ensures forall x {:trigger Key(g, e, x)} :: ul <= x < hi - (gt - (ul - 1)) + 1 ==> Key(g, e, x) == med
    ensures forall x {:trigger Key(g, e, x)} :: hi - (gt - (ul - 1)) + 1 <= x <= hi ==> Key(g, e, x) > med
  {
    var m := Min(hi - gt, gt - (ul - 1));
    forall x | 0 <= x < |f|
      ensures Key(g, e, x) ==
        Key(f, e, if ul <= x < ul + m then x - ul + hi - m + 1 else if hi - m + 1 <= x < hi + 1 then x - hi + m - 1 + ul
            else x)
    {
    }
  }

  lemma {:induction false} SplitHasMed(f0: seq<nat>, f: seq<nat>, e: seq<nat>, med: nat,
                    lo: int, lt: int, ul: int, uh: int, gt: int, hi: int)
    requires Splitting(f0, f, e, med, lo, lt, ul, uh, gt, hi) && uh == ul - 1
    requires exists x :: lo <= x <= hi && Key(f0, e, x) == med
    ensures Part(f, e, med, lo, lt, ul, uh, gt, hi) && Indexed(f, e) && Shuffled(f0, f, lo, hi + 1)
    ensures lo < lt || gt < hi
    ensures gt < lt ==> ThreeWay(f, e, med, lo, lo - 1, hi + 1, hi)
  {
    var x :| lo <= x <= hi && Key(f0, e, x) == med;
    var y := ShuffledFrom(f, f0, lo, hi + 1, x);
    assert Key(f, e, y) == med;
  }

  lemma {:induction false} PartBounds(f: seq<nat>, e: seq<nat>, med: nat, lo: int, lt: int, ul: int, gt: int, hi: int)
    requires Part(f, e, med, lo, lt, ul, ul - 1, gt, hi)
    ensures 0 <= lo <= lt <= ul <= gt + 1 <= hi + 1 <= |f|
  {
  }

  lemma {:induction false} SplitFinish(f0: seq<nat>, f1: seq<nat>, f2: seq<nat>, f3: seq<nat>, e: seq<nat>, med: nat,
                    lo: nat, lt: int, ul: int, gt: int, hi: int)
    requires Part(f1, e, med, lo, lt, ul, ul - 1, gt, hi) && Indexed(f1, e) && Shuffled(f0, f1, lo, hi + 1)
    requires Exchanged(f1, f2, lo, ul - Min(lt - lo, ul - lt), Min(lt - lo, ul - lt)) && Shuffled(f1, f2, lo, hi + 1)
    requires Exchanged(f2, f3, ul, hi - Min(hi - gt, gt - (ul - 1)) + 1, Min(hi - gt, gt - (ul - 1)))
    requires Shuffled(f2, f3, lo, hi + 1)
    ensures Indexed(f3, e) && Shuffled(f0, f3, lo, hi + 1)
    ensures ThreeWay(f3, e, med, lo, lo + ul - lt - 1, hi - (gt - (ul - 1)) + 1, hi)
  {
    hide Shuffled, Exchanged, Indexed, Key, Part;
    PartBounds(f1, e, med, lo, lt, ul, gt, hi);
    MoveEqualLow(f1, f2, e, med, lo, lt, ul, gt, hi);
    MoveEqualHigh(f2, f3, e, med, lo, ul, gt, hi);
    ExchangedIndexed(f1, f2, e, lo, ul - Min(lt - lo, ul - lt), Min(lt - lo, ul - lt));
    ExchangedIndexed(f2, f3, e, ul, hi - Min(hi - gt, gt - (ul - 1)) + 1, Min(hi - gt, gt - (ul - 1)));
    ShuffledTrans(f0, f1, f2, lo, hi + 1);
    ShuffledTrans(f0, f2, f3, lo, hi + 1);
  }

  lemma {:induction false} ExchangedIndexed(a: seq<nat>, b: seq<nat>, e: seq<nat>, p1: int, p2: int, n: int)
    requires Exchanged(a, b, p1, p2, n) && Indexed(a, e)
    ensures Indexed(b, e)
  {
  }
}
