/** mainQSort3: three-way radix quicksort of rotations that agree on their first bytes. */
module MainQSort {
  import opened Bytes
  import opened Powers
  import opened Rotations
  import opened Shuffles
  import opened FatPartition
  import opened SortStack
  import opened MainCompare
  import MainSimpleSort

  const SMALL_THRESH := 20
  const DEPTH_THRESH := 14
  const STACK_SIZE := 100

  // ----- the order of rotations, as a rank

  /** How many of the first k rotations are smaller than rotation i. */
  ghost function Smaller(b: seq<byte>, i: nat, k: nat): nat
    requires |b| > 0
  {
    if k == 0 then 0 else Smaller(b, i, k - 1) + if Cmp(b, k - 1, i, |b|) < 0 then 1 else 0
  }

  ghost function Ranks(b: seq<byte>): (e: seq<nat>)
    requires |b| > 0
    ensures |e| == |b| && forall i :: 0 <= i < |b| ==> e[i] == Smaller(b, i, |b|)
  {
    seq(|b|, i requires 0 <= i < |b| => Smaller(b, i, |b|))
  }

  lemma {:induction false} SmallerMonotone(b: seq<byte>, x: nat, y: nat, k: nat)
    requires |b| > 0 && Cmp(b, x, y, |b|) <= 0
    ensures Smaller(b, x, k) <= Smaller(b, y, k)
    ensures Cmp(b, x, y, |b|) < 0 && x < k ==> Smaller(b, x, k) < Smaller(b, y, k)
  {
    hide Cmp;
    if k > 0 {
      SmallerMonotone(b, x, y, k - 1);
      if Cmp(b, k - 1, x, |b|) < 0 { CmpTransitive(b, k - 1, x, y, |b|); }
      CmpReflexive(b, x, |b|);
    }
  }

  /** Ranks compare like rotations. */
  lemma {:induction false} RankOrder(b: seq<byte>, x: nat, y: nat)
    requires |b| > 0 && x < |b| && y < |b|
    ensures Ranks(b)[x] <= Ranks(b)[y] <==> Cmp(b, x, y, |b|) <= 0
  {
    hide Cmp, Smaller;
    CmpSwap(b, x, y, |b|);
    if Cmp(b, x, y, |b|) <= 0 {
      SmallerMonotone(b, x, y, |b|);
    } else {
      SmallerMonotone(b, y, x, |b|);
    }
  }

  lemma {:induction false} SortedIsInOrder(f: seq<nat>, b: seq<byte>, lo: nat, end: nat)
    requires |b| > 0 && end <= |f| && Indexed(f, Ranks(b))
    ensures SortedBy(f, Ranks(b), lo, end) <==> MainSimpleSort.InOrder(f, b, lo, end)
  {
    hide Cmp, Smaller;
    forall x, y | lo <= x < y < end
      ensures Key(f, Ranks(b), x) <= Key(f, Ranks(b), y) <==> MainSimpleSort.Order(f, b, x, y) <= 0
    {
      RankOrder(b, f[x], f[y]);
    }
    if SortedBy(f, Ranks(b), lo, end) {
      forall x, y | lo <= x < y < end ensures MainSimpleSort.Order(f, b, x, y) <= 0 {
        assert Key(f, Ranks(b), x) <= Key(f, Ranks(b), y);
      }
    }
    if MainSimpleSort.InOrder(f, b, lo, end) {
      forall x, y | lo <= x < y < end ensures Key(f, Ranks(b), x) <= Key(f, Ranks(b), y) {
        assert MainSimpleSort.Order(f, b, x, y) <= 0;
      }
    }
  }

  // ----- the keys of one round

  function ByteKey(b: seq<byte>, i: nat, d: nat): nat
    requires |b| > 0
  {
    Cyc(b, i + d)
  }

  /** The bytes at depth d, as keys of the rotations. */
  ghost function ByteAt(b: seq<byte>, d: nat): (e: seq<nat>)
    requires |b| > 0
    ensures |e| == |b| && forall i :: 0 <= i < |b| ==> e[i] == Cyc(b, i + d)
  {
    seq(|b|, i requires 0 <= i < |b| => ByteKey(b, i, d))
  }

  /** block[ptr[x] + d] is the key of entry x. */
  lemma {:induction false} KeyRead(f: seq<nat>, block: seq<byte>, b: seq<byte>, d: nat, x: int)
    requires Overshot(block, b) && d <= MAX_DEPTH && 0 <= x < |f| && Indexed(f, ByteAt(b, d))
    ensures f[x] < |b| && f[x] + d < |block| && Key(f, ByteAt(b, d), x) == block[f[x] + d]
  {
    OvershotAt(block, b, f[x] + d);
  }

  /** First inner loop: stops at an entry above med, or when the unseen part is empty. */
  method ScanUp(ptr: array<nat>, block: array<byte>, d: nat, med: nat, ghost f0: seq<nat>, ghost b: seq<byte>,
                lo: nat, lt0: int, ul0: int, uh: int, ghost gt: int, ghost hi: int)
    returns (lt: int, ul: int)
    requires ptr as object != block && Overshot(block[..], b) && d <= MAX_DEPTH && |b| > 0
    requires Splitting(f0, ptr[..], ByteAt(b, d), med, lo, lt0, ul0, uh, gt, hi)
    modifies ptr
    ensures Splitting(f0, ptr[..], ByteAt(b, d), med, lo, lt, ul, uh, gt, hi)
    ensures ul <= uh ==> Key(ptr[..], ByteAt(b, d), ul) > med
    ensures ul - ul0 >= 0 && lt >= lt0
  {
    hide *;
    ghost var e := ByteAt(b, d);
    lt, ul := lt0, ul0;
    while true
      invariant Splitting(f0, ptr[..], e, med, lo, lt, ul, uh, gt, hi)
      invariant lt0 <= lt && ul0 <= ul
      decreases uh - ul
    {
      if ul > uh { break; }
      ghost var f := ptr[..];
      SplitBounds(f0, f, e, med, lo, lt, ul, uh, gt, hi);
      SplitUp(f0, f, e, med, lo, lt, ul, uh, gt, hi);
      KeyRead(f, block[..], b, d, ul);
      var n := block[ptr[ul] + d] as int - med;
      if n == 0 {
        Exchange(ptr, ul, lt);
        lt, ul := lt + 1, ul + 1;
        continue;
      }
      if n > 0 { break; }
      ul := ul + 1;
    }
  }

  /** Second inner loop: stops at an entry below med, or when the unseen part is empty. */
  method ScanDown(ptr: array<nat>, block: array<byte>, d: nat, med: nat, ghost f0: seq<nat>, ghost b: seq<byte>,
                  ghost lo: nat, ghost lt: int, ul: int, uh0: int, gt0: int, ghost hi: int)
    returns (uh: int, gt: int)
    requires ptr as object != block && Overshot(block[..], b) && d <= MAX_DEPTH && |b| > 0
    requires Splitting(f0, ptr[..], ByteAt(b, d), med, lo, lt, ul, uh0, gt0, hi)
    requires ul <= uh0 ==> Key(ptr[..], ByteAt(b, d), ul) > med
    modifies ptr
    ensures Splitting(f0, ptr[..], ByteAt(b, d), med, lo, lt, ul, uh, gt, hi)
    ensures ul <= uh ==> Key(ptr[..], ByteAt(b, d), ul) > med && Key(ptr[..], ByteAt(b, d), uh) < med
    ensures uh <= uh0
  {
    hide *;
    ghost var e := ByteAt(b, d);
    uh, gt := uh0, gt0;
    while true
      invariant Splitting(f0, ptr[..], e, med, lo, lt, ul, uh, gt, hi)
      invariant ul <= uh ==> Key(ptr[..], e, ul) > med
      invariant uh <= uh0
      decreases uh - ul
    {
      if ul > uh { break; }
      ghost var f := ptr[..];
      SplitBounds(f0, f, e, med, lo, lt, ul, uh, gt, hi);
      SplitDown(f0, f, e, med, lo, lt, ul, uh, gt, hi);
      KeyRead(f, block[..], b, d, uh);
      var n := block[ptr[uh] + d] as int - med;
      if n == 0 {
        KeySwap(f, e, uh, gt, ul);
        Exchange(ptr, uh, gt);
        gt, uh := gt - 1, uh - 1;
        continue;
      }
      if n < 0 { break; }
      uh := uh - 1;
    }
  }

  method Partition(ptr: array<nat>, block: array<byte>, d: nat, med: nat, lo: nat, hi: nat, ghost b: seq<byte>)
    returns (lt: int, ul: int, uh: int, gt: int)
    requires ptr as object != block && Overshot(block[..], b) && d <= MAX_DEPTH && |b| > 0
    requires lo <= hi < ptr.Length && Indexed(ptr[..], ByteAt(b, d))
    modifies ptr
    ensures Splitting(old(ptr[..]), ptr[..], ByteAt(b, d), med, lo, lt, ul, uh, gt, hi)
    ensures uh == ul - 1
  {
    hide *;
    ghost var f0, e := ptr[..], ByteAt(b, d);
    lt, ul, uh, gt := lo, lo, hi, hi;
    ShuffledRefl(f0, lo, hi + 1);
    SplitStart(f0, e, med, lo, hi);
    while true
      invariant Splitting(f0, ptr[..], e, med, lo, lt, ul, uh, gt, hi)
      decreases uh - ul
    {
      lt, ul := ScanUp(ptr, block, d, med, f0, b, lo, lt, ul, uh, gt, hi);
      uh, gt := ScanDown(ptr, block, d, med, f0, b, lo, lt, ul, uh, gt, hi);
      SplitBounds(f0, ptr[..], e, med, lo, lt, ul, uh, gt, hi);
      if ul > uh { break; }
      ghost var f := ptr[..];
      SplitCross(f0, f, e, med, lo, lt, ul, uh, gt, hi);
      Exchange(ptr, ul, uh);
      ul, uh := ul + 1, uh - 1;
    }
  }

  /** One round on [lo, hi]: smaller, equal, greater; or nothing but equal. */
  method Split(ptr: array<nat>, block: array<byte>, d: nat, med: nat, lo: nat, hi: nat, ghost b: seq<byte>)
    returns (allEqual: bool, n: int, m: int)
    requires ptr as object != block && Overshot(block[..], b) && d <= MAX_DEPTH && |b| > 0
    requires lo <= hi < ptr.Length && Indexed(ptr[..], ByteAt(b, d))
    requires exists x :: lo <= x <= hi && Key(ptr[..], ByteAt(b, d), x) == med
    modifies ptr
    ensures Indexed(ptr[..], ByteAt(b, d)) && Shuffled(old(ptr[..]), ptr[..], lo, hi + 1)
    ensures allEqual ==> ThreeWay(ptr[..], ByteAt(b, d), med, lo, lo - 1, hi + 1, hi)
    ensures !allEqual ==> lo - 1 <= n < m - 1 && m <= hi + 1 && ThreeWay(ptr[..], ByteAt(b, d), med, lo, n, m, hi)
  {
    hide *;
    ghost var f0, e := ptr[..], ByteAt(b, d);
    var lt, ul, uh, gt := Partition(ptr, block, d, med, lo, hi, b);
    ghost var f1 := ptr[..];
    SplitBounds(f0, f1, e, med, lo, lt, ul, uh, gt, hi);
    SplitHasMed(f0, f1, e, med, lo, lt, ul, uh, gt, hi);
    allEqual, n, m := false, 0, 0;
    if gt < lt {
      return true, n, m;
    }
    n := Min(lt - lo, ul - lt);
    VSwap(ptr, lo, ul - n, n, lo, hi + 1);
    ghost var f2 := ptr[..];
    m := Min(hi - gt, gt - uh);
    VSwap(ptr, ul, hi - m + 1, m, lo, hi + 1);
    n := lo + ul - lt - 1;
    m := hi - (gt - uh) + 1;
    SplitFinish(f0, f1, f2, ptr[..], e, med, lo, lt, ul, gt, hi);
  }

  /** mmed3: the middle one of three. */
  method Med3(a0: byte, b0: byte, c: byte) returns (m: byte)
    ensures m == a0 || m == b0 || m == c
    ensures (a0 <= m && b0 <= m) || (a0 <= m && c <= m) || (b0 <= m && c <= m)
    ensures (a0 >= m && b0 >= m) || (a0 >= m && c >= m) || (b0 >= m && c >= m)
  {
    var a, b := a0, b0;
    if a > b { a, b := b, a; }
    if b > c {
      b := c;
      if a > b { b := a; }
    }
    m := b;
  }

  // ----- the stack, with the depth of each range

  datatype Job = Job(r: Range, d: nat)

  function Ranges(js: seq<Job>): (st: seq<Range>)
    ensures |st| == |js| && forall k :: 0 <= k < |js| ==> st[k] == js[k].r
  {
    seq(|js|, k requires 0 <= k < |js| => js[k].r)
  }

  /** Entries of a waiting range agree on as many bytes as its depth says. */
  ghost predicate Deep(f: seq<nat>, b: seq<byte>, j: Job) {
    && j.d <= 15 && |b| > 0
    && forall x, y {:trigger f[x], f[y]} ::
         0 <= x < |f| && 0 <= y < |f| && j.r.lo <= x <= j.r.hi && j.r.lo <= y <= j.r.hi ==> Cmp(b, f[x], f[y], j.d) == 0
  }

  ghost predicate AllDeep(f: seq<nat>, b: seq<byte>, js: seq<Job>) {
    forall k {:trigger js[k]} :: 0 <= k < |js| ==> Deep(f, b, js[k])
  }

  lemma {:induction false} DeepAlike(f: seq<nat>, b: seq<byte>, j: Job)
    requires Deep(f, b, j) && j.r.lo <= j.r.hi < |f| && Indexed(f, Ranks(b))
    ensures j.r.lo < |f| && MainSimpleSort.Alike(f, b, f[j.r.lo], j.d, j.r.lo, j.r.hi + 1)
  {
    hide Cmp, Smaller;
    forall x | j.r.lo <= x < j.r.hi + 1 ensures f[x] < |b| && Cmp(b, f[x], f[j.r.lo], j.d) == 0 {
    }
  }

  /** Rearranging one range leaves it as deep as it was, and does not touch ranges apart from it. */
  lemma {:induction false} DeepShuffled(f: seq<nat>, f': seq<nat>, b: seq<byte>, j: Job, lo: nat, end: nat)
    requires Deep(f, b, j) && Shuffled(f, f', lo, end)
    requires (j.r.lo <= lo && end <= j.r.hi + 1) || j.r.hi < lo || end <= j.r.lo
    ensures Deep(f', b, j)
  {
    hide Cmp;
    forall x, y | 0 <= x < |f'| && 0 <= y < |f'| && j.r.lo <= x <= j.r.hi && j.r.lo <= y <= j.r.hi
      ensures Cmp(b, f'[x], f'[y], j.d) == 0
    {
      var x' := Source(f, f', lo, end, x);
      var y' := Source(f, f', lo, end, y);
    }
  }

  lemma {:induction false} AllDeepShuffled(f: seq<nat>, f': seq<nat>, b: seq<byte>, js: seq<Job>, e: seq<nat>, lo: int,
                                           hi: int)
    requires AllDeep(f, b, js) && js != [] && Pending(f, e, Ranges(js), lo, hi)
    requires var r := js[|js|-1].r; Shuffled(f, f', r.lo, r.hi + 1)
    ensures AllDeep(f', b, js)
  {
    hide Deep, Shuffled, InOrder;
    var st, r := Ranges(js), js[|js|-1].r;
    forall k | 0 <= k < |js| ensures Deep(f', b, js[k]) {
      assert st[k] == js[k].r && st[|js|-1] == r;
      DeepShuffled(f, f', b, js[k], r.lo, r.hi + 1);
    }
  }

  // ----- splitting the top range into three

  /** The range is replaced by ranges that lie in it, apart, and leave everything else in order. */
  ghost predicate Replaces(f: seq<nat>, e: seq<nat>, r: Range, more: seq<Range>) {
    && (forall k {:trigger more[k]} :: 0 <= k < |more| ==> r.lo <= more[k].lo <= more[k].hi + 1 <= r.hi + 1)
    && (forall j, k {:trigger more[j], more[k]} :: 0 <= j < k < |more| ==>
        more[j].hi < more[k].lo || more[k].hi < more[j].lo)
    && (forall x, y {:trigger InOrder(f, e, more, x, y)} :: r.lo <= x < y <= r.hi ==> InOrder(f, e, more, x, y))
  }

  lemma {:induction false} FrontRanges(f: seq<nat>, e: seq<nat>, st: seq<Range>, more: seq<Range>, x: int, y: int)
    requires InOrder(f, e, more, x, y)
    ensures InOrder(f, e, st + more, x, y)
  {
    if Key(f, e, x) > Key(f, e, y) {
      var k :| 0 <= k < |more| && Covers(more[k], x, y);
      assert (st + more)[|st| + k] == more[k];
    }
  }

  lemma {:induction false} PendingReplace(f: seq<nat>, f': seq<nat>, e: seq<nat>, st: seq<Range>, lo: int, hi: int,
                                          more: seq<Range>)
    requires Pending(f, e, st, lo, hi) && st != []
    requires var r := st[|st|-1]; Shuffled(f, f', r.lo, r.hi + 1) && Replaces(f', e, r, more)
    ensures Pending(f', e, st[..|st|-1] + more, lo, hi)
  {
    hide Shuffled, InOrder, Key;
    var r, base := st[|st|-1], st[..|st|-1];
    var st' := base + more;
    forall x, y | lo <= x < y <= hi ensures InOrder(f', e, st', x, y) {
      if !Covers(r, x, y) {
        OthersKept(f, f', e, st, lo, hi, x, y);
        MoreRanges(f', e, base, more, x, y);
      } else {
        FrontRanges(f', e, base, more, x, y);
      }
    }
    forall k | 0 <= k < |st'| ensures lo <= st'[k].lo <= st'[k].hi + 1 <= hi + 1 {
      if k < |base| { assert st'[k] == st[k]; } else { assert st'[k] == more[k - |base|]; }
    }
    forall j, k | 0 <= j < k < |st'| ensures st'[j].hi < st'[k].lo || st'[k].hi < st'[j].lo {
      RangesApart(st, more, j, k);
    }
    ShuffledLength(f, f', r.lo, r.hi + 1);
  }

  lemma {:induction false} ShuffledLength(f: seq<nat>, g: seq<nat>, lo: int, end: int)
    requires Shuffled(f, g, lo, end)
    ensures |f| == |g|
  {
  }

  lemma {:induction false} RangesApart(st: seq<Range>, more: seq<Range>, j: nat, k: nat)
    requires st != [] && j < k < |st| - 1 + |more|
    requires forall j, k {:trigger st[j], st[k]} :: 0 <= j < k < |st| ==> st[j].hi < st[k].lo || st[k].hi < st[j].lo
    requires forall j, k {:trigger more[j], more[k]} :: 0 <= j < k < |more| ==>
      more[j].hi < more[k].lo || more[k].hi < more[j].lo
    requires var r := st[|st|-1]; forall k {:trigger more[k]} :: 0 <= k < |more| ==>
      r.lo <= more[k].lo <= more[k].hi + 1 <= r.hi + 1
    ensures var st' := st[..|st|-1] + more; st'[j].hi < st'[k].lo || st'[k].hi < st'[j].lo
  {
    var n := |st| - 1;
    var st' := st[..n] + more;
    if k < n {
      assert st'[j] == st[j] && st'[k] == st[k];
    } else if j < n {
      assert st'[j] == st[j] && st'[k] == more[k - n];
      assert st[j].hi < st[n].lo || st[n].hi < st[j].lo;
    } else {
      assert st'[j] == more[j - n] && st'[k] == more[k - n];
    }
  }

  /** Two rotations that agree on d bytes and then differ. */
  lemma {:induction false} ByteDecides(b: seq<byte>, x: nat, y: nat, d: nat)
    requires |b| > 0 && Cmp(b, x, y, d) == 0
    ensures Cyc(b, x + d) < Cyc(b, y + d) ==> Cmp(b, x, y, |b|) < 0
    ensures Cyc(b, x + d) == Cyc(b, y + d) ==> Cmp(b, x, y, d + 1) == 0
  {
    CmpSplit(b, x, y, d, 1);
    assert Cmp(b, x + d + 1, y + d + 1, 0) == 0;
    Longer(b, x, y, d + 1);
  }

  /** Entries in different parts are in order. */
  lemma {:induction false} PartsInOrder(f: seq<nat>, b: seq<byte>, r: Range, d: nat, med: nat, n: int, m: int, x: int,
                                        y: int)
    requires |b| > 0 && Deep(f, b, Job(r, d)) && Indexed(f, Ranks(b))
      && ThreeWay(f, ByteAt(b, d), med, r.lo, n, m, r.hi)
    requires r.hi < |f| && r.lo <= x < y <= r.hi && n < m - 1
    ensures Key(f, Ranks(b), x) <= Key(f, Ranks(b), y)
         || (y <= n) || (m <= x) || (n < x && y < m)
  {
    hide Cmp, Smaller;
    if !(y <= n || m <= x || (n < x && y < m)) {
      assert Key(f, ByteAt(b, d), x) < Key(f, ByteAt(b, d), y);
      assert Cmp(b, f[x], f[y], d) == 0;
      ByteDecides(b, f[x], f[y], d);
      RankOrder(b, f[x], f[y]);
    }
  }

  /** The middle part agrees on one byte more. */
  lemma {:induction false} MiddleDeeper(f: seq<nat>, b: seq<byte>, r: Range, d: nat, med: nat, n: int, m: int)
    requires |b| > 0 && Deep(f, b, Job(r, d)) && d < 15 && Indexed(f, Ranks(b))
      && ThreeWay(f, ByteAt(b, d), med, r.lo, n, m, r.hi)
    requires r.lo - 1 <= n < m - 1 && m <= r.hi + 1 && r.hi < |f|
    ensures n + 1 >= 0 && Deep(f, b, Job(Range(n + 1, m - 1), d + 1))
    ensures n >= r.lo - 1 ==> Deep(f, b, Job(Range(r.lo, n), d))
    ensures m >= 0 && Deep(f, b, Job(Range(m, r.hi), d))
  {
    hide Cmp, Smaller;
    forall x, y | 0 <= x < |f| && 0 <= y < |f| && n + 1 <= x <= m - 1 && n + 1 <= y <= m - 1
      ensures Cmp(b, f[x], f[y], d + 1) == 0
    {
      assert Key(f, ByteAt(b, d), x) == med && Key(f, ByteAt(b, d), y) == med;
      assert Cmp(b, f[x], f[y], d) == 0;
      ByteDecides(b, f[x], f[y], d);
    }
  }

  // ----- how deep the stack gets

  lemma {:induction false} SumAppend(base: seq<Range>, more: seq<Range>, k: nat)
    requires k <= |base| + |more|
    ensures k <= |base| ==> Sum(base + more, k) == Sum(base, k) + Sum(more, 0)
    ensures k >= |base| ==> Sum(base + more, k) == Sum(more, k - |base|)
    decreases |base| + |more| - k
  {
    hide Size;
    if k < |base| + |more| {
      SumAppend(base, more, k + 1);
      if k < |base| { assert (base + more)[k] == base[k]; } else { assert (base + more)[k] == more[k - |base|]; }
    }
  }

  /** Twice a range covers all later ones together; only the last two ranges may be empty. */
  ghost predicate ThirdAt(st: seq<Range>, k: nat)
    requires k < |st|
  {
    2 * Size(st[k]) >= Sum(st, k + 1) && (k + 2 < |st| ==> Size(st[k]) >= 1)
  }

  ghost predicate Thirds(st: seq<Range>) {
    forall k {:trigger ThirdAt(st, k)} :: 0 <= k < |st| ==> ThirdAt(st, k)
  }

  lemma {:induction false} ThirdsDepth(st: seq<Range>, k: nat, j: nat)
    requires Thirds(st) && k + 2 * j + 3 <= |st|
    ensures Sum(st, k) >= Pow2(j)
    decreases j
  {
    hide Size;
    assert ThirdAt(st, k) && ThirdAt(st, k + 1);
    if j > 0 { ThirdsDepth(st, k + 2, j - 1); }
  }

  /** The stack never holds more ranges than the source reserves room for. */
  lemma {:induction false} StackFits(st: seq<Range>)
    requires Thirds(st) && Sum(st, 0) < 0x8000_0000
    ensures |st| < STACK_SIZE - 2
  {
    if |st| >= 98 {
      ThirdsDepth(st, 0, 31);
      Pow2Values();
    }
  }

  lemma {:induction false} ThirdsReplace(st: seq<Range>, more: seq<Range>)
    requires Thirds(st) && st != [] && Sum(more, 0) <= Size(st[|st|-1])
    requires |more| > 0 ==> Size(st[|st|-1]) >= 1
    requires forall k {:trigger ThirdAt(more, k)} :: 0 <= k < |more| ==> ThirdAt(more, k)
    ensures Thirds(st[..|st|-1] + more)
    ensures Sum(st[..|st|-1] + more, 0) == Sum(st, 0) - Size(st[|st|-1]) + Sum(more, 0)
  {
    hide Size;
    var base, top := st[..|st|-1], st[|st|-1];
    assert base + [top] == st;
    var t := base + more;
    assert Sum([top], 0) == Size(top) + Sum([top], 1);
    SumAppend(base, more, 0);
    SumAppend(base, [top], 0);
    forall k | 0 <= k < |t| ensures ThirdAt(t, k) {
      SumAppend(base, more, k + 1);
      if k < |base| {
        SumAppend(base, [top], k + 1);
        assert ThirdAt(st, k) && t[k] == st[k];
        SumNonnegative(base, k + 1);
      } else {
        assert ThirdAt(more, k - |base|) && t[k] == more[k - |base|];
      }
    }
  }

  lemma {:induction false} SumNonnegative(st: seq<Range>, k: nat)
    ensures Sum(st, k) >= 0
  {
  }

  lemma {:induction false} ThreeThirds(a: Range, b: Range, c: Range)
    requires Size(a) >= Size(b) >= Size(c) && Size(a) >= 1
    ensures forall k {:trigger ThirdAt([a, b, c], k)} :: 0 <= k < 3 ==> ThirdAt([a, b, c], k)
    ensures Sum([a, b, c], 0) == Size(a) + Size(b) + Size(c)
  {
    var m := [a, b, c];
    assert Sum(m, 3) == 0 && Sum(m, 2) == Size(c) && Sum(m, 1) == Size(b) + Size(c);
  }

  // ----- what gets less from round to round

  function Weight(js: seq<Job>, k: nat): nat
    requires forall i :: 0 <= i < |js| ==> js[i].d <= 15
    decreases |js| - k
  {
    if k >= |js| then 0 else Size(js[k].r) * (17 - js[k].d) + Weight(js, k + 1)
  }

  lemma {:induction false} WeightAppend(base: seq<Job>, more: seq<Job>, k: nat)
    requires (forall i :: 0 <= i < |base| ==> base[i].d <= 15) && (forall i :: 0 <= i < |more| ==> more[i].d <= 15)
    requires k <= |base| + |more|
    ensures k <= |base| ==> Weight(base + more, k) == Weight(base, k) + Weight(more, 0)
    ensures k >= |base| ==> Weight(base + more, k) == Weight(more, k - |base|)
    decreases |base| + |more| - k
  {
    hide Size;
    if k < |base| + |more| {
      WeightAppend(base, more, k + 1);
      if k < |base| { assert (base + more)[k] == base[k]; } else { assert (base + more)[k] == more[k - |base|]; }
    }
  }

  /** The three parts, in the order in which they are pushed. */
  ghost predicate Arranged(more: seq<Job>, j0: Job, j1: Job, j2: Job) {
    || more == [j0, j1, j2] || more == [j0, j2, j1] || more == [j1, j0, j2]
    || more == [j1, j2, j0] || more == [j2, j0, j1] || more == [j2, j1, j0]
  }

  lemma {:induction false} ThreeWeights(more: seq<Job>, j0: Job, j1: Job, j2: Job)
    requires Arranged(more, j0, j1, j2) && j0.d <= 15 && j1.d <= 15 && j2.d <= 15
    ensures |more| == 3 && forall i :: 0 <= i < |more| ==> more[i].d <= 15
    ensures Weight(more, 0) == Size(j0.r) * (17 - j0.d) + Size(j1.r) * (17 - j1.d) + Size(j2.r) * (17 - j2.d)
  {
    hide Size;
    assert Weight(more, 3) == 0;
    assert Weight(more, 2) == Size(more[2].r) * (17 - more[2].d);
    assert Weight(more, 1) == Size(more[1].r) * (17 - more[1].d) + Weight(more, 2);
  }

  /** Splitting a range makes the weight less: the middle part is not empty, and deeper. */
  lemma {:induction false} SplitLighter(js: seq<Job>, more: seq<Job>, n: int, m: int)
    requires js != [] && (forall i :: 0 <= i < |js| ==> js[i].d <= 15)
    requires var j := js[|js|-1]; j.d <= 14 && j.r.lo - 1 <= n < m - 1 && m <= j.r.hi + 1
    requires n + 1 >= 0 && m >= 0
    requires var j := js[|js|-1];
      Arranged(more, Job(Range(j.r.lo, n), j.d), Job(Range(m, j.r.hi), j.d), Job(Range(n + 1, m - 1), j.d + 1))
    ensures var t := js[..|js|-1] + more; (forall i :: 0 <= i < |t| ==> t[i].d <= 15) && Weight(t, 0) < Weight(js, 0)
  {
    var j, base := js[|js|-1], js[..|js|-1];
    assert base + [j] == js;
    ThreeWeights(more, Job(Range(j.r.lo, n), j.d), Job(Range(m, j.r.hi), j.d), Job(Range(n + 1, m - 1), j.d + 1));
    WeightAppend(base, more, 0);
    WeightAppend(base, [j], 0);
    assert Weight([j], 1) == 0;
    assert Weight([j], 0) == Size(j.r) * (17 - j.d);
    SplitProducts(Size(Range(j.r.lo, n)), Size(Range(n + 1, m - 1)), Size(Range(m, j.r.hi)), 17 - j.d);
    assert Size(j.r) == Size(Range(j.r.lo, n)) + Size(Range(n + 1, m - 1)) + Size(Range(m, j.r.hi));
  }

  lemma {:induction false} SplitProducts(x: nat, y: nat, z: nat, w: nat)
    requires y >= 1 && w >= 1
    ensures x * w + z * w + y * (w - 1) < (x + y + z) * w
  {
    assert y * (w - 1) == y * w - y;
    assert (x + y + z) * w == x * w + y * w + z * w;
  }

  lemma {:induction false} PopLighter(js: seq<Job>)
    requires js != [] && (forall i :: 0 <= i < |js| ==> js[i].d <= 15)
    ensures Weight(js[..|js|-1], 0) <= Weight(js, 0)
  {
    var j, base := js[|js|-1], js[..|js|-1];
    assert base + [j] == js;
    WeightAppend(base, [j], 0);
  }

  lemma {:induction false} DeepenLighter(js: seq<Job>)
    requires js != [] && (forall i :: 0 <= i < |js| ==> js[i].d <= 15)
    requires var j := js[|js|-1]; j.d <= 14 && Size(j.r) >= 1
    ensures var j := js[|js|-1]; var t := js[..|js|-1] + [Job(j.r, j.d + 1)];
      (forall i :: 0 <= i < |t| ==> t[i].d <= 15) && Weight(t, 0) < Weight(js, 0)
  {
    hide Weight, Size;
    var j, base := js[|js|-1], js[..|js|-1];
    var k := Job(j.r, j.d + 1);
    assert base + [j] == js;
    WeightAppend(base, [j], 0);
    WeightAppend(base, [k], 0);
    WeightOne(j);
    WeightOne(k);
    OneTimeLess(Size(j.r), 17 - j.d);
  }

  lemma {:induction false} WeightOne(j: Job)
    requires j.d <= 15
    ensures Weight([j], 0) == Size(j.r) * (17 - j.d)
  {
    hide Size;
    assert Weight([j], 1) == 0;
  }

  lemma {:induction false} OneTimeLess(x: nat, w: nat)
    requires x >= 1 && w >= 1
    ensures x * (w - 1) < x * w
  {
  }

  // ----- the rounds

  /** What holds between two rounds. */
  ghost predicate Rounds(f0: seq<nat>, f: seq<nat>, b: seq<byte>, js: seq<Job>, lo: nat, hi: int) {
    && |b| > 0 && Indexed(f, Ranks(b)) && Pending(f, Ranks(b), Ranges(js), lo, hi) && Shuffled(f0, f, lo, hi + 1)
    && AllDeep(f, b, js) && Thirds(Ranges(js)) && Sum(Ranges(js), 0) <= Size(Range(lo, hi))
  }

  lemma {:induction false} RoundsIs(f0: seq<nat>, f: seq<nat>, b: seq<byte>, js: seq<Job>, lo: nat, hi: int)
    ensures Rounds(f0, f, b, js, lo, hi) <==>
      && |b| > 0 && Indexed(f, Ranks(b)) && Pending(f, Ranks(b), Ranges(js), lo, hi) && Shuffled(f0, f, lo, hi + 1)
      && AllDeep(f, b, js) && Thirds(Ranges(js)) && Sum(Ranges(js), 0) <= Size(Range(lo, hi))
  {
  }

  lemma {:induction false} RoundsStart(f: seq<nat>, b: seq<byte>, r: nat, lo: nat, hi: int, d: nat)
    requires |b| > 0 && Indexed(f, Ranks(b)) && lo <= hi + 1 <= |f| && d <= 15
      && MainSimpleSort.Alike(f, b, r, d, lo, hi + 1)
    ensures Rounds(f, f, b, [Job(Range(lo, hi), d)], lo, hi)
    ensures forall i :: 0 <= i < 1 ==> [Job(Range(lo, hi), d)][i].d <= 15
  {
    hide Smaller;
    var js := [Job(Range(lo, hi), d)];
    assert Ranges(js) == [Range(lo, hi)];
    PendingStart(f, Ranks(b), lo, hi);
    ShuffledRefl(f, lo, hi + 1);
    assert Sum([Range(lo, hi)], 1) == 0;
    forall x, y | lo <= x <= hi && lo <= y <= hi ensures Cmp(b, f[x], f[y], d) == 0 {
      CmpSwap(b, f[y], r, d);
      CmpSwap(b, f[x], r, d);
      CmpTransitive(b, f[x], r, f[y], d);
      CmpTransitive(b, f[y], r, f[x], d);
      CmpSwap(b, f[x], f[y], d);
    }
    assert Deep(f, b, js[0]);
  }

  lemma {:induction false} RoundsTop(f0: seq<nat>, f: seq<nat>, b: seq<byte>, js: seq<Job>, lo: nat, hi: int)
    requires Rounds(f0, f, b, js, lo, hi) && js != []
    ensures var r := js[|js|-1].r; lo <= r.lo <= r.hi + 1 <= hi + 1 <= |f| && |f| == |f0|
    ensures Deep(f, b, js[|js|-1]) && js[|js|-1].d <= 15
    ensures forall i :: 0 <= i < |js| ==> js[i].d <= 15
    ensures hi - lo < 0x7fff_ffff ==> |js| < STACK_SIZE - 2
  {
    hide Cmp, Smaller;
    assert Ranges(js)[|js|-1] == js[|js|-1].r;
    forall i | 0 <= i < |js| ensures js[i].d <= 15 { assert Deep(f, b, js[i]); }
    if hi - lo < 0x7fff_ffff { StackFits(Ranges(js)); }
  }

  lemma {:induction false} RangesBase(js: seq<Job>, more: seq<Job>)
    requires js != []
    ensures Ranges(js)[..|js|-1] + Ranges(more) == Ranges(js[..|js|-1] + more)
    ensures Ranges(js)[..|js|-1] == Ranges(js[..|js|-1])
    ensures Ranges(js) != [] && Ranges(js)[|js|-1] == js[|js|-1].r
  {
  }

  /** The top range has been sorted. */
  lemma {:induction false} RoundsPop(f0: seq<nat>, f: seq<nat>, f': seq<nat>, b: seq<byte>, js: seq<Job>, lo: nat,
                                     hi: int)
    requires Rounds(f0, f, b, js, lo, hi) && js != []
    requires var r := js[|js|-1].r;
      r.lo <= r.hi + 1 && Shuffled(f, f', r.lo, r.hi + 1) && MainSimpleSort.InOrder(f', b, r.lo, r.hi + 1)
    ensures Rounds(f0, f', b, js[..|js|-1], lo, hi) && Indexed(f', Ranks(b))
  {
    hide *;
    RoundsIs(f0, f, b, js, lo, hi);
    RoundsTop(f0, f, b, js, lo, hi);
    var r := js[|js|-1].r;
    RangesBase(js, []);
    IndexedShuffled(f, f', Ranks(b), r.lo, r.hi + 1);
    SortedIsInOrder(f', b, r.lo, r.hi + 1);
    PendingPop(f, f', Ranks(b), Ranges(js), lo, hi);
    AllDeepShuffled(f, f', b, js, Ranks(b), lo, hi);
    AllDeepFront(f', b, js);
    NothingOnTop(Ranges(js));
    ThirdsReplace(Ranges(js), []);
    assert Ranges(js)[..|js|-1] + [] == Ranges(js)[..|js|-1];
    ShuffledWiden(f, f', lo, hi + 1, r.lo, r.hi + 1);
    ShuffledTrans(f0, f, f', lo, hi + 1);
    RoundsIs(f0, f', b, js[..|js|-1], lo, hi);
  }

  lemma {:induction false} NothingOnTop(st: seq<Range>)
    ensures Sum([], 0) == 0 && (st != [] ==> Size(st[|st|-1]) >= 0)
  {
  }

  lemma {:induction false} AllDeepFront(f: seq<nat>, b: seq<byte>, js: seq<Job>)
    requires AllDeep(f, b, js) && js != []
    ensures AllDeep(f, b, js[..|js|-1])
  {
    hide Deep;
    var t := js[..|js|-1];
    forall k | 0 <= k < |t| ensures Deep(f, b, t[k]) { assert t[k] == js[k]; }
  }

  lemma {:induction false} IndexedShuffled(f: seq<nat>, f': seq<nat>, e: seq<nat>, lo: nat, end: nat)
    requires Indexed(f, e) && Shuffled(f, f', lo, end)
    ensures Indexed(f', e) && |f'| == |f|
  {
    forall x | 0 <= x < |f'| ensures f'[x] < |e| { var y := Source(f, f', lo, end, x); }
  }

  /** The top range has been replaced by others that lie in it. */
  lemma {:induction false} RoundsReplace(f0: seq<nat>, f: seq<nat>, f': seq<nat>, b: seq<byte>, js: seq<Job>,
                                         more: seq<Job>, lo: nat, hi: int)
    requires Rounds(f0, f, b, js, lo, hi) && js != []
    requires |b| > 0 && AllDeep(f', b, more)
    requires var r := js[|js|-1].r;
      r.lo <= r.hi + 1 && Shuffled(f, f', r.lo, r.hi + 1) && Replaces(f', Ranks(b), r, Ranges(more))
    requires var r := js[|js|-1].r; Sum(Ranges(more), 0) <= Size(r) && Size(r) >= 1
    requires forall k {:trigger ThirdAt(Ranges(more), k)} :: 0 <= k < |Ranges(more)| ==> ThirdAt(Ranges(more), k)
    ensures Rounds(f0, f', b, js[..|js|-1] + more, lo, hi)
  {
    hide *;
    RoundsIs(f0, f, b, js, lo, hi);
    RoundsTop(f0, f, b, js, lo, hi);
    var r := js[|js|-1].r;
    RangesBase(js, more);
    IndexedShuffled(f, f', Ranks(b), r.lo, r.hi + 1);
    PendingReplace(f, f', Ranks(b), Ranges(js), lo, hi, Ranges(more));
    AllDeepShuffled(f, f', b, js, Ranks(b), lo, hi);
    AllDeepAppend(f', b, js, more);
    ThirdsReplace(Ranges(js), Ranges(more));
    ShuffledWiden(f, f', lo, hi + 1, r.lo, r.hi + 1);
    ShuffledTrans(f0, f, f', lo, hi + 1);
    RoundsIs(f0, f', b, js[..|js|-1] + more, lo, hi);
  }

  lemma {:induction false} AllDeepAppend(f: seq<nat>, b: seq<byte>, js: seq<Job>, more: seq<Job>)
    requires AllDeep(f, b, js) && js != [] && AllDeep(f, b, more)
    ensures AllDeep(f, b, js[..|js|-1] + more)
  {
    hide Deep;
    var t := js[..|js|-1] + more;
    forall k | 0 <= k < |t| ensures Deep(f, b, t[k]) {
      if k < |js| - 1 { assert t[k] == js[k]; } else { assert t[k] == more[k - (|js| - 1)]; }
    }
  }

  lemma {:induction false} RoundsDone(f0: seq<nat>, f: seq<nat>, b: seq<byte>, lo: nat, hi: int)
    requires Rounds(f0, f, b, [], lo, hi) && lo <= hi + 1 <= |f|
    ensures Indexed(f, Ranks(b)) && Shuffled(f0, f, lo, hi + 1) && MainSimpleSort.InOrder(f, b, lo, hi + 1)
  {
    hide Smaller, Cmp;
    assert Ranges([]) == [];
    PendingDone(f, Ranks(b), lo, hi);
    SortedIsInOrder(f, b, lo, hi + 1);
  }

  // ----- the three parts

  lemma {:induction false} PartSizes(r: Range, n: int, m: int)
    requires r.lo - 1 <= n < m - 1 && m <= r.hi + 1
    ensures n + 1 >= 0 && m >= 0
    ensures Size(Range(r.lo, n)) + Size(Range(m, r.hi)) + Size(Range(n + 1, m - 1)) == Size(r)
    ensures Size(Range(n + 1, m - 1)) >= 1
  {
  }

  /** Whatever their order, the three parts replace the range. */
  lemma {:induction false} PartsReplace(f: seq<nat>, b: seq<byte>, r: Range, d: nat, med: nat, n: int, m: int,
                                        more: seq<Job>)
    requires |b| > 0 && Deep(f, b, Job(r, d)) && d < 15 && Indexed(f, Ranks(b))
      && ThreeWay(f, ByteAt(b, d), med, r.lo, n, m, r.hi)
    requires r.lo - 1 <= n < m - 1 && m <= r.hi + 1 && r.hi < |f| && n + 1 >= 0 && m >= 0
    requires Arranged(more, Job(Range(r.lo, n), d), Job(Range(m, r.hi), d), Job(Range(n + 1, m - 1), d + 1))
    ensures |more| == 3 && AllDeep(f, b, more) && Replaces(f, Ranks(b), r, Ranges(more))
    ensures Ranges(more) == [more[0].r, more[1].r, more[2].r]
  {
    hide Cmp, Smaller, ThreeWay, Deep, Ranks;
    MiddleDeeper(f, b, r, d, med, n, m);
    var st := Ranges(more);
    forall x, y | r.lo <= x < y <= r.hi ensures InOrder(f, Ranks(b), st, x, y) {
      PartsInOrder(f, b, r, d, med, n, m, x, y);
      assert st[0] == more[0].r && st[1] == more[1].r && st[2] == more[2].r;
    }
  }

  /** The compare-and-swaps on nextLo, nextHi and nextD. */
  method Arrange(j0: Job, j1: Job, j2: Job) returns (more: seq<Job>)
    requires j0.r.hi >= j0.r.lo - 1 && j1.r.hi >= j1.r.lo - 1 && j2.r.hi >= j2.r.lo
    ensures Arranged(more, j0, j1, j2) && |more| == 3
    ensures Size(more[0].r) >= Size(more[1].r) >= Size(more[2].r) && Size(more[0].r) >= 1
  {
    var a, b, c := j0, j1, j2;
    if a.r.hi - a.r.lo < b.r.hi - b.r.lo { a, b := b, a; }
    if b.r.hi - b.r.lo < c.r.hi - c.r.lo { b, c := c, b; }
    if a.r.hi - a.r.lo < b.r.hi - b.r.lo { a, b := b, a; }
    more := [a, b, c];
  }

  /** All keys of the range are equal: it goes back on the stack, one byte deeper. */
  lemma {:induction false} DeeperReplaces(f: seq<nat>, b: seq<byte>, r: Range, d: nat, med: nat)
    requires |b| > 0 && Deep(f, b, Job(r, d)) && d < 15 && Indexed(f, Ranks(b))
    requires ThreeWay(f, ByteAt(b, d), med, r.lo, r.lo - 1, r.hi + 1, r.hi) && r.lo <= r.hi < |f|
    ensures AllDeep(f, b, [Job(r, d + 1)]) && Replaces(f, Ranks(b), r, [r]) && Ranges([Job(r, d + 1)]) == [r]
    ensures Sum([r], 0) == Size(r) && forall k {:trigger ThirdAt([r], k)} :: 0 <= k < 1 ==> ThirdAt([r], k)
  {
    hide Cmp, Smaller, Ranks;
    MiddleDeeper(f, b, r, d, med, r.lo - 1, r.hi + 1);
    assert Range(r.lo, r.hi) == r;
    var st := [r];
    forall x, y | r.lo <= x < y <= r.hi ensures InOrder(f, Ranks(b), st, x, y) { assert Covers(st[0], x, y); }
    assert Sum(st, 1) == 0;
  }

  /** The pivot is one of the keys. */
  lemma {:induction false} PivotPicked(f: seq<nat>, block: seq<byte>, b: seq<byte>, d: nat, lo: nat, hi: nat, i: nat)
    requires Overshot(block, b) && |b| > 0 && d <= MAX_DEPTH && lo <= i <= hi < |f| && Indexed(f, Ranks(b))
    ensures Indexed(f, ByteAt(b, d)) && f[i] + d < |block|
    ensures exists x :: lo <= x <= hi && Key(f, ByteAt(b, d), x) == block[f[i] + d]
  {
    hide Smaller, Cyc, Overshot;
    assert Indexed(f, ByteAt(b, d));
    KeyRead(f, block, b, d, i);
    assert Key(f, ByteAt(b, d), i) == block[f[i] + d];
  }

  /** One round that splits the top range [lo, hi]. */
  method SplitTop(ptr: array<nat>, block: array<byte>, js: seq<Job>, loSt: nat, hiSt: int, ghost f0: seq<nat>,
                  ghost b: seq<byte>)
    returns (next: seq<Job>)
    requires ptr as object != block && Overshot(block[..], b) && |b| > 0 && js != []
    requires Rounds(f0, ptr[..], b, js, loSt, hiSt) && js[|js|-1].d <= 14 && js[|js|-1].r.lo < js[|js|-1].r.hi
    modifies ptr
    ensures Rounds(f0, ptr[..], b, next, loSt, hiSt)
    ensures (forall i :: 0 <= i < |js| ==> js[i].d <= 15) && (forall i :: 0 <= i < |next| ==> next[i].d <= 15)
    ensures Weight(next, 0) < Weight(js, 0)
  {
    hide *;
    ghost var f := ptr[..];
    RoundsTop(f0, f, b, js, loSt, hiSt);
    RoundsIs(f0, f, b, js, loSt, hiSt);
    var lo, hi, d := js[|js|-1].r.lo, js[|js|-1].r.hi, js[|js|-1].d;
    var r := js[|js|-1].r;
    DepthIs();
    PivotPicked(f, block[..], b, d, lo, hi, lo);
    PivotPicked(f, block[..], b, d, lo, hi, hi);
    PivotPicked(f, block[..], b, d, lo, hi, (lo + hi) / 2);
    var med := Med3(block[ptr[lo] + d], block[ptr[hi] + d], block[ptr[(lo + hi) / 2] + d]);
    var allEqual, n, m := Split(ptr, block, d, med, lo, hi, b);
    IndexedShuffled(f, ptr[..], Ranks(b), lo, hi + 1);
    DeepShuffled(f, ptr[..], b, js[|js|-1], lo, hi + 1);
    SizePositive(r);
    if allEqual {
      next := js[..|js|-1] + [Job(r, d + 1)];
      DeeperReplaces(ptr[..], b, r, d, med);
      RoundsReplace(f0, f, ptr[..], b, js, [Job(r, d + 1)], loSt, hiSt);
      DeepenLighter(js);
    } else {
      PartSizes(r, n, m);
      var more := Arrange(Job(Range(lo, n), d), Job(Range(m, hi), d), Job(Range(n + 1, m - 1), d + 1));
      next := js[..|js|-1] + more;
      PartsReplace(ptr[..], b, r, d, med, n, m, more);
      ThreeThirds(more[0].r, more[1].r, more[2].r);
      ArrangedSizes(more, Job(Range(lo, n), d), Job(Range(m, hi), d), Job(Range(n + 1, m - 1), d + 1));
      RoundsReplace(f0, f, ptr[..], b, js, more, loSt, hiSt);
      SplitLighter(js, more, n, m);
    }
  }

  lemma {:induction false} SizePositive(r: Range)
    ensures r.lo < r.hi ==> Size(r) >= 1
  {
  }

  lemma {:induction false} ArrangedSizes(more: seq<Job>, j0: Job, j1: Job, j2: Job)
    requires Arranged(more, j0, j1, j2)
    ensures |more| == 3 && Size(more[0].r) + Size(more[1].r) + Size(more[2].r) == Size(j0.r) + Size(j1.r) + Size(j2.r)
  {
  }

  /** mainQSort3: a rearrangement always, and the sorted one unless the budget is used up. */
  method QSort3(ptr: array<nat>, block: array<byte>, quadrant: array<u16>, nblock: nat, loSt: nat, hiSt: int, dSt: nat,
                budget: int, ghost b: seq<byte>, ghost r: nat)
    returns (budget': int)
    requires ptr as object != block && ptr as object != quadrant
    requires MainSimpleSort.Tables(block[..], quadrant[..], b) && nblock == |b| > 0
    requires loSt <= hiSt + 1 <= ptr.Length <= nblock && dSt <= 14
    requires Indexed(ptr[..], Ranks(b)) && MainSimpleSort.Alike(ptr[..], b, r, dSt, loSt, hiSt + 1)
    modifies ptr
    ensures Shuffled(old(ptr[..]), ptr[..], loSt, hiSt + 1) && budget' <= budget
    ensures budget' >= 0 ==> MainSimpleSort.InOrder(ptr[..], b, loSt, hiSt + 1)
    ensures Distinguished(old(ptr[..]), b) ==> budget' == budget
  {
    hide *;
    ghost var f0 := ptr[..];
    MainSimpleSort.TablesIs(block[..], quadrant[..], b);
    Limits();
    budget' := budget;
    var js := [Job(Range(loSt, hiSt), dSt)];
    RoundsStart(f0, b, r, loSt, hiSt, dSt);
    while |js| > 0
      invariant Rounds(f0, ptr[..], b, js, loSt, hiSt) && budget' <= budget
      invariant Distinguished(f0, b) ==> budget' == budget
      invariant forall i :: 0 <= i < |js| ==> js[i].d <= 15
      decreases Weight(js, 0), |js|
    {
      ghost var f := ptr[..];
      RoundsTop(f0, f, b, js, loSt, hiSt);
      assert |js| < STACK_SIZE - 2;
      var top := js[|js|-1];
      var lo, hi, d := top.r.lo, top.r.hi, top.d;
      if hi - lo < SMALL_THRESH || d > DEPTH_THRESH {
        if Distinguished(f0, b) { RoundsDistinguished(f0, f, b, js, loSt, hiSt); }
        budget' := SortTop(ptr, block, quadrant, nblock, js, loSt, hiSt, budget', f0, b);
        if budget' < 0 {
          RoundsIs(f0, f, b, js, loSt, hiSt);
          ShuffledWiden(f, ptr[..], loSt, hiSt + 1, lo, hi + 1);
          ShuffledTrans(f0, f, ptr[..], loSt, hiSt + 1);
          return;
        }
        PopLighter(js);
        js := js[..|js|-1];
      } else {
        js := SplitTop(ptr, block, js, loSt, hiSt, f0, b);
      }
    }
    assert js == [];
    RoundsDone(f0, ptr[..], b, loSt, hiSt);
  }

  lemma {:induction false} RoundsDistinguished(f0: seq<nat>, f: seq<nat>, b: seq<byte>, js: seq<Job>, lo: nat, hi: int)
    requires Rounds(f0, f, b, js, lo, hi) && Distinguished(f0, b)
    ensures Distinguished(f, b)
  {
    hide *;
    RoundsIs(f0, f, b, js, lo, hi);
    MainSimpleSort.ShuffledDistinguished(f0, f, b, lo, hi + 1);
  }

  lemma {:induction false} Limits()
    ensures SMALL_THRESH == 20 && DEPTH_THRESH == 14
  {
  }

  /** A small range, or one deep enough, is sorted outright. */
  method SortTop(ptr: array<nat>, block: array<byte>, quadrant: array<u16>, nblock: nat, js: seq<Job>, loSt: nat,
                 hiSt: int, budget: int,
                 ghost f0: seq<nat>, ghost b: seq<byte>)
    returns (budget': int)
    requires ptr as object != block && ptr as object != quadrant && js != []
    requires MainSimpleSort.Tables(block[..], quadrant[..], b) && nblock == |b| && ptr.Length <= nblock
    requires Rounds(f0, ptr[..], b, js, loSt, hiSt)
    modifies ptr
    ensures var r := js[|js|-1].r; Shuffled(old(ptr[..]), ptr[..], r.lo, r.hi + 1)
    ensures budget' <= budget && (budget' >= 0 ==> Rounds(f0, ptr[..], b, js[..|js|-1], loSt, hiSt))
    ensures Distinguished(old(ptr[..]), b) ==> budget' == budget
  {
    hide *;
    ghost var f := ptr[..];
    RoundsTop(f0, f, b, js, loSt, hiSt);
    RoundsIs(f0, f, b, js, loSt, hiSt);
    var lo, hi, d := js[|js|-1].r.lo, js[|js|-1].r.hi, js[|js|-1].d;
    ghost var r := if lo <= hi then f[lo] else 0;
    TopAlike(f, b, js[|js|-1], r);
    budget' := MainSimpleSort.SimpleSort(ptr, block, quadrant, nblock, lo, hi, d, budget, b, r);
    if budget' >= 0 { RoundsPop(f0, f, ptr[..], b, js, loSt, hiSt); }
  }

  lemma {:induction false} TopAlike(f: seq<nat>, b: seq<byte>, j: Job, r: nat)
    requires Deep(f, b, j) && |b| > 0 && j.r.lo <= j.r.hi + 1 <= |f| && Indexed(f, Ranks(b))
    requires j.r.lo <= j.r.hi ==> r == f[j.r.lo]
    ensures MainSimpleSort.Alike(f, b, r, j.d, j.r.lo, j.r.hi + 1)
  {
    hide Cmp, Smaller, Deep;
    if j.r.lo <= j.r.hi { DeepAlike(f, b, j); }
  }
}
