/** mainSimpleSort: Shell sort of a stretch of rotations that agree on their first d bytes. */
module MainSimpleSort {
  import opened Bytes
  import opened Rotations
  import opened Shuffles
  import opened MainCompare

  /** All entries of a stretch are rotations that agree with rotation r on d bytes. */
  ghost predicate Alike(f: seq<nat>, b: seq<byte>, r: nat, d: nat, lo: int, end: int) {
    && |b| > 0 && 0 <= lo && end <= |f|
    && forall x {:trigger f[x]} :: lo <= x < end ==> f[x] < |b| && Cmp(b, f[x], r, d) == 0
  }

  function Order(f: seq<nat>, b: seq<byte>, x: int, y: int): int {
    if |b| > 0 && 0 <= x < |f| && 0 <= y < |f| then Cmp(b, f[x], f[y], |b|) else 0
  }

  /** A stretch in nondescending order. */
  ghost predicate InOrder(f: seq<nat>, b: seq<byte>, lo: int, end: int) {
    forall x, y {:trigger Order(f, b, x, y)} :: lo <= x < y < end ==> Order(f, b, x, y) <= 0
  }

  lemma {:induction false} AlikeShuffled(f: seq<nat>, g: seq<nat>, b: seq<byte>, r: nat, d: nat, lo: nat, end: nat)
    requires Alike(f, b, r, d, lo, end) && Shuffled(f, g, lo, end)
    ensures Alike(g, b, r, d, lo, end)
  {
    forall x | lo <= x < end ensures g[x] < |b| && Cmp(b, g[x], r, d) == 0 {
      var y := ShuffledFrom(f, g, lo, end, x);
      assert f[y] == g[x];
    }
  }

  /** Comparing behind the common bytes is comparing the rotations. */
  lemma {:induction false} Behind(b: seq<byte>, x: nat, y: nat, r: nat, d: nat)
    requires |b| > 0 && Cmp(b, x, r, d) == 0 && Cmp(b, y, r, d) == 0
    ensures Cmp(b, x + d, y + d, |b|) <= 0 ==> Cmp(b, x, y, |b|) <= 0
    ensures Cmp(b, x + d, y + d, |b|) >= 0 ==> Cmp(b, y, x, |b|) <= 0
  {
    CmpSwap(b, y, r, d);
    CmpTransitive(b, x, r, y, d);
    CmpSplit(b, x, y, d, |b|);
    Longer(b, x, y, d + |b|);
    CmpSwap(b, x, y, |b|);
  }

  // ----- insertion into the sorted stretch [lo, i)

  /** g is ptr with the entry in hand put into the hole at j; all but the hole is in order. */
  ghost predicate Inserting(g: seq<nat>, b: seq<byte>, lo: int, j: int, i: int) {
    && lo <= j <= i < |g|
    && (forall x, y {:trigger Order(g, b, x, y)} :: lo <= x < y <= i && x != j && y != j ==> Order(g, b, x, y) <= 0)
    && (forall y {:trigger Order(g, b, j, y)} :: j < y <= i ==> Order(g, b, j, y) <= 0)
  }

  lemma {:induction false} OrderSwap(g: seq<nat>, b: seq<byte>, i: nat, j: nat, x: int, y: int)
    requires i < |g| && j < |g|
    ensures Order(Swap(g, i, j), b, x, y) ==
      Order(g, b, if x == i then j else if x == j then i else x, if y == i then j else if y == j then i else y)
  {
  }

  lemma {:induction false} InsertStep(g: seq<nat>, b: seq<byte>, lo: int, j: int, i: int)
    requires 0 <= lo && Inserting(g, b, lo, j, i) && lo < j && Order(g, b, j, j - 1) <= 0
    ensures Inserting(Swap(g, j, j - 1), b, lo, j - 1, i)
  {
    hide Order;
    var g' := Swap(g, j, j - 1);
    forall x, y ensures Order(g', b, x, y) ==
      Order(g, b, if x == j then j - 1 else if x == j - 1 then j else x, if y == j then j - 1 else if y == j - 1 then j
            else y)
    {
      OrderSwap(g, b, j, j - 1, x, y);
    }
  }

  lemma {:induction false} OrderTransitive(g: seq<nat>, b: seq<byte>, x: int, y: int, z: int)
    requires |b| > 0 && 0 <= x < |g| && 0 <= y < |g| && 0 <= z < |g| && Order(g, b, x, y) <= 0 && Order(g, b, y, z) <= 0
    ensures Order(g, b, x, z) <= 0
  {
    CmpTransitive(b, g[x], g[y], g[z], |b|);
  }

  lemma {:induction false} InsertDone(g: seq<nat>, b: seq<byte>, lo: nat, j: int, i: int)
    requires |b| > 0 && Inserting(g, b, lo, j, i) && (lo < j ==> Order(g, b, j - 1, j) <= 0)
    ensures InOrder(g, b, lo, i + 1)
  {
    hide Order;
    forall x, y | lo <= x < y < i + 1 ensures Order(g, b, x, y) <= 0 {
      if y == j && x < j - 1 {
        assert Order(g, b, x, j - 1) <= 0;
        OrderTransitive(g, b, x, j - 1, j);
      }
    }
  }

  lemma {:induction false} InsertStart(g: seq<nat>, b: seq<byte>, lo: int, i: int)
    requires lo <= i < |g| && InOrder(g, b, lo, i)
    ensures Inserting(g, b, lo, i, i)
  {
    hide Order;
  }

  /** In the middle of an insertion with gap h: ptr with the hole at j, v in hand. */
  ghost predicate Carrying(f0: seq<nat>, f: seq<nat>, b: seq<byte>, v: nat, r: nat, d: nat, lo: int, j: int, i: int,
                           end: int, h: nat) {
    && |b| > 0 && |f| == |f0| && 0 <= lo <= j <= i < end <= |f|
    && Alike(f, b, r, d, lo, end) && v < |b| && Cmp(b, v, r, d) == 0
    && Shuffled(f0, f[j := v], lo, end)
    && (h == 1 ==> Inserting(f[j := v], b, lo, j, i))
  }

  lemma {:induction false} CarryStart(f: seq<nat>, b: seq<byte>, r: nat, d: nat, lo: nat, i: nat, end: nat, h: nat)
    requires Alike(f, b, r, d, lo, end) && lo <= i < end && (h == 1 ==> InOrder(f, b, lo, i))
    ensures Carrying(f, f, b, f[i], r, d, lo, i, i, end, h)
  {
    assert f[i := f[i]] == f;
    hide Shuffled, Inserting, InOrder;
    ShuffledRefl(f, lo, end);
    if h == 1 { InsertStart(f, b, lo, i); }
  }

  lemma {:induction false} CarryOpen(f0: seq<nat>, f: seq<nat>, b: seq<byte>, v: nat, r: nat, d: nat, lo: int, j: int,
                                     i: int, end: int, h: nat)
    requires Carrying(f0, f, b, v, r, d, lo, j, i, end, h)
    ensures |f| == |f0| && 0 <= lo <= j <= i < end <= |f| && v < |b| && |b| > 0
    ensures forall x {:trigger f[x]} :: lo <= x < end ==> f[x] < |b|
  {
    hide Shuffled, Inserting, Cmp;
  }

  lemma {:induction false} HoleSwap(f: seq<nat>, j: nat, k: nat, v: nat)
    requires j < |f| && k < |f| && j != k
    ensures f[j := f[k]][k := v] == Swap(f[j := v], j, k)
  {
  }

  lemma {:induction false} AlikeWrite(f: seq<nat>, b: seq<byte>, r: nat, d: nat, lo: int, end: int, j: nat, k: nat)
    requires Alike(f, b, r, d, lo, end) && lo <= j < end && lo <= k < end && j < |f| && k < |f|
    ensures Alike(f[j := f[k]], b, r, d, lo, end)
  {
  }

  /** The comparison said greater: the entry below moves into the hole. */
  lemma {:induction false} CarryStep(f0: seq<nat>, f: seq<nat>, b: seq<byte>, v: nat, r: nat, d: nat, lo: nat, j: int,
                                     i: int, end: int, h: nat)
    requires Carrying(f0, f, b, v, r, d, lo, j, i, end, h) && h >= 1 && lo <= j - h
    requires Cmp(b, f[j - h] + d, v + d, |b|) >= 0
    ensures Carrying(f0, f[j := f[j - h]], b, v, r, d, lo, j - h, i, end, h)
  {
    hide Shuffled, Inserting, Cmp, Swap;
    var g, k := f[j := v], j - h;
    assert f[k] < |b| && Cmp(b, f[k], r, d) == 0;
    HoleSwap(f, j, k, v);
    AlikeWrite(f, b, r, d, lo, end, j, k);
    SwapShuffles(g, j, k, lo, end);
    ShuffledTrans(f0, g, Swap(g, j, k), lo, end);
    if h == 1 {
      Behind(b, f[k], v, r, d);
      assert Order(g, b, j, j - 1) == Cmp(b, v, f[k], |b|);
      InsertStep(g, b, lo, j, i);
    }
  }

  /** The comparison said not greater, or there is nothing below. */
  lemma {:induction false} CarryDone(f0: seq<nat>, f: seq<nat>, b: seq<byte>, v: nat, r: nat, d: nat, lo: nat, j: int,
                                     i: int, end: int, h: nat)
    requires Carrying(f0, f, b, v, r, d, lo, j, i, end, h) && h >= 1
    requires lo <= j - h ==> Cmp(b, f[j - h] + d, v + d, |b|) <= 0
    ensures Shuffled(f0, f[j := v], lo, end) && (h == 1 ==> InOrder(f[j := v], b, lo, i + 1))
  {
    hide Shuffled, Inserting, Cmp, InOrder;
    if h == 1 {
      var g := f[j := v];
      if lo < j {
        assert f[j - 1] < |b| && Cmp(b, f[j - 1], r, d) == 0;
        Behind(b, f[j - 1], v, r, d);
        assert Order(g, b, j - 1, j) == Cmp(b, f[j - 1], v, |b|);
      }
      InsertDone(g, b, lo, j, i);
    }
  }

  lemma {:induction false} ShuffledDistinguished(f: seq<nat>, g: seq<nat>, b: seq<byte>, lo: int, end: int)
    requires Shuffled(f, g, lo, end) && Distinguished(f, b)
    ensures Distinguished(g, b)
  {
    assert f == f[..lo] + f[lo..end] + f[end..];
    assert g == g[..lo] + g[lo..end] + g[end..];
    assert multiset(f) == multiset(g);
  }

  /** The entry in hand and the one it is compared with. */
  lemma {:induction false} CarryDecided(f0: seq<nat>, f: seq<nat>, b: seq<byte>, v: nat, r: nat, d: nat, lo: nat,
                                        j: int, i: int, end: int, h: nat)
    requires Carrying(f0, f, b, v, r, d, lo, j, i, end, h) && Distinguished(f0, b) && 1 <= h && lo + h <= j
    ensures |f| == |f0| && j < |f| && Cmp(b, f[j - h] + d, v + d, 20) != 0
  {
    hide Shuffled, Inserting, Distinguished, Cmp;
    var g := f[j := v];
    ShuffledDistinguished(f0, g, b, lo, end);
    assert g[j - h] == f[j - h];
    DecidedEarly(g, b, r, d, j - h, j);
  }

  /** The arrays that the comparison reads. */
  ghost predicate Tables(block: seq<byte>, quadrant: seq<u16>, b: seq<byte>) {
    Overshot(block, b) && Quadrants(quadrant, b) && |b| <= 900_000
  }

  lemma {:induction false} TablesIs(block: seq<byte>, quadrant: seq<u16>, b: seq<byte>)
    requires Tables(block, quadrant, b)
    ensures Overshot(block, b) && Quadrants(quadrant, b) && 0 < |b| <= 900_000 && MAX_DEPTH == 15
  {
  }

  /** Entry i sinks to its place in steps of h. */
  method Insert(ptr: array<nat>, block: array<byte>, quadrant: array<u16>, nblock: nat, lo: nat, hi: nat, i: nat,
                d: nat, h: nat, budget: int,
                ghost b: seq<byte>, ghost r: nat)
    returns (budget': int)
    requires ptr as object != block && ptr as object != quadrant && Tables(block[..], quadrant[..], b) && nblock == |b|
    requires 1 <= h && lo + h <= i <= hi < ptr.Length && d <= 15 && Alike(ptr[..], b, r, d, lo, hi + 1)
    requires h == 1 ==> InOrder(ptr[..], b, lo, i)
    modifies ptr
    ensures Shuffled(old(ptr[..]), ptr[..], lo, hi + 1) && (h == 1 ==> InOrder(ptr[..], b, lo, i + 1))
    ensures budget' <= budget && (Distinguished(old(ptr[..]), b) ==> budget' == budget)
  {
    hide *;
    TablesIs(block[..], quadrant[..], b);
    ghost var f0 := ptr[..];
    CarryStart(f0, b, r, d, lo, i, hi + 1, h);
    var v: nat := ptr[i];
    var j: nat := i;
    budget' := budget;
    CarryOpen(f0, f0, b, v, r, d, lo, j, i, hi + 1, h);
    while true
      invariant lo + h <= j <= i && budget' <= budget && (Distinguished(f0, b) ==> budget' == budget)
      invariant Carrying(f0, ptr[..], b, v, r, d, lo, j, i, hi + 1, h)
      decreases j
    {
      ghost var f := ptr[..];
      CarryOpen(f0, f, b, v, r, d, lo, j, i, hi + 1, h);
      var gt;
      assert f[j - h] == ptr[j - h];
      if Distinguished(f0, b) { CarryDecided(f0, f, b, v, r, d, lo, j, i, hi + 1, h); }
      gt, budget' := MainGtU(ptr[j - h] + d, v + d, block, quadrant, nblock, budget', b);
      if !gt { break; }
      CarryStep(f0, f, b, v, r, d, lo, j, i, hi + 1, h);
      ptr[j] := ptr[j - h];
      assert ptr[..] == f[j := f[j - h]];
      j := j - h;
      if j <= lo + h - 1 { break; }
    }
    ghost var f := ptr[..];
    CarryDone(f0, f, b, v, r, d, lo, j, i, hi + 1, h);
    ptr[j] := v;
    assert ptr[..] == f[j := v];
  }

  // ----- the passes

  /** Entries below i have been inserted with gap h. */
  ghost predicate Inserted(f0: seq<nat>, f: seq<nat>, b: seq<byte>, r: nat, d: nat, lo: nat, i: int, end: nat, h: nat) {
    && Alike(f, b, r, d, lo, end) && Shuffled(f0, f, lo, end) && (h == 1 ==> InOrder(f, b, lo, i))
  }

  lemma {:induction false} InsertedStart(f0: seq<nat>, f: seq<nat>, b: seq<byte>, r: nat, d: nat, lo: nat, end: nat,
                                         h: nat)
    requires Alike(f, b, r, d, lo, end) && Shuffled(f0, f, lo, end)
    ensures Inserted(f0, f, b, r, d, lo, lo + h, end, h)
  {
    hide Shuffled, Order;
  }

  lemma {:induction false} InsertedOpen(f0: seq<nat>, f: seq<nat>, b: seq<byte>, r: nat, d: nat, lo: nat, i: int,
                                        end: nat, h: nat)
    requires Inserted(f0, f, b, r, d, lo, i, end, h)
    ensures Alike(f, b, r, d, lo, end) && Shuffled(f0, f, lo, end) && (h == 1 ==> InOrder(f, b, lo, i))
  {
  }

  lemma {:induction false} InsertedNext(f0: seq<nat>, f: seq<nat>, g: seq<nat>, b: seq<byte>, r: nat, d: nat, lo: nat,
                                        i: int, end: nat, h: nat)
    requires Inserted(f0, f, b, r, d, lo, i, end, h) && lo <= end <= |f|
    requires Shuffled(f, g, lo, end) && (h == 1 ==> InOrder(g, b, lo, i + 1))
    ensures Inserted(f0, g, b, r, d, lo, i + 1, end, h)
  {
    AlikeShuffled(f, g, b, r, d, lo, end);
    ShuffledTrans(f0, f, g, lo, end);
  }

  /** Up to three entries, as between two looks at the budget. */
  method InsertThree(ptr: array<nat>, block: array<byte>, quadrant: array<u16>, nblock: nat, lo: nat, hi: nat, i0: nat,
                     d: nat, h: nat, budget: int,
                     ghost f0: seq<nat>, ghost b: seq<byte>, ghost r: nat)
    returns (i: nat, done: bool, budget': int)
    requires ptr as object != block && ptr as object != quadrant && Tables(block[..], quadrant[..], b) && nblock == |b|
    requires 1 <= h && lo + h <= i0 <= hi + 1 && lo <= hi < ptr.Length && d <= 15
    requires Inserted(f0, ptr[..], b, r, d, lo, i0, hi + 1, h)
    modifies ptr
    ensures i0 <= i <= hi + 1 && Inserted(f0, ptr[..], b, r, d, lo, i, hi + 1, h) && budget' <= budget
    ensures Distinguished(f0, b) ==> budget' == budget
    ensures done ==> i == hi + 1
    ensures !done ==> i > i0
  {
    hide *;
    i, done, budget' := i0, false, budget;
    var copy := 0;
    while copy < 3
      invariant 0 <= copy <= 3 && i0 <= i <= hi + 1 && budget' <= budget && (copy > 0 ==> i > i0)
      invariant Distinguished(f0, b) ==> budget' == budget
      invariant Inserted(f0, ptr[..], b, r, d, lo, i, hi + 1, h)
    {
      if i > hi { return i, true, budget'; }
      ghost var f := ptr[..];
      InsertedOpen(f0, f, b, r, d, lo, i, hi + 1, h);
      if Distinguished(f0, b) { ShuffledDistinguished(f0, f, b, lo, hi + 1); }
      budget' := Insert(ptr, block, quadrant, nblock, lo, hi, i, d, h, budget', b, r);
      InsertedNext(f0, f, ptr[..], b, r, d, lo, i, hi + 1, h);
      i, copy := i + 1, copy + 1;
    }
  }

  /** One pass with gap h, given up when the budget is used up. */
  method InsertAll(ptr: array<nat>, block: array<byte>, quadrant: array<u16>, nblock: nat, lo: nat, hi: nat, d: nat,
                   h: nat, budget: int,
                   ghost f0: seq<nat>, ghost b: seq<byte>, ghost r: nat)
    returns (budget': int, gaveUp: bool)
    requires ptr as object != block && ptr as object != quadrant && Tables(block[..], quadrant[..], b) && nblock == |b|
    requires 1 <= h && lo + h <= hi + 1 && lo <= hi < ptr.Length && d <= 15
    requires Alike(ptr[..], b, r, d, lo, hi + 1) && Shuffled(f0, ptr[..], lo, hi + 1)
    modifies ptr
    ensures Alike(ptr[..], b, r, d, lo, hi + 1) && Shuffled(f0, ptr[..], lo, hi + 1) && budget' <= budget
    ensures h == 1 && !gaveUp ==> InOrder(ptr[..], b, lo, hi + 1)
    ensures (gaveUp ==> budget' < 0) && (Distinguished(f0, b) ==> budget' == budget)
  {
    hide *;
    InsertedStart(f0, ptr[..], b, r, d, lo, hi + 1, h);
    var i: nat := lo + h;
    budget', gaveUp := budget, false;
    while true
      invariant lo + h <= i <= hi + 1 && budget' <= budget && (Distinguished(f0, b) ==> budget' == budget)
      invariant Inserted(f0, ptr[..], b, r, d, lo, i, hi + 1, h)
      decreases hi + 1 - i
    {
      var done;
      i, done, budget' := InsertThree(ptr, block, quadrant, nblock, lo, hi, i, d, h, budget', f0, b, r);
      InsertedOpen(f0, ptr[..], b, r, d, lo, i, hi + 1, h);
      if done { return; }
      if budget' < 0 { return budget', true; }
    }
  }

  function Increments(): (s: seq<nat>)
    ensures |s| == 14
  {
    [1, 4, 13, 40, 121, 364, 1093, 3280, 9841, 29524, 88573, 265720, 797161, 2391484]
  }

  /** The largest increment below the size of the stretch. */
  method FirstIncrement(bigN: nat) returns (hp: nat)
    requires 2 <= bigN <= 900_000
    ensures hp < 13 && Increments()[hp] < bigN
  {
    hp := 0;
    while Increments()[hp] < bigN
      invariant hp <= 13 && (hp > 0 ==> Increments()[hp - 1] < bigN)
      decreases 14 - hp
    {
      hp := hp + 1;
    }
    hp := hp - 1;
  }

  /** mainSimpleSort: a rearrangement always, and the sorted one unless the budget is used up. */
  method SimpleSort(ptr: array<nat>, block: array<byte>, quadrant: array<u16>, nblock: nat, lo: nat, hi: int, d: nat,
                    budget: int, ghost b: seq<byte>, ghost r: nat)
    returns (budget': int)
    requires ptr as object != block && ptr as object != quadrant && Tables(block[..], quadrant[..], b) && nblock == |b|
    requires lo <= hi + 1 <= ptr.Length <= nblock && d <= 15 && Alike(ptr[..], b, r, d, lo, hi + 1)
    modifies ptr
    ensures Shuffled(old(ptr[..]), ptr[..], lo, hi + 1) && budget' <= budget
    ensures budget' >= 0 ==> InOrder(ptr[..], b, lo, hi + 1)
    ensures Distinguished(old(ptr[..]), b) ==> budget' == budget
  {
    hide *;
    ghost var f0 := ptr[..];
    TablesIs(block[..], quadrant[..], b);
    ShuffledRefl(f0, lo, hi + 1);
    budget' := budget;
    var bigN := hi - lo + 1;
    if bigN < 2 {
      ShortInOrder(f0, b, lo, hi);
      return;
    }
    var hp: int := FirstIncrement(bigN);
    while hp >= 0
      invariant -1 <= hp < 13 && budget' <= budget && (hp >= 0 ==> Increments()[hp] < bigN)
      invariant Distinguished(f0, b) ==> budget' == budget
      invariant Alike(ptr[..], b, r, d, lo, hi + 1) && Shuffled(f0, ptr[..], lo, hi + 1)
      invariant hp == -1 && budget' >= 0 ==> InOrder(ptr[..], b, lo, hi + 1)
      decreases hp
    {
      IncrementsDescend(hp);
      var h := Increments()[hp];
      var gaveUp;
      budget', gaveUp := InsertAll(ptr, block, quadrant, nblock, lo, hi, d, h, budget', f0, b, r);
      if gaveUp { return; }
      hp := hp - 1;
    }
  }

  lemma {:induction false} IncrementsDescend(hp: nat)
    requires hp < 14
    ensures Increments()[hp] >= 1 && (Increments()[hp] == 1 <==> hp == 0)
      && (hp > 0 ==> Increments()[hp - 1] < Increments()[hp])
  {
  }

  lemma {:induction false} ShortInOrder(f: seq<nat>, b: seq<byte>, lo: nat, hi: int)
    requires hi - lo + 1 < 2
    ensures InOrder(f, b, lo, hi + 1)
  {
  }
}
