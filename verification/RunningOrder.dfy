/** The order in which mainSort takes the big buckets: from the smallest to the largest. */
module RunningOrder {
  import opened Bytes
  import opened Shuffles
  import opened FatPartition
  import opened SortStack

  /** f[lo..i+1] is sorted but for the entry at j, which is smaller than all behind it. */
  ghost predicate Sinking(f: seq<nat>, e: seq<nat>, j: int, i: int) {
    && 0 <= j <= i < |f|
    && (forall x, y {:trigger Key(f, e, x), Key(f, e, y)} :: 0 <= x < y <= i && x != j && y != j ==>
        Key(f, e, x) <= Key(f, e, y))
    && (forall x {:trigger Key(f, e, x)} :: j < x <= i ==> Key(f, e, j) < Key(f, e, x))
  }

  lemma {:induction false} SinkStep(f: seq<nat>, e: seq<nat>, j: nat, i: nat)
    requires Sinking(f, e, j, i) && j > 0 && Key(f, e, j - 1) > Key(f, e, j)
    ensures Sinking(Swap(f, j, j - 1), e, j - 1, i)
  {
    var g := Swap(f, j, j - 1);
    forall x | 0 <= x < |g|
      ensures Key(g, e, x) == if x == j then Key(f, e, j - 1) else if x == j - 1 then Key(f, e, j) else Key(f, e, x) { }
  }

  lemma {:induction false} SinkDone(f: seq<nat>, e: seq<nat>, j: nat, i: nat)
    requires Sinking(f, e, j, i) && (j > 0 ==> Key(f, e, j - 1) <= Key(f, e, j))
    ensures SortedBy(f, e, 0, i + 1)
  {
    forall x, y | 0 <= x < y < i + 1 ensures Key(f, e, x) <= Key(f, e, y) {
      if y == j && x < j - 1 { assert Key(f, e, x) <= Key(f, e, j - 1); }
    }
  }

  /** Entry v is in hand, to be put into the hole at j. */
  ghost predicate Holding(f: seq<nat>, e: seq<nat>, v: nat, j: int, i: int, h: nat) {
    && |f| == 256 == |e| && 0 <= j <= i < 256 && v < 256 && IsPermutation(f[j := v]) && Indexed(f, e)
    && (h == 1 ==> Sinking(f[j := v], e, j, i))
  }

  lemma {:induction false} HoldStart(f: seq<nat>, e: seq<nat>, i: nat, h: nat)
    requires |f| == 256 == |e| && i < 256 && IsPermutation(f) && (h == 1 ==> SortedBy(f, e, 0, i))
    ensures f[i] < 256 && Holding(f, e, f[i], i, i, h)
  {
    assert f[i := f[i]] == f;
  }

  lemma {:induction false} SwapPermutes(f: seq<nat>, i: nat, j: nat)
    requires IsPermutation(f) && i < |f| && j < |f|
    ensures IsPermutation(Swap(f, i, j))
  {
  }

  lemma {:induction false} HoldStep(f: seq<nat>, e: seq<nat>, v: nat, j: nat, i: nat, h: nat)
    requires Holding(f, e, v, j, i, h) && 1 <= h <= j && v < |e| && |f| == 256 && f[j - h] < |e| && e[f[j - h]] > e[v]
    ensures Holding(f[j := f[j - h]], e, v, j - h, i, h)
  {
    hide IsPermutation, Sinking;
    var g := f[j := v];
    SwapPermutes(g, j, j - h);
    assert f[j := f[j - h]][j - h := v] == Swap(g, j, j - h);
    if h == 1 { SinkStep(g, e, j, i); }
  }

  lemma {:induction false} HoldDone(f: seq<nat>, e: seq<nat>, v: nat, j: nat, i: nat, h: nat)
    requires Holding(f, e, v, j, i, h) && h >= 1 && v < |e| && |f| == 256
    requires h <= j ==> f[j - h] < |e| && e[f[j - h]] <= e[v]
    ensures IsPermutation(f[j := v]) && (h == 1 ==> SortedBy(f[j := v], e, 0, i + 1))
  {
    hide IsPermutation, Sinking, SortedBy;
    if h == 1 { SinkDone(f[j := v], e, j, i); }
  }

  lemma {:induction false} HoldOpen(f: seq<nat>, e: seq<nat>, v: nat, j: int, i: int, h: nat)
    requires Holding(f, e, v, j, i, h)
    ensures |f| == 256 == |e| && 0 <= j <= i < 256 && v < 256 && forall x :: 0 <= x < 256 ==> f[x] < 256
  {
  }

  lemma {:induction false} OneSorted(f: seq<nat>, e: seq<nat>)
    ensures SortedBy(f, e, 0, 1)
  {
  }

  /** How many rotations start with byte c. */
  method BigFreq(ftab: array<nat>, c: nat, ghost e: seq<nat>) returns (n: nat)
    requires ftab.Length == 65537 && c < 256 == |e| && forall x :: 0 <= x < 256 ==>
      ftab[(x + 1) * 256] == ftab[x * 256] + e[x]
    ensures n == e[c]
  {
    assert ftab[(c + 1) * 256] == ftab[c * 256] + e[c];
    n := ftab[(c + 1) * 256] - ftab[c * 256];
  }

  /** One pass of Shell sort with increment h. */
  method Pass(ftab: array<nat>, order: array<nat>, h: nat, ghost e: seq<nat>)
    requires ftab.Length == 65537 && |e| == 256 == order.Length && ftab != order && 1 <= h < 256
    requires forall x :: 0 <= x < 256 ==> ftab[(x + 1) * 256] == ftab[x * 256] + e[x]
    requires IsPermutation(order[..])
    modifies order
    ensures IsPermutation(order[..]) && (h == 1 ==> SortedBy(order[..], e, 0, 256))
  {
    hide IsPermutation, SortedBy, Holding, Sinking;
    OneSorted(order[..], e);
    var i := h;
    while i <= 255
      invariant h <= i <= 256 && IsPermutation(order[..]) && (h == 1 ==> SortedBy(order[..], e, 0, i))
    {
      HoldStart(order[..], e, i, h);
      var vv := order[i];
      var j := i;
      while true
        invariant h <= j <= i && Holding(order[..], e, vv, j, i, h)
        decreases j
      {
        ghost var f := order[..];
        HoldOpen(f, e, vv, j, i, h);
        assert order[j - h] == f[j - h];
        var there := BigFreq(ftab, order[j - h], e);
        var here := BigFreq(ftab, vv, e);
        if !(there > here) { break; }
        HoldStep(f, e, vv, j, i, h);
        order[j] := order[j - h];
        assert order[..] == f[j := f[j - h]];
        j := j - h;
        if j <= h - 1 { break; }
      }
      ghost var f := order[..];
      HoldDone(f, e, vv, j, i, h);
      order[j] := vv;
      assert order[..] == f[j := vv];
      i := i + 1;
    }
  }

  /** All bytes, the least frequent first byte first. */
  method Order(ftab: array<nat>, order: array<nat>, ghost e: seq<nat>)
    requires ftab.Length == 65537 && |e| == 256 == order.Length && ftab != order
    requires forall x :: 0 <= x < 256 ==> ftab[(x + 1) * 256] == ftab[x * 256] + e[x]
    modifies order
    ensures IsPermutation(order[..]) && SortedBy(order[..], e, 0, 256)
  {
    hide SortedBy;
    var i := 0;
    while i <= 255
      invariant 0 <= i <= 256 && forall x :: 0 <= x < i ==> order[x] == x
    {
      order[i] := i;
      i := i + 1;
    }
    var h := 4;
    while h <= 256
      invariant h == 4 || h == 13 || h == 40 || h == 121 || h == 364
    {
      h := 3 * h + 1;
    }
    while true
      invariant (h == 364 || h == 121 || h == 40 || h == 13 || h == 4) && IsPermutation(order[..])
      decreases h
    {
      h := h / 3;
      Pass(ftab, order, h, e);
      if h == 1 { break; }
    }
  }
}
