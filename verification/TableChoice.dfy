/** The first half of sendMTFValues: coding tables and the selector of every group of 50 symbols. */
module TableChoice {
  import opened Bytes
  import opened Powers
  import opened KraftSums
  import opened HuffmanLengths
  import opened DecodeTables
  import opened DecodeMachine
  import opened BlockFormat

  const N_ITERS := 4
  const LESSER_ICOST := 0
  const GREATER_ICOST := 15

  // ----- the cost of a group

  /** The bits that symbols gs..i-1 take with the lengths of one table. */
  function Cost(row: seq<nat>, mtfv: seq<u16>, gs: nat, i: nat): nat
    requires gs <= i <= |mtfv| && forall x :: 0 <= x < |mtfv| ==> mtfv[x] < |row|
    decreases i
  {
    if i == gs then 0 else Cost(row, mtfv, gs, i - 1) + row[mtfv[i - 1]]
  }

  lemma {:induction false} CostBound(row: seq<nat>, mtfv: seq<u16>, gs: nat, i: nat)
    requires gs <= i <= |mtfv| && (forall x :: 0 <= x < |mtfv| ==> mtfv[x] < |row|) && forall v :: 0 <= v < |row| ==>
      row[v] <= 20
    ensures Cost(row, mtfv, gs, i) <= 20 * (i - gs)
    decreases i
  {
    if i > gs { CostBound(row, mtfv, gs, i - 1); }
  }

  /** Lengths of all tables, each for every symbol, small enough for 16-bit costs. */
  predicate Rows(len: seq<seq<nat>>, alphaSize: nat) {
    forall t :: 0 <= t < |len| ==> |len[t]| == alphaSize && forall v :: 0 <= v < alphaSize ==> len[t][v] <= 20
  }

  predicate InAlphabet(mtfv: seq<u16>, alphaSize: nat) {
    forall x :: 0 <= x < |mtfv| ==> mtfv[x] < alphaSize
  }

  /** The slow version, table by table. */
  method GroupCosts(len: seq<seq<nat>>, alphaSize: nat, mtfv: seq<u16>, gs: nat, ge: nat) returns (cost: seq<nat>)
    requires Rows(len, alphaSize) && InAlphabet(mtfv, alphaSize) && gs <= ge < |mtfv| && ge < gs + G_SIZE
    ensures |cost| == |len|
    ensures forall t :: 0 <= t < |len| ==> cost[t] == Cost(len[t], mtfv, gs, ge + 1) < 0x1_0000
  {
    cost := seq(|len|, _ => 0);
    var i := gs;
    while i <= ge
      invariant gs <= i <= ge + 1 && |cost| == |len|
      invariant forall t :: 0 <= t < |len| ==> cost[t] == Cost(len[t], mtfv, gs, i)
    {
      cost := seq(|len|, t requires 0 <= t < |len| && |cost| == |len| => cost[t] + len[t][mtfv[i]]);
      i := i + 1;
    }
    forall t | 0 <= t < |len| ensures cost[t] < 0x1_0000 { CostBound(len[t], mtfv, gs, ge + 1); }
  }

  /** Two sums carried in one 32-bit word. */
  method PackedCost(lo: seq<nat>, hi: seq<nat>, mtfv: seq<u16>, gs: nat, ge: nat) returns (costLo: nat, costHi: nat)
    requires |lo| == |hi| && gs <= ge < |mtfv| && ge < gs + G_SIZE
    requires forall x :: 0 <= x < |mtfv| ==> mtfv[x] < |lo|
    requires forall v :: 0 <= v < |lo| ==> lo[v] <= 20 && hi[v] <= 20
    ensures costLo == Cost(lo, mtfv, gs, ge + 1) && costHi == Cost(hi, mtfv, gs, ge + 1)
  {
    var cost01 := 0;
    var i := gs;
    while i <= ge
      invariant gs <= i <= ge + 1
      invariant cost01 == Cost(hi, mtfv, gs, i) * 0x1_0000 + Cost(lo, mtfv, gs, i)
    {
      cost01 := cost01 + (hi[mtfv[i]] * 0x1_0000 + lo[mtfv[i]]);
      i := i + 1;
    }
    CostBound(lo, mtfv, gs, ge + 1);
    CostBound(hi, mtfv, gs, ge + 1);
    costLo, costHi := cost01 % 0x1_0000, cost01 / 0x1_0000;
  }

  /** The fast version for six tables and a full group. */
  method PackedGroupCosts(len: seq<seq<nat>>, alphaSize: nat, mtfv: seq<u16>, gs: nat, ge: nat) returns (cost: seq<nat>)
    requires Rows(len, alphaSize) && InAlphabet(mtfv, alphaSize) && gs <= ge < |mtfv| && ge - gs + 1 == G_SIZE
      && |len| == 6
    ensures |cost| == |len|
    ensures forall t :: 0 <= t < |len| ==> cost[t] == Cost(len[t], mtfv, gs, ge + 1) < 0x1_0000
  {
    var c0, c1 := PackedCost(len[0], len[1], mtfv, gs, ge);
    var c2, c3 := PackedCost(len[2], len[3], mtfv, gs, ge);
    var c4, c5 := PackedCost(len[4], len[5], mtfv, gs, ge);
    cost := [c0, c1, c2, c3, c4, c5];
    forall t | 0 <= t < |len| ensures Cost(len[t], mtfv, gs, ge + 1) < 0x1_0000 { CostBound(len[t], mtfv, gs, ge + 1); }
  }

  /** A table that is cheapest for the group. */
  method CheapestTable(cost: seq<nat>) returns (bt: nat)
    requires cost != [] && forall t :: 0 <= t < |cost| ==> cost[t] < 999999999
    ensures bt < |cost| && forall t :: 0 <= t < |cost| ==> cost[bt] <= cost[t]
    ensures forall t :: 0 <= t < bt ==> cost[bt] < cost[t]
  {
    var bc := 999999999;
    bt := 0;
    var t := 0;
    while t < |cost|
      invariant 0 <= t <= |cost| && (t > 0 ==> bt < t && bc == cost[bt]) && (t == 0 ==> bc == 999999999)
      invariant forall x :: 0 <= x < t ==> bc <= cost[x]
      invariant forall x :: 0 <= x < bt && t > 0 ==> cost[bt] < cost[x]
    {
      if cost[t] < bc { bc, bt := cost[t], t; }
      t := t + 1;
    }
  }

  // ----- the frequencies of one pass

  lemma {:induction false} TotalBump(freq: seq<nat>, v: nat, k: nat)
    requires v < |freq| && k <= |freq|
    ensures Total(freq[v := freq[v] + 1], 0, k) <= Total(freq, 0, k) + if v < k then 1 else 0
  {
    if k > 0 { TotalBump(freq, v, k - 1); }
  }

  lemma {:induction false} TotalZero(n: nat, k: nat)
    requires k <= n
    ensures Total(seq(n, _ => 0), 0, k) == k
  {
    if k > 0 { TotalZero(n, k - 1); }
  }

  ghost predicate Counted(rfreq: seq<seq<nat>>, nGroups: nat, alphaSize: nat, i: nat) {
    |rfreq| == nGroups && forall t {:trigger rfreq[t]} :: 0 <= t < nGroups ==>
      |rfreq[t]| == alphaSize && Total(rfreq[t], 0, alphaSize) <= alphaSize + i
  }

  /** How many of the first n symbols are v and lie in a group whose selector is t. */
  function Tally(mtfv: seq<u16>, selector: seq<nat>, t: nat, v: nat, n: nat): nat
    requires n <= |mtfv| && n <= 50 * |selector|
  {
    if n == 0 then 0
    else Tally(mtfv, selector, t, v, n - 1) + if mtfv[n - 1] == v && selector[(n - 1) / 50] == t then 1 else 0
  }

  lemma {:induction false} TallyPrefix(mtfv: seq<u16>, selector: seq<nat>, bt: nat, t: nat, v: nat, n: nat)
    requires n <= |mtfv| && n <= 50 * |selector|
    ensures Tally(mtfv, selector + [bt], t, v, n) == Tally(mtfv, selector, t, v, n)
  {
    if n > 0 { TallyPrefix(mtfv, selector, bt, t, v, n - 1); }
  }

  /** The frequencies are those of the groups that have selected the table. */
  ghost predicate Tallied(rfreq: seq<seq<nat>>, nGroups: nat, alphaSize: nat, mtfv: seq<u16>, selector: seq<nat>,
                          n: nat)
  {
    && n <= |mtfv| && n <= 50 * |selector| && |rfreq| == nGroups
    && (forall t {:trigger rfreq[t]} :: 0 <= t < nGroups ==> |rfreq[t]| == alphaSize)
    && forall t, v {:trigger rfreq[t][v]} :: 0 <= t < nGroups && 0 <= v < alphaSize ==>
         rfreq[t][v] == Tally(mtfv, selector, t, v, n)
  }

  lemma {:induction false} TalliedMore(rfreq: seq<seq<nat>>, nGroups: nat, alphaSize: nat, mtfv: seq<u16>,
                                       selector: seq<nat>, bt: nat, n: nat)
    requires Tallied(rfreq, nGroups, alphaSize, mtfv, selector, n)
    ensures Tallied(rfreq, nGroups, alphaSize, mtfv, selector + [bt], n)
  {
    hide Tally;
    forall t, v | 0 <= t < nGroups && 0 <= v < alphaSize
      ensures rfreq[t][v] == Tally(mtfv, selector + [bt], t, v, n)
    {
      TallyPrefix(mtfv, selector, bt, t, v, n);
    }
  }

  lemma {:induction false} TalliedNone(nGroups: nat, alphaSize: nat, mtfv: seq<u16>)
    ensures Tallied(seq(nGroups, _ => seq(alphaSize, _ => 0)), nGroups, alphaSize, mtfv, [], 0)
  {
  }

  /** s->rfreq[bt][mtfv[i]]++ for the symbols of a group. */
  method CountGroup(rfreq0: seq<seq<nat>>, nGroups: nat, alphaSize: nat, mtfv: seq<u16>, gs: nat, ge: nat, bt: nat,
                    ghost selector: seq<nat>)
    returns (rfreq: seq<seq<nat>>)
    requires Counted(rfreq0, nGroups, alphaSize, gs) && InAlphabet(mtfv, alphaSize) && gs <= ge < |mtfv| && bt < nGroups
    requires Tallied(rfreq0, nGroups, alphaSize, mtfv, selector, gs) && gs % 50 == 0 && ge < gs + 50
      && gs / 50 < |selector| && selector[gs / 50] == bt
    ensures Counted(rfreq, nGroups, alphaSize, ge + 1) && Tallied(rfreq, nGroups, alphaSize, mtfv, selector, ge + 1)
  {
    rfreq := rfreq0;
    var i := gs;
    while i <= ge
      invariant gs <= i <= ge + 1 && Counted(rfreq, nGroups, alphaSize, i)
        && Tallied(rfreq, nGroups, alphaSize, mtfv, selector, i)
    {
      TotalBump(rfreq[bt], mtfv[i], alphaSize);
      assert selector[i / 50] == bt;
      rfreq := rfreq[bt := rfreq[bt][mtfv[i] := rfreq[bt][mtfv[i]] + 1]];
      i := i + 1;
    }
  }

  /** Every group's selector names the first of the cheapest tables for it. */
  ghost predicate Cheapest(selector: seq<nat>, len: seq<seq<nat>>, alphaSize: nat, mtfv: seq<u16>) {
    && Rows(len, alphaSize) && InAlphabet(mtfv, alphaSize)
    && forall g {:trigger selector[g]} :: 0 <= g < |selector| ==>
         50 * g < |mtfv| && selector[g] < |len|
         && (forall t :: 0 <= t < |len| ==> GroupCost(len[selector[g]], mtfv, g) <= GroupCost(len[t], mtfv, g))
         && (forall t :: 0 <= t < selector[g] ==> GroupCost(len[selector[g]], mtfv, g) < GroupCost(len[t], mtfv, g))
  }

  function GroupCost(row: seq<nat>, mtfv: seq<u16>, g: nat): nat
    requires 50 * g < |mtfv| && forall x :: 0 <= x < |mtfv| ==> mtfv[x] < |row|
  {
    Cost(row, mtfv, 50 * g, if 50 * g + 50 <= |mtfv| then 50 * g + 50 else |mtfv|)
  }

  lemma {:induction false} CountedNone(nGroups: nat, alphaSize: nat)
    ensures Counted(seq(nGroups, _ => seq(alphaSize, _ => 0)), nGroups, alphaSize, 0)
  {
    TotalZero(alphaSize, alphaSize);
  }

  /** One of the N_ITERS passes over the groups. */
  method SelectTables(len: seq<seq<nat>>, alphaSize: nat, mtfv: seq<u16>)
    returns (selector: seq<nat>, rfreq: seq<seq<nat>>)
    requires 2 <= |len| <= 6 && Rows(len, alphaSize) && InAlphabet(mtfv, alphaSize)
    ensures |selector| == (|mtfv| + 49) / 50 && Cheapest(selector, len, alphaSize, mtfv)
    ensures Counted(rfreq, |len|, alphaSize, |mtfv|) && Tallied(rfreq, |len|, alphaSize, mtfv, selector, |mtfv|)
  {
    hide Counted, Tallied, Tally, Total;
    var nMTF, nGroups := |mtfv|, |len|;
    rfreq := seq(nGroups, _ => seq(alphaSize, _ => 0));
    CountedNone(nGroups, alphaSize);
    TalliedNone(nGroups, alphaSize, mtfv);
    selector := [];
    var gs := 0;
    while gs < nMTF
      invariant 0 <= gs <= nMTF && (gs < nMTF ==> gs == 50 * |selector|)
        && (gs == nMTF ==> |selector| == (nMTF + 49) / 50)
      invariant Counted(rfreq, nGroups, alphaSize, gs) && Cheapest(selector, len, alphaSize, mtfv)
      invariant Tallied(rfreq, nGroups, alphaSize, mtfv, selector, gs)
      decreases nMTF - gs
    {
      var ge := gs + G_SIZE - 1;
      if ge >= nMTF { ge := nMTF - 1; }
      var cost;
      if nGroups == 6 && ge - gs + 1 == 50 {
        cost := PackedGroupCosts(len, alphaSize, mtfv, gs, ge);
      } else {
        cost := GroupCosts(len, alphaSize, mtfv, gs, ge);
      }
      var bt := CheapestTable(cost);
      assert forall t :: 0 <= t < nGroups ==> cost[t] == GroupCost(len[t], mtfv, |selector|);
      TalliedMore(rfreq, nGroups, alphaSize, mtfv, selector, bt, gs);
      selector := selector + [bt];
      rfreq := CountGroup(rfreq, nGroups, alphaSize, mtfv, gs, ge, bt, selector);
      gs := ge + 1;
    }
  }

  // ----- the lengths of the next pass

  lemma {:induction false} KraftDoubles(row: seq<nat>, limit: nat, k: nat)
    requires k <= |row| && forall i :: 0 <= i < k ==> row[i] <= limit
    ensures Kraft(row, limit + 1, k) == 2 * Kraft(row, limit, k)
  {
    if k > 0 { KraftDoubles(row, limit, k - 1); }
  }

  /** A complete code within the encoder's limit is one within the decoder's. */
  lemma {:induction false} CompleteRow(row: seq<nat>, freq: seq<nat>, t: nat, l: seq<byte>)
    requires GoodLengths(l, freq, ENCODER_MAX, t) && row == l
    ensures LengthsOk(row) && Short(row) && |row| == |freq|
    ensures Kraft(row, LONGEST_CODE, |row|) == Pow2(LONGEST_CODE)
  {
    hide *;
    WithinLimits(row, freq, t, l);
    KraftDoubles(row, 17, |row|);
    KraftDoubles(row, 18, |row|);
    KraftDoubles(row, 19, |row|);
    EightTimes();
  }

  lemma {:induction false} WithinLimits(row: seq<nat>, freq: seq<nat>, t: nat, l: seq<byte>)
    requires GoodLengths(l, freq, ENCODER_MAX, t) && row == l
    ensures LengthsOk(row) && Short(row) && |row| == |freq| && Kraft(row, 17, |row|) == Pow2(17)
    ensures forall i :: 0 <= i < |row| ==> row[i] <= 17
  {
    hide Kraft, Pow2, Scaled, Cheapest;
  }

  lemma {:induction false} SymbolsWithin(alphaSize: nat)
    requires alphaSize <= 258
    ensures alphaSize <= Pow2(ENCODER_MAX)
  {
    Pow2Values();
    Pow2Monotone(15, ENCODER_MAX);
  }

  lemma {:induction false} EightTimes()
    ensures Pow2(20) == 8 * Pow2(17) && LONGEST_CODE == 20
  {
    assert Pow2(20) == 2 * Pow2(19) && Pow2(19) == 2 * Pow2(18) && Pow2(18) == 2 * Pow2(17);
  }

  /** Complete codes for all tables. */
  ghost predicate Complete(len: seq<seq<nat>>, alphaSize: nat) {
    forall t {:trigger len[t]} :: 0 <= t < |len| ==>
      |len[t]| == alphaSize && Short(len[t]) && Kraft(len[t], LONGEST_CODE, alphaSize) == Pow2(LONGEST_CODE)
  }

  lemma {:induction false} CompleteAppend(len: seq<seq<nat>>, row: seq<nat>, alphaSize: nat)
    requires Complete(len, alphaSize) && |row| == alphaSize && Short(row)
      && Kraft(row, LONGEST_CODE, alphaSize) == Pow2(LONGEST_CODE)
    ensures Complete(len + [row], alphaSize)
  {
    hide Kraft, Pow2;
  }

  lemma {:induction false} CompleteRows(len: seq<seq<nat>>, alphaSize: nat)
    requires Complete(len, alphaSize)
    ensures Rows(len, alphaSize)
  {
    hide Kraft, Pow2;
  }

  /** The lengths are the best for the frequencies, within the limit of 17 bits. */
  ghost predicate Fitted(row: seq<nat>, freq: seq<nat>) {
    Short(row) && exists rounds: nat {:trigger GoodLengths(row, freq, 17, rounds)} ::
      GoodLengths(row, freq, 17, rounds) && (Total(freq, 0, |freq|) < 6765 ==> rounds == 0)
  }

  lemma {:induction false} RowFitted(row: seq<nat>, freq: seq<nat>, rounds: nat, l: seq<byte>)
    requires GoodLengths(l, freq, ENCODER_MAX, rounds) && row == l
    requires Total(freq, 0, |freq|) < HuffmanTree.Fib(18) ==> rounds == 0
    ensures Fitted(row, freq)
  {
    hide GoodLengths, Total;
    CompleteRow(row, freq, rounds, l);
    FibEighteen();
    assert GoodLengths(row, freq, 17, rounds);
  }

  lemma {:induction false} FibEighteen()
    ensures HuffmanTree.Fib(18) == 6765
  {
    assert HuffmanTree.Fib(5) == 13 && HuffmanTree.Fib(6) == 21;
    assert HuffmanTree.Fib(9) == 89 && HuffmanTree.Fib(10) == 144;
    assert HuffmanTree.Fib(13) == 610 && HuffmanTree.Fib(14) == 987;
    assert HuffmanTree.Fib(15) == 1597 && HuffmanTree.Fib(16) == 2584 && HuffmanTree.Fib(17) == 4181;
  }

  ghost predicate AllFitted(len: seq<seq<nat>>, rfreq: seq<seq<nat>>) {
    |len| <= |rfreq| && forall t {:trigger len[t]} :: 0 <= t < |len| ==> Fitted(len[t], rfreq[t])
  }

  /** Recompute the tables based on the accumulated frequencies. */
  method MakeTables(rfreq: seq<seq<nat>>, alphaSize: nat, ghost nMTF: nat) returns (len: seq<seq<nat>>)
    requires 3 <= alphaSize <= 258 && Counted(rfreq, |rfreq|, alphaSize, nMTF) && nMTF <= 900001
    ensures |len| == |rfreq| && Complete(len, alphaSize) && AllFitted(len, rfreq)
  {
    hide Kraft, Pow2, GoodLengths, LengthsOk, Short, Fitted;
    len := [];
    var t := 0;
    while t < |rfreq|
      invariant 0 <= t == |len| <= |rfreq| && Complete(len, alphaSize) && AllFitted(len, rfreq)
    {
      var l := new byte[alphaSize];
      assert |rfreq[t]| == alphaSize && Total(rfreq[t], 0, alphaSize) <= alphaSize + nMTF;
      SymbolsWithin(alphaSize);
      var rounds := MakeCodeLengths(l, rfreq[t], ENCODER_MAX);
      ghost var bytes := l[..];
      var row := seq(alphaSize, v requires 0 <= v < alphaSize && alphaSize == l.Length reads l => l[v] as nat);
      assert row == bytes;
      CompleteRow(row, rfreq[t], rounds, bytes);
      RowFitted(row, rfreq[t], rounds, bytes);
      CompleteAppend(len, row, alphaSize);
      len := len + [row];
      t := t + 1;
    }
  }

  // ----- the first tables

  function NumGroups(nMTF: nat): nat {
    if nMTF < 200 then 2 else if nMTF < 600 then 3 else if nMTF < 1200 then 4 else if nMTF < 2400 then 5 else 6
  }

  /** Division as in C, rounding towards zero. */
  function CDiv(a: int, b: nat): int
    requires b > 0
  {
    if a >= 0 then a / b else -(-a / b)
  }

  function Sum(freq: seq<nat>, lo: nat, hi: int): nat
    requires hi <= |freq|
    decreases hi - lo
  {
    if hi <= lo then 0 else Sum(freq, lo, hi - 1) + freq[hi - 1]
  }

  lemma {:induction false} SumSplit(freq: seq<nat>, lo: nat, mid: nat, hi: nat)
    requires lo <= mid <= hi <= |freq|
    ensures Sum(freq, lo, hi) == Sum(freq, lo, mid) + Sum(freq, mid, hi)
    decreases hi
  {
    if mid < hi { SumSplit(freq, lo, mid, hi - 1); }
  }

  /** The least end of a range from gs on whose frequencies reach the target, or the end of the alphabet. */
  ghost predicate Reaches(freq: seq<nat>, alphaSize: nat, gs: nat, ge: int, target: int)
    requires alphaSize <= |freq|
  {
    && gs - 1 <= ge < alphaSize && (Sum(freq, gs, ge + 1) >= target || ge == alphaSize - 1)
    && forall x {:trigger Sum(freq, gs, x)} :: gs <= x <= ge ==> Sum(freq, gs, x) < target
  }

  /** A range of more than one symbol gives up its last one, for every other table but the first and the last. */
  predicate Trimmed(nGroups: nat, part: nat, gs: nat, ge: int) {
    ge > gs && part != nGroups && part != 1 && (nGroups - part) % 2 == 1
  }

  /** From gs on, what is left of the nMTF symbols is shared among part tables; ge ends the range of the next one. */
  ghost predicate NextRange(freq: seq<nat>, alphaSize: nat, nMTF: nat, nGroups: nat, part: nat, gs: nat, ge: int)
    requires 0 < part && alphaSize <= |freq| && gs <= alphaSize
  {
    var target := CDiv(nMTF - Sum(freq, 0, gs), part);
    || (Reaches(freq, alphaSize, gs, ge, target) && !Trimmed(nGroups, part, gs, ge))
    || (Reaches(freq, alphaSize, gs, ge + 1, target) && Trimmed(nGroups, part, gs, ge + 1))
  }

  /** Symbols gs to ge are cheap, all others dear. */
  ghost predicate CheapRange(row: seq<nat>, alphaSize: nat, gs: nat, ge: int) {
    |row| == alphaSize && forall v {:trigger row[v]} :: 0 <= v < alphaSize ==> row[v] == if gs <= v <= ge then 0 else 15
  }

  /** The first tables, down from the last to table part, are cheap for ranges that follow each other. */
  ghost predicate FirstRanges(len: seq<seq<nat>>, freq: seq<nat>, alphaSize: nat, nMTF: nat, part: nat,
                              starts: seq<nat>)
  {
    && part <= |len| && alphaSize <= |freq| && |starts| == |len| + 1 - part && starts[0] == 0
    && (forall k {:trigger starts[k]} :: 0 <= k < |starts| ==> starts[k] <= alphaSize)
    && forall k {:trigger len[|len| - 1 - k]} :: 0 <= k < |len| - part ==>
         NextRange(freq, alphaSize, nMTF, |len|, |len| - k, starts[k], starts[k + 1] as int - 1)
         && CheapRange(len[|len| - 1 - k], alphaSize, starts[k], starts[k + 1] as int - 1)
  }

  /** The loop that looks for the end of a range. */
  method FindEnd(freq: seq<nat>, alphaSize: nat, gs: nat, tFreq: int) returns (ge: int, aFreq: nat)
    requires gs <= alphaSize <= |freq|
    ensures Reaches(freq, alphaSize, gs, ge, tFreq) && aFreq == Sum(freq, gs, ge + 1)
  {
    ge, aFreq := gs - 1, 0;
    while aFreq < tFreq && ge < alphaSize - 1
      invariant gs - 1 <= ge < alphaSize && aFreq == Sum(freq, gs, ge + 1)
      invariant forall x {:trigger Sum(freq, gs, x)} :: gs <= x <= ge ==> Sum(freq, gs, x) < tFreq
    {
      ge := ge + 1;
      aFreq := aFreq + freq[ge];
    }
  }

  /** One more table. */
  lemma {:induction false} MoreRanges(len: seq<seq<nat>>, freq: seq<nat>, alphaSize: nat, nMTF: nat, part: nat,
                                      starts: seq<nat>, row: seq<nat>, ge: int)
    requires FirstRanges(len, freq, alphaSize, nMTF, part, starts) && 0 < part
    requires starts[|starts|-1] - 1 <= ge < alphaSize
    requires NextRange(freq, alphaSize, nMTF, |len|, part, starts[|starts|-1], ge)
      && CheapRange(row, alphaSize, starts[|starts|-1], ge)
    ensures FirstRanges(len[part - 1 := row], freq, alphaSize, nMTF, part - 1, starts + [ge + 1])
  {
    hide NextRange, CheapRange;
    var len', starts' := len[part - 1 := row], starts + [ge + 1];
    forall k | 0 <= k < |len'| - (part - 1)
      ensures NextRange(freq, alphaSize, nMTF, |len'|, |len'| - k, starts'[k], starts'[k + 1] as int - 1)
        && CheapRange(len'[|len'| - 1 - k], alphaSize, starts'[k], starts'[k + 1] as int - 1)
    {
      if k < |len| - part { assert len'[|len'| - 1 - k] == len[|len| - 1 - k]; }
    }
  }

  /** Cheap symbols gs..ge for table nPart-1, chosen to get an equal share of what is left. */
  method FirstTables(mtfFreq: seq<nat>, alphaSize: nat, nMTF: nat, nGroups: nat)
    returns (len: seq<seq<nat>>, ghost starts: seq<nat>)
    requires 1 <= alphaSize <= |mtfFreq| && nGroups > 0
    ensures |len| == nGroups && Rows(len, alphaSize) && FirstRanges(len, mtfFreq, alphaSize, nMTF, 0, starts)
  {
    hide Sum, CDiv, Reaches, CheapRange, NextRange, FirstRanges;
    len := seq(nGroups, _ => seq(alphaSize, _ => GREATER_ICOST));
    var nPart, remF, gs := nGroups, nMTF as int, 0;
    starts := [0];
    RangesNone(len, mtfFreq, alphaSize, nMTF);
    while nPart > 0
      invariant 0 <= nPart <= nGroups && 0 <= gs <= alphaSize && |len| == nGroups && Rows(len, alphaSize)
      invariant FirstRanges(len, mtfFreq, alphaSize, nMTF, nPart, starts) && starts != [] && starts[|starts|-1] == gs
      invariant remF == nMTF - Sum(mtfFreq, 0, gs)
      decreases nPart
    {
      var tFreq := CDiv(remF, nPart);
      var ge, aFreq := FindEnd(mtfFreq, alphaSize, gs, tFreq);
      RangeEnd(mtfFreq, alphaSize, nMTF, nGroups, nPart, gs, ge);
      if ge > gs && nPart != nGroups && nPart != 1 && (nGroups - nPart) % 2 == 1 {
        aFreq := aFreq - mtfFreq[ge];
        ge := ge - 1;
      }
      var row := seq(alphaSize, v => if gs <= v <= ge then LESSER_ICOST else GREATER_ICOST);
      assert CheapRange(row, alphaSize, gs, ge) by { RowCheap(row, alphaSize, gs, ge); }
      MoreRanges(len, mtfFreq, alphaSize, nMTF, nPart, starts, row, ge);
      SumSplit(mtfFreq, 0, gs, ge + 1);
      len := len[nPart - 1 := row];
      starts := starts + [ge + 1];
      nPart := nPart - 1;
      gs := ge + 1;
      remF := remF - aFreq;
    }
  }

  lemma {:induction false} RangesNone(len: seq<seq<nat>>, freq: seq<nat>, alphaSize: nat, nMTF: nat)
    requires alphaSize <= |freq|
    ensures FirstRanges(len, freq, alphaSize, nMTF, |len|, [0]) && Sum(freq, 0, 0) == 0
  {
  }

  lemma {:induction false} RowCheap(row: seq<nat>, alphaSize: nat, gs: nat, ge: int)
    requires |row| == alphaSize && forall v :: 0 <= v < alphaSize ==>
      row[v] == if gs <= v <= ge then LESSER_ICOST else GREATER_ICOST
    ensures CheapRange(row, alphaSize, gs, ge)
  {
  }

  lemma {:induction false} RangeEnd(freq: seq<nat>, alphaSize: nat, nMTF: nat, nGroups: nat, part: nat, gs: nat,
                                    ge: int)
    requires 0 < part && gs <= alphaSize <= |freq|
      && Reaches(freq, alphaSize, gs, ge, CDiv(nMTF - Sum(freq, 0, gs), part))
    ensures gs - 1 <= ge < alphaSize && (ge >= gs ==> Sum(freq, gs, ge + 1) == Sum(freq, gs, ge) + freq[ge])
    ensures !Trimmed(nGroups, part, gs, ge) ==> NextRange(freq, alphaSize, nMTF, nGroups, part, gs, ge)
    ensures Trimmed(nGroups, part, gs, ge) ==> NextRange(freq, alphaSize, nMTF, nGroups, part, gs, ge - 1)
  {
    hide CDiv;
  }

  lemma {:induction false} CompletePlan(selector: seq<nat>, len: seq<seq<nat>>, len0: seq<seq<nat>>, alphaSize: nat,
                                        mtfv: seq<u16>)
    requires Complete(len, alphaSize) && |len| == |len0| && 2 <= |len| <= 6
    requires Cheapest(selector, len0, alphaSize, mtfv) && |selector| == (|mtfv| + 49) / 50 && 1 <= |mtfv| <= 900001
    ensures PlanFits(selector, len, alphaSize, |mtfv|)
  {
    hide Kraft, Pow2, Short, Cost, Rows, InAlphabet;
  }

  function Tallies(mtfv: seq<u16>, selector: seq<nat>, t: nat, alphaSize: nat): (freq: seq<nat>)
    requires |mtfv| <= 50 * |selector|
  {
    seq(alphaSize, v requires 0 <= v < alphaSize => Tally(mtfv, selector, t, v, |mtfv|))
  }

  /** One pass: cheapest selectors for the tables there were, then the best tables for these selectors. */
  ghost predicate Pass(len0: seq<seq<nat>>, selector: seq<nat>, len: seq<seq<nat>>, alphaSize: nat, mtfv: seq<u16>) {
    && Cheapest(selector, len0, alphaSize, mtfv) && |selector| == (|mtfv| + 49) / 50 && |len| == |len0|
    && forall t {:trigger len[t]} :: 0 <= t < |len| ==> Fitted(len[t], Tallies(mtfv, selector, t, alphaSize))
  }

  /** As many passes from the first tables on. */
  ghost predicate Passes(n: nat, first: seq<seq<nat>>, selector: seq<nat>, len: seq<seq<nat>>, alphaSize: nat,
                         mtfv: seq<u16>)
  {
    if n == 0 then len == first
    else exists sel0, len0 {:trigger Passes(n - 1, first, sel0, len0, alphaSize, mtfv)} ::
      Passes(n - 1, first, sel0, len0, alphaSize, mtfv) && Pass(len0, selector, len, alphaSize, mtfv)
  }

  lemma {:induction false} PassDone(len0: seq<seq<nat>>, selector: seq<nat>, len: seq<seq<nat>>, alphaSize: nat,
                                    mtfv: seq<u16>, rfreq: seq<seq<nat>>)
    requires Cheapest(selector, len0, alphaSize, mtfv) && |selector| == (|mtfv| + 49) / 50 && |len| == |len0|
    requires Tallied(rfreq, |len|, alphaSize, mtfv, selector, |mtfv|) && AllFitted(len, rfreq)
    ensures Pass(len0, selector, len, alphaSize, mtfv)
  {
    hide Cheapest, Fitted, Tally;
    forall t | 0 <= t < |len| ensures Fitted(len[t], Tallies(mtfv, selector, t, alphaSize)) {
      assert rfreq[t] == Tallies(mtfv, selector, t, alphaSize);
    }
  }

  lemma {:induction false} OnePassMore(n: nat, first: seq<seq<nat>>, sel0: seq<nat>, len0: seq<seq<nat>>,
                                       selector: seq<nat>, len: seq<seq<nat>>, alphaSize: nat, mtfv: seq<u16>)
    requires Passes(n, first, sel0, len0, alphaSize, mtfv) && Pass(len0, selector, len, alphaSize, mtfv)
    ensures Passes(n + 1, first, selector, len, alphaSize, mtfv)
  {
    hide Pass;
  }

  /**
   * Everything up to the selectors' move-to-front values: the number of tables goes by the number of symbols, and
   * from the first ones the selectors and tables are reached in four passes.
   */
  method ChooseTables(mtfv: seq<u16>, mtfFreq: seq<nat>, alphaSize: nat)
    returns (selector: seq<nat>, len: seq<seq<nat>>, ghost first: seq<seq<nat>>, ghost starts: seq<nat>)
    requires 3 <= alphaSize <= |mtfFreq| && alphaSize <= 258 && InAlphabet(mtfv, alphaSize) && 1 <= |mtfv| <= 900001
    ensures PlanFits(selector, len, alphaSize, |mtfv|)
    ensures |len| == 2 + (if |mtfv| >= 200 then 1 else 0) + (if |mtfv| >= 600 then 1 else 0)
      + (if |mtfv| >= 1200 then 1 else 0) + (if |mtfv| >= 2400 then 1 else 0)
    ensures |first| == |len| && FirstRanges(first, mtfFreq, alphaSize, |mtfv|, 0, starts)
    ensures Passes(4, first, selector, len, alphaSize, mtfv)
  {
    hide Complete, Cheapest, Rows, InAlphabet, Counted, Tallied, AllFitted, Pass, Passes, PlanFits, FirstRanges;
    var nGroups := NumGroups(|mtfv|);
    len, starts := FirstTables(mtfFreq, alphaSize, |mtfv|, nGroups);
    selector := [];
    first := len;
    PassesNone(first, alphaSize, mtfv);
    ghost var len0 := len;
    var iter := 0;
    while iter < N_ITERS
      invariant 0 <= iter <= N_ITERS && |len| == |len0| == nGroups && Rows(len, alphaSize)
      invariant iter > 0 ==>
        Complete(len, alphaSize) && Cheapest(selector, len0, alphaSize, mtfv) && |selector| == (|mtfv| + 49) / 50
      invariant Passes(iter, first, selector, len, alphaSize, mtfv)
    {
      var rfreq;
      ghost var sel0 := selector;
      len0 := len;
      selector, rfreq := SelectTables(len, alphaSize, mtfv);
      CountedSize(rfreq, nGroups, alphaSize, |mtfv|);
      len := MakeTables(rfreq, alphaSize, |mtfv|);
      CompleteRows(len, alphaSize);
      PassDone(len0, selector, len, alphaSize, mtfv, rfreq);
      OnePassMore(iter, first, sel0, len0, selector, len, alphaSize, mtfv);
      iter := iter + 1;
    }
    CompletePlan(selector, len, len0, alphaSize, mtfv);
  }

  lemma {:induction false} PassesNone(first: seq<seq<nat>>, alphaSize: nat, mtfv: seq<u16>)
    ensures Passes(0, first, [], first, alphaSize, mtfv)
  {
  }

  lemma {:induction false} CountedSize(rfreq: seq<seq<nat>>, nGroups: nat, alphaSize: nat, i: nat)
    requires Counted(rfreq, nGroups, alphaSize, i)
    ensures |rfreq| == nGroups && Counted(rfreq, |rfreq|, alphaSize, i)
  {
  }
}
