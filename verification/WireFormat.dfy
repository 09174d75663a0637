/** The bits of a compressed block, and the decoding machine reading them.
    Each format function puts its bits in front of the bits `rest` that follow. */
module WireFormat {
  import opened Bytes
  import opened Powers
  import opened BitStream
  import opened DecodeTables
  import opened MtfEncoder
  import opened DecodeMachine

  // ----- bytes and words

  function ByteThen(b: byte, rest: seq<bit>): seq<bit> {
    BitsOf(b, 8) + rest
  }

  function WordThen(u: nat, rest: seq<bit>): seq<bit> {
    BitsOf(Low(Shr(u, 24), 8),
           8) + (BitsOf(Low(Shr(u, 16), 8), 8) + (BitsOf(Low(Shr(u, 8), 8), 8) + (BitsOf(Low(u, 8), 8) + rest)))
  }

  // ----- the mapping table

  function Flag(b: bool): nat {
    if b then 1 else 0
  }

  /** Some byte of row i is in use. */
  function RowUsed(inUse: seq<bool>, i: nat, j: nat): bool
    requires |inUse| == 256 && i < 16 && j <= 16
    decreases 16 - j
  {
    j < 16 && (inUse[16 * i + j] || RowUsed(inUse, i, j + 1))
  }

  function RowsUsed(inUse: seq<bool>, k: nat): (r: seq<bool>)
    requires |inUse| == 256 && k <= 16
    ensures |r| == k && forall i :: 0 <= i < k ==> r[i] == RowUsed(inUse, i, 0)
  {
    seq(k, i requires 0 <= i < k => RowUsed(inUse, i, 0))
  }

  function RowFlags(inUse: seq<bool>, i: nat, rest: seq<bit>): seq<bit>
    requires |inUse| == 256 && i <= 16
    decreases 16 - i
  {
    if i == 16 then rest else BitsOf(Flag(RowUsed(inUse, i, 0)), 1) + RowFlags(inUse, i + 1, rest)
  }

  function ByteFlags(inUse: seq<bool>, k: nat, rest: seq<bit>): seq<bit>
    requires |inUse| == 256 && k <= 256
    decreases 256 - k
  {
    if k == 256 then rest
    else if k % 16 == 0 && !RowUsed(inUse, k / 16, 0) then ByteFlags(inUse, k + 16, rest)
    else BitsOf(Flag(inUse[k]), 1) + ByteFlags(inUse, k + 1, rest)
  }

  lemma {:induction false} FlagBit(b: bool)
    ensures Flag(b) < Pow2(1) && (Flag(b) == 1) == b
  {
  }

  lemma {:induction false} ExecRowFlags(head: Head, inUse: seq<bool>, i: nat, rest: seq<bit>)
    requires |inUse| == 256 && i < 16
    ensures Ok(SkipRows(head, RowsUsed(inUse, 16), []))
    ensures Exec(Mapping1(head, RowsUsed(inUse, i)), RowFlags(inUse, i, rest))
      == Exec(SkipRows(head, RowsUsed(inUse, 16), []), rest)
    decreases 16 - i
  {
    hide Exec, SkipRows, RowUsed;
    SkipRowsOk(head, RowsUsed(inUse, 16), []);
    var s, b := Mapping1(head, RowsUsed(inUse, i)), RowUsed(inUse, i, 0);
    FlagBit(b);
    ExecStep(s, Flag(b), RowFlags(inUse, i + 1, rest));
    assert RowsUsed(inUse, i) + [b] == RowsUsed(inUse, i + 1);
    if i + 1 < 16 { ExecRowFlags(head, inUse, i + 1, rest); }
  }

  lemma {:induction false} RowUnused(inUse: seq<bool>, i: nat, j: nat)
    requires |inUse| == 256 && i < 16 && j <= 16 && !RowUsed(inUse, i, j)
    ensures forall x :: 16 * i + j <= x < 16 * i + 16 ==> !inUse[x]
    decreases 16 - j
  {
    if j < 16 { RowUnused(inUse, i, j + 1); }
  }

  /** The state with the first k flags known. */
  function MapState(head: Head, inUse: seq<bool>, k: nat): State
    requires |inUse| == 256 && k <= 256
  {
    if k % 16 == 0 then SkipRows(head, RowsUsed(inUse, 16), inUse[..k])
    else Mapping2(head, RowsUsed(inUse, 16), inUse[..k])
  }

  lemma {:induction false} MapStateRow(head: Head, inUse: seq<bool>, k: nat)
    requires |inUse| == 256 && k < 256 && k % 16 == 0
    ensures RowUsed(inUse, k / 16, 0) ==> MapState(head, inUse, k) == Mapping2(head, RowsUsed(inUse, 16), inUse[..k])
    ensures !RowUsed(inUse, k / 16, 0) ==> MapState(head, inUse, k) == MapState(head, inUse, k + 16)
  {
    if !RowUsed(inUse, k / 16, 0) {
      RowUnused(inUse, k / 16, 0);
      hide SkipRows;
      assert inUse[..k] + Falses(16) == inUse[..k + 16];
      SkipRowUnused(head, RowsUsed(inUse, 16), inUse[..k]);
    }
  }

  lemma {:induction false} SkipRowUnused(head: Head, rows: seq<bool>, inUse: seq<bool>)
    requires |rows| == 16 && |inUse| % 16 == 0 && |inUse| < 256 && !rows[|inUse| / 16]
    ensures SkipRows(head, rows, inUse) == SkipRows(head, rows, inUse + Falses(16))
  {
  }

  lemma {:induction false} MapStateOk(head: Head, inUse: seq<bool>, k: nat)
    requires |inUse| == 256 && k <= 256
    ensures Ok(MapState(head, inUse, k))
  {
    if k % 16 == 0 { SkipRowsOk(head, RowsUsed(inUse, 16), inUse[..k]); }
  }

  lemma {:induction false} MapStateEnd(head: Head, inUse: seq<bool>)
    requires |inUse| == 256 && Used(inUse, 256) > 0
    ensures MapState(head, inUse, 256) == Selector1(head, inUse)
  {
    assert inUse[..256] == inUse;
  }

  lemma {:induction false} MapStateNext(head: Head, inUse: seq<bool>, k: nat)
    requires |inUse| == 256 && k < 256 && (k % 16 != 0 || RowUsed(inUse, k / 16, 0))
    ensures var s := MapState(head, inUse, k);
      Ok(s) && !Final(s) && Need(s) == 1 && Next(s, Flag(inUse[k])) == MapState(head, inUse, k + 1)
  {
    if k % 16 == 0 { MapStateRow(head, inUse, k); }
    MapStateOk(head, inUse, k);
    assert inUse[..k] + [inUse[k]] == inUse[..k + 1];
  }

  lemma {:induction false} ExecByteFlags(head: Head, inUse: seq<bool>, k: nat, rest: seq<bit>)
    requires |inUse| == 256 && k <= 256 && Used(inUse, 256) > 0
    ensures Ok(MapState(head, inUse, k)) && Ok(Selector1(head, inUse))
    ensures Exec(MapState(head, inUse, k), ByteFlags(inUse, k, rest)) == Exec(Selector1(head, inUse), rest)
    decreases 256 - k
  {
    hide Exec, RowUsed, SkipRows, Used, MapState, Next, Final;
    MapStateOk(head, inUse, k);
    if k == 256 {
      MapStateEnd(head, inUse);
    } else if k % 16 == 0 && !RowUsed(inUse, k / 16, 0) {
      MapStateRow(head, inUse, k);
      ExecByteFlags(head, inUse, k + 16, rest);
    } else {
      ExecByteFlags(head, inUse, k + 1, rest);
      MapStateNext(head, inUse, k);
      FlagBit(inUse[k]);
      ExecStep(MapState(head, inUse, k), Flag(inUse[k]), ByteFlags(inUse, k + 1, rest));
    }
  }

  // ----- the selectors

  function PosSel(pos: seq<nat>, v: nat, k: nat): (p: nat)
    requires k <= |pos| && v in pos[k..]
    ensures k <= p < |pos| && pos[p] == v && v !in pos[k..p]
    decreases |pos| - k
  {
    if pos[k] == v then k else
      assert pos[k..] == [pos[k]] + pos[k + 1..];
      var p := PosSel(pos, v, k + 1);
      assert pos[k..p] == [pos[k]] + pos[k + 1..p];
      p
  }

  predicate Lists(pos: seq<nat>, n: nat) {
    forall v :: 0 <= v < n ==> v in pos[0..]
  }

  lemma {:induction false} MoveSelLists(pos: seq<nat>, n: nat, k: nat)
    requires Lists(pos, n) && k < |pos|
    ensures Lists(MoveSel(pos, k), n)
  {
    var r := MoveSel(pos, k);
    forall v | 0 <= v < n ensures v in r[0..] {
      assert v in pos[0..] && pos[0..] == pos;
      var p :| 0 <= p < |pos| && pos[p] == v;
      var q := if p == k then 0 else if p < k then p + 1 else p;
      assert r[0..][q] == v;
    }
  }

  /** The move-to-front positions of the selectors. */
  function SelectorMtf(pos: seq<nat>, selector: seq<nat>, i: nat, n: nat): (r: seq<nat>)
    requires i <= |selector| && Lists(pos, n) && |pos| == n && forall x :: 0 <= x < |selector| ==> selector[x] < n
    ensures |r| == |selector| - i && forall x :: 0 <= x < |r| ==> r[x] < n
    decreases |selector| - i
  {
    if i == |selector| then []
    else
      var p := PosSel(pos, selector[i], 0);
      MoveSelLists(pos, n, p);
      [p] + SelectorMtf(MoveSel(pos, p), selector, i + 1, n)
  }

  lemma {:induction false} UndoSkips(pos: seq<nat>, a: seq<nat>, b: seq<nat>, i: nat, j: nat)
    requires i <= |a| && j <= |b| && a[i..] == b[j..]
    requires (forall x :: 0 <= x < |a| ==> a[x] < |pos|) && (forall x :: 0 <= x < |b| ==> b[x] < |pos|)
    ensures UndoSelectors(pos, a, i) == UndoSelectors(pos, b, j)
    decreases |a| - i
  {
    assert |a| - i == |b| - j;
    if i < |a| {
      assert a[i] == a[i..][0] == b[j..][0] == b[j];
      assert a[i + 1..] == a[i..][1..] && b[j + 1..] == b[j..][1..];
      UndoSkips(MoveSel(pos, a[i]), a, b, i + 1, j + 1);
    }
  }

  lemma {:induction false} SelectorsUndone(pos: seq<nat>, selector: seq<nat>, i: nat, n: nat)
    requires i <= |selector| && Lists(pos, n) && |pos| == n && forall x :: 0 <= x < |selector| ==> selector[x] < n
    ensures UndoSelectors(pos, SelectorMtf(pos, selector, i, n), 0) == selector[i..]
    decreases |selector| - i
  {
    if i < |selector| {
      var p := PosSel(pos, selector[i], 0);
      MoveSelLists(pos, n, p);
      var m := SelectorMtf(pos, selector, i, n);
      var m' := SelectorMtf(MoveSel(pos, p), selector, i + 1, n);
      SelectorsUndone(MoveSel(pos, p), selector, i + 1, n);
      assert m[1..] == m'[0..];
      UndoSkips(MoveSel(pos, p), m, m', 1, 0);
    }
  }

  function Unary(j: nat, rest: seq<bit>): seq<bit> {
    if j == 0 then BitsOf(0, 1) + rest else BitsOf(1, 1) + Unary(j - 1, rest)
  }

  function SelectorBits(selectorMtf: seq<nat>, i: nat, rest: seq<bit>): seq<bit>
    requires i <= |selectorMtf|
    decreases |selectorMtf| - i
  {
    if i == |selectorMtf| then rest else Unary(selectorMtf[i], SelectorBits(selectorMtf, i + 1, rest))
  }

  /** The state while selector number |m| is read and j ones have been seen. */
  function SelState(head: Head, inUse: seq<bool>, n: nat, total: nat, m: seq<nat>, j: nat): State {
    Selector3(head, inUse, n, total, m, j)
  }

  predicate SelOk(inUse: seq<bool>, n: nat, m: seq<nat>) {
    |inUse| == 256 && 2 <= n <= 6 && forall i :: 0 <= i < |m| ==> m[i] < n
  }

  lemma {:induction false} SelFacts(head: Head, inUse: seq<bool>, n: nat, total: nat, m: seq<nat>, j: nat)
    requires SelOk(inUse, n, m) && |m| < total && j < n
    ensures var s := SelState(head, inUse, n, total, m, j);
      && Ok(s) && !Final(s) && Need(s) == 1
      && (j + 1 < n ==> Next(s, 1) == SelState(head, inUse, n, total, m, j + 1))
  {
  }

  /** The ones of a selector, then its zero. */
  lemma {:induction false} ExecUnary(head: Head, inUse: seq<bool>, n: nat, total: nat, m: seq<nat>, j: nat, k: nat,
                                     rest: seq<bit>)
    requires SelOk(inUse, n, m) && |m| < total && j + k < n
    ensures Ok(SelState(head, inUse, n, total, m, j)) && Ok(SelState(head, inUse, n, total, m, j + k))
    ensures !Final(SelState(head, inUse, n, total, m, j + k)) && Ok(Next(SelState(head, inUse, n, total, m, j + k), 0))
    ensures Exec(SelState(head, inUse, n, total, m, j), Unary(k, rest))
         == Exec(Next(SelState(head, inUse, n, total, m, j + k), 0), rest)
    decreases k
  {
    hide *;
    SelFacts(head, inUse, n, total, m, j);
    UnaryIs(k, rest);
    Pow2Values();
    var s := SelState(head, inUse, n, total, m, j);
    if k == 0 {
      ExecStep(s, 0, rest);
    } else {
      ExecStep(s, 1, Unary(k - 1, rest));
      ExecUnary(head, inUse, n, total, m, j + 1, k - 1, rest);
    }
  }

  lemma {:induction false} UnaryIs(j: nat, rest: seq<bit>)
    ensures Unary(j, rest) == if j == 0 then BitsOf(0, 1) + rest else BitsOf(1, 1) + Unary(j - 1, rest)
  {
  }

  /** All selectors; the state then expects the coding tables. */
  lemma {:induction false} ExecSelectors(head: Head, inUse: seq<bool>, n: nat, m: seq<nat>, i: nat, rest: seq<bit>)
    requires SelOk(inUse, n, m) && i < |m|
    ensures var d := Desc(head, inUse, n, UndoSelectors(Groups(n), m, 0));
      && Ok(Coding1(d, [])) && Ok(SelState(head, inUse, n, |m|, m[..i], 0))
      && Exec(SelState(head, inUse, n, |m|, m[..i], 0), SelectorBits(m, i, rest)) == Exec(Coding1(d, []), rest)
    decreases |m| - i
  {
    hide Exec, DescOk, RowsOk, UndoSelectors;
    assert m[..i] + [m[i]] == m[..i + 1];
    ExecUnary(head, inUse, n, |m|, m[..i], 0, m[i], SelectorBits(m, i + 1, rest));
    if i + 1 < |m| {
      ExecSelectors(head, inUse, n, m, i + 1, rest);
    } else {
      assert m[..i + 1] == m;
    }
  }

  // ----- the coding tables

  function Distance(curr: nat, target: nat): nat {
    if curr < target then target - curr else curr - target
  }

  /** The lengths of one table from symbol i on, coming from length curr. */
  function Deltas(row: seq<nat>, i: nat, curr: nat, rest: seq<bit>): seq<bit>
    requires i <= |row|
    decreases |row| - i, if i < |row| then Distance(curr, row[i]) else 0
  {
    if i == |row| then rest
    else if curr < row[i] then BitsOf(2, 2) + Deltas(row, i, curr + 1, rest)
    else if curr > row[i] then BitsOf(3, 2) + Deltas(row, i, curr - 1, rest)
    else BitsOf(0, 1) + Deltas(row, i + 1, curr, rest)
  }

  function TableBits(len: seq<seq<nat>>, t: nat, rest: seq<bit>): seq<bit>
    requires t <= |len| && forall x :: 0 <= x < |len| ==> len[x] != []
    decreases |len| - t
  {
    if t == |len| then rest else BitsOf(len[t][0], 5) + Deltas(len[t], 0, len[t][0], TableBits(len, t + 1, rest))
  }

  lemma {:induction false} TwoBits(v: nat, rest: seq<bit>)
    requires 2 <= v <= 3
    ensures BitsOf(v, 2) + rest == BitsOf(1, 1) + (BitsOf(v - 2, 1) + rest)
  {
    assert BitsOf(v, 2) == BitsOf(v / 2, 1) + [v % 2 == 1];
    assert BitsOf(v - 2, 1) == [v % 2 == 1];
  }

  lemma {:induction false} CodingFacts(d: Desc, len: seq<seq<nat>>, row: seq<nat>, curr: nat)
    requires DescOk(d) && RowsOk(d, len, row) && |row| < AlphaSize(d) && 1 <= curr <= LONGEST_CODE
    ensures AlphaSize(d) <= MAX_ALPHA_SIZE && forall t :: 0 <= t < |len| ==> |len[t]| <= MAX_ALPHA_SIZE
    ensures NextLength(d, len, row, curr) == Coding2(d, len, row, curr)
    ensures RowsOk(d, len, row + [curr])
    ensures var s, s' := Coding2(d, len, row, curr), Coding3(d, len, row, curr);
      && Ok(s) && !Final(s) && Need(s) == 1 && Ok(s') && !Final(s') && Need(s') == 1
      && Next(s, 0) == NextLength(d, len, row + [curr], curr) && Next(s, 1) == s'
      && Next(s', 0) == NextLength(d, len, row, curr + 1) && Next(s', 1) == NextLength(d, len, row, curr - 1)
  {
    hide NextLength, RowsOk;
    AddRow(d, len, row, curr);
    assert AlphaSize(d) <= MAX_ALPHA_SIZE;
    RowsFit(d, len, row);
    NextLengthInside(d, len, row, curr);
  }

  lemma {:induction false} RowsFit(d: Desc, len: seq<seq<nat>>, row: seq<nat>)
    requires DescOk(d) && RowsOk(d, len, row)
    ensures |row| <= AlphaSize(d) <= MAX_ALPHA_SIZE && forall t :: 0 <= t < |len| ==> |len[t]| <= MAX_ALPHA_SIZE
  {
  }

  lemma {:induction false} NextLengthInside(d: Desc, len: seq<seq<nat>>, row: seq<nat>, curr: nat)
    requires DescOk(d) && RowsOk(d, len, row) && |row| < AlphaSize(d) && 1 <= curr <= LONGEST_CODE
    requires forall t :: 0 <= t < |len| ==> |len[t]| <= MAX_ALPHA_SIZE
    ensures NextLength(d, len, row, curr) == Coding2(d, len, row, curr)
  {
  }

  /** One step of the length up or down: two bits, two labels. */
  lemma {:induction false} ExecDelta(d: Desc, len: seq<seq<nat>>, row: seq<nat>, curr: nat, v: nat, rest: seq<bit>)
    requires DescOk(d) && RowsOk(d, len, row) && |row| < AlphaSize(d) && 1 <= curr <= LONGEST_CODE && 2 <= v <= 3
    ensures |row| <= AlphaSize(d) && forall t :: 0 <= t < |len| ==> |len[t]| <= MAX_ALPHA_SIZE
    ensures var next := NextLength(d, len, row, if v == 2 then curr + 1 else curr - 1);
      && Ok(Coding2(d, len, row, curr)) && Ok(next)
      && Exec(Coding2(d, len, row, curr), BitsOf(v, 2) + rest) == Exec(next, rest)
  {
    hide *;
    CodingFacts(d, len, row, curr);
    Pow2Values();
    TwoBits(v, rest);
    ExecStep(Coding2(d, len, row, curr), 1, BitsOf(v - 2, 1) + rest);
    ExecStep(Coding3(d, len, row, curr), v - 2, rest);
  }

  lemma {:induction false} PrefixRow(d: Desc, len: seq<seq<nat>>, row: seq<nat>, i: nat)
    requires DescOk(d) && RowsOk(d, len, row) && |row| == AlphaSize(d) && i <= |row|
    ensures RowsOk(d, len, row[..i]) && |row| >= 2 && forall x :: 0 <= x < |row| ==> 1 <= row[x] <= LONGEST_CODE
    ensures row[..|row|] == row && (i < |row| ==> row[..i] + [row[i]] == row[..i + 1])
  {
  }

  /** The state with the first i lengths of a table known and the last length seen. */
  function RowState(d: Desc, len: seq<seq<nat>>, row: seq<nat>, i: nat, curr: nat): State
    requires DescOk(d) && RowsOk(d, len, row) && |row| == AlphaSize(d) && i <= |row|
  {
    RowsFit(d, len, row);
    NextLength(d, len, row[..i], curr)
  }

  lemma {:induction false} RowStateIs(d: Desc, len: seq<seq<nat>>, row: seq<nat>, i: nat, curr: nat, rest: seq<bit>)
    requires DescOk(d) && RowsOk(d, len, row) && |row| == AlphaSize(d) && i <= |row|
    ensures RowsOk(d, len, row[..i]) && |row| <= MAX_ALPHA_SIZE
      && (forall t :: 0 <= t < |len| ==> |len[t]| <= MAX_ALPHA_SIZE)
    ensures i <= AlphaSize(d) && (i < |row| ==> i < AlphaSize(d))
    ensures RowState(d, len, row, i, curr) == NextLength(d, len, row[..i], curr) && Ok(RowState(d, len, row, i, curr))
    ensures i == |row| ==> Deltas(row, i, curr, rest) == rest
    ensures i < |row| && curr < row[i] ==> Deltas(row, i, curr, rest) == BitsOf(2, 2) + Deltas(row, i, curr + 1, rest)
    ensures i < |row| && curr > row[i] ==> Deltas(row, i, curr, rest) == BitsOf(3, 2) + Deltas(row, i, curr - 1, rest)
    ensures i < |row| && curr == row[i] ==> Deltas(row, i, curr, rest) == BitsOf(0, 1) + Deltas(row, i + 1, curr, rest)
  {
    hide NextLength, BitsOf;
    RowsFit(d, len, row);
    PrefixRow(d, len, row, i);
    NextLengthOk(d, len, row[..i], curr);
  }

  /** One table, from symbol i on. */
  lemma {:induction false} ExecDeltas(d: Desc, len: seq<seq<nat>>, row: seq<nat>, i: nat, curr: nat, rest: seq<bit>)
    requires DescOk(d) && RowsOk(d, len, row) && |row| == AlphaSize(d) && i <= |row| && 1 <= curr <= LONGEST_CODE
    requires |row| > 0 && (i == |row| ==> curr == row[|row| - 1])
    ensures Ok(RowState(d, len, row, i, curr)) && Ok(RowState(d, len, row, |row|, row[|row| - 1]))
    ensures Exec(RowState(d, len, row, i, curr), Deltas(row, i, curr, rest))
         == Exec(RowState(d, len, row, |row|, row[|row| - 1]), rest)
    decreases |row| - i, if i < |row| then (if curr < row[i] then row[i] - curr else curr - row[i]) else 0
  {
    hide *;
    PrefixRow(d, len, row, i);
    RowStateIs(d, len, row, i, curr, rest);
    if i < |row| {
      RowStateIs(d, len, row, i + 1, curr, rest);
      CodingFacts(d, len, row[..i], curr);
      if curr < row[i] {
        RowStateIs(d, len, row, i, curr + 1, rest);
        ExecDelta(d, len, row[..i], curr, 2, Deltas(row, i, curr + 1, rest));
        ExecDeltas(d, len, row, i, curr + 1, rest);
      } else if curr > row[i] {
        RowStateIs(d, len, row, i, curr - 1, rest);
        ExecDelta(d, len, row[..i], curr, 3, Deltas(row, i, curr - 1, rest));
        ExecDeltas(d, len, row, i, curr - 1, rest);
      } else {
        Pow2Values();
        ExecStep(Coding2(d, len, row[..i], curr), 0, Deltas(row, i + 1, curr, rest));
        ExecDeltas(d, len, row, i + 1, curr, rest);
      }
    }
  }
}
