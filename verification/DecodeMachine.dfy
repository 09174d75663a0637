/** BZ2_decompress as a machine: its states are the GET_BITS labels with the variables saved there. */
module DecodeMachine {
  import opened Bytes
  import opened Powers
  import opened BitStream
  import opened DecodeTables
  import opened MoveToFront
  import opened MtfEncoder

  const G_SIZE := 50
  const MAX_SELECTORS := 18002

  /** What precedes the mapping table. */
  datatype Head = Head(level: nat, crc: nat, origPtr: nat)

  /** A block as it is handed to the output stage. */
  datatype Block = Block(head: Head, column: seq<byte>)

  /** What is known when the coding tables begin. */
  datatype Desc = Desc(head: Head, inUse: seq<bool>, nGroups: nat, selector: seq<nat>)

  datatype State =
    | Magic(k: nat)
    | BlkHdr(level: nat, k: nat)
    | BlkCrc(level: nat, k: nat, crc: nat)
    | RandBit(level: nat, crc: nat)
    | OrigPtr(level: nat, crc: nat, k: nat, ptr: nat)
    | Mapping1(head: Head, inUse16: seq<bool>)
    | Mapping2(head: Head, inUse16: seq<bool>, inUse: seq<bool>)
    | Selector1(head: Head, inUse: seq<bool>)
    | Selector2(head: Head, inUse: seq<bool>, nGroups: nat)
    | Selector3(head: Head, inUse: seq<bool>, nGroups: nat, nSelectors: nat, selectorMtf: seq<nat>, j: nat)
    | Coding1(desc: Desc, len: seq<seq<nat>>)
    | Coding2(desc: Desc, len: seq<seq<nat>>, row: seq<nat>, curr: int)
    | Coding3(desc: Desc, len: seq<seq<nat>>, row: seq<nat>, curr: int)
    | Mtf(desc: Desc, tables: seq<Tables>, groupNo: nat, groupPos: nat, fresh?: bool, zn: nat, zvec: nat, undo: Undo)
    | Output(block: Block)
    | EndHdr(k: nat)
    | CombCrc(k: nat, crc: nat)
    | StreamEnd(crc: nat)
    | DataError

  predicate Final(s: State) {
    s.Output? || s.StreamEnd? || s.DataError?
  }

  // ----- parts of the transitions

  function HeaderByte(k: nat): byte {
    match k case 1 => 0x31 case 2 => 0x41 case 3 => 0x59 case 4 => 0x26 case 5 => 0x53 case _ => 0x59
  }

  function EndByte(k: nat): byte {
    match k case 1 => 0x17 case 2 => 0x72 case 3 => 0x45 case 4 => 0x38 case 5 => 0x50 case _ => 0x90
  }

  function Falses(n: nat): (f: seq<bool>)
    ensures |f| == n && forall i :: 0 <= i < n ==> !f[i]
  {
    seq(n, i => false)
  }

  /** Whole rows of 16 unused bytes are skipped; the map is complete when all rows are. */
  function SkipRows(head: Head, inUse16: seq<bool>, inUse: seq<bool>): State
    requires |inUse16| == 16 && |inUse| % 16 == 0
    decreases 256 - |inUse|
  {
    if |inUse| >= 256 then
      if Used(inUse, |inUse|) == 0 then DataError else Selector1(head, inUse)
    else if inUse16[|inUse| / 16] then Mapping2(head, inUse16, inUse)
    else SkipRows(head, inUse16, inUse + Falses(16))
  }

  /** The byte with the given rank among those in use. */
  function ByteOfRank(inUse: seq<bool>, r: nat, v: nat): (b: byte)
    requires |inUse| == 256 && v <= 256
    decreases 256 - v
  {
    if v == 256 then 0 else if inUse[v] && Used(inUse, v) == r then v else ByteOfRank(inUse, r, v + 1)
  }

  /** The array that makeMaps_d fills. */
  function SeqToUnseq(inUse: seq<bool>): (m: seq<byte>)
    requires |inUse| == 256
    ensures |m| == 256
  {
    seq(256, r requires 0 <= r < 256 => ByteOfRank(inUse, r, 0))
  }

  function MoveSel(pos: seq<nat>, k: nat): (r: seq<nat>)
    requires k < |pos|
    ensures |r| == |pos|
  {
    [pos[k]] + pos[..k] + pos[k + 1..]
  }

  /** The selectors behind their move-to-front positions. */
  function UndoSelectors(pos: seq<nat>, selectorMtf: seq<nat>, i: nat): (r: seq<nat>)
    requires i <= |selectorMtf| && forall x :: 0 <= x < |selectorMtf| ==> selectorMtf[x] < |pos|
    ensures |r| == |selectorMtf| - i
    decreases |selectorMtf| - i
  {
    if i == |selectorMtf| then []
    else [pos[selectorMtf[i]]] + UndoSelectors(MoveSel(pos, selectorMtf[i]), selectorMtf, i + 1)
  }

  function Groups(n: nat): (g: seq<nat>)
    ensures |g| == n && forall i :: 0 <= i < n ==> g[i] == i
  {
    seq(n, i => i)
  }

  function AlphaSize(d: Desc): nat
    requires |d.inUse| == 256
  {
    Used(d.inUse, 256) + 2
  }

  /** The next code length, or the next table, or the first symbol. */
  function NextLength(d: Desc, len: seq<seq<nat>>, row: seq<nat>, curr: int): State
    requires |d.inUse| == 256 && forall t :: 0 <= t < |len| ==> |len[t]| <= MAX_ALPHA_SIZE
    requires |row| <= AlphaSize(d)
  {
    if |row| < AlphaSize(d) then
      if curr < 1 || curr > LONGEST_CODE then DataError else Coding2(d, len, row, curr)
    else if |len| + 1 < d.nGroups then Coding1(d, len + [row])
    else FirstSymbol(d, TablesOfAll(len + [row]))
  }

  function TablesOfAll(len: seq<seq<nat>>): (t: seq<Tables>)
    requires forall t :: 0 <= t < |len| ==> |len[t]| <= MAX_ALPHA_SIZE
    ensures |t| == |len| && forall i :: 0 <= i < |t| ==> t[i] == TablesOf(len[i])
  {
    seq(|len|, i requires 0 <= i < |len| => TablesOf(len[i]))
  }

  function FirstSymbol(d: Desc, tables: seq<Tables>): State {
    if d.selector == [] || d.selector[0] >= |tables| then DataError
    else Mtf(d, tables, 0, G_SIZE - 1, true, tables[d.selector[0]].minLen, 0, Undo(Iota(256), -1, 1, []))
  }

  /** GET_MTF_VAL up to its first GET_BITS. */
  function Fetch(d: Desc, tables: seq<Tables>, groupNo: nat, groupPos: nat, undo: Undo): State
    requires groupNo < |d.selector| && d.selector[groupNo] < |tables|
  {
    if groupPos > 0 then Mtf(d, tables, groupNo, groupPos - 1, true, tables[d.selector[groupNo]].minLen, 0, undo)
    else if groupNo + 1 >= |d.selector| || d.selector[groupNo + 1] >= |tables| then DataError
    else Mtf(d, tables, groupNo + 1, G_SIZE - 1, true, tables[d.selector[groupNo + 1]].minLen, 0, undo)
  }

  /** A symbol has been read. */
  function OnSymbol(d: Desc, tables: seq<Tables>, groupNo: nat, groupPos: nat, undo: Undo, sym: nat): State
    requires |d.inUse| == 256 && Ready(undo, SeqToUnseq(d.inUse))
    requires groupNo < |d.selector| && d.selector[groupNo] < |tables|
  {
    var r := Feed(undo, sym, Used(d.inUse, 256) + 1, SeqToUnseq(d.inUse), BLOCK_UNIT * d.head.level);
    match r
    case Failed => DataError
    case Going(u) => Fetch(d, tables, groupNo, groupPos, u)
    case Finished(column) => if d.head.origPtr >= |column| then DataError else Output(Block(d.head, column))
  }

  /** zn bits of a code are in zvec. */
  function OnCode(d: Desc, tables: seq<Tables>, groupNo: nat, groupPos: nat, zn: nat, zvec: nat, undo: Undo): State
    requires |d.inUse| == 256 && Ready(undo, SeqToUnseq(d.inUse))
    requires groupNo < |d.selector| && d.selector[groupNo] < |tables| && FullTables(tables)
  {
    match Look(tables[d.selector[groupNo]], zn, zvec)
    case Bad => DataError
    case More => Mtf(d, tables, groupNo, groupPos, false, zn + 1, zvec, undo)
    case Found(sym) => OnSymbol(d, tables, groupNo, groupPos, undo, sym)
  }

  predicate FullTables(tables: seq<Tables>) {
    forall t :: 0 <= t < |tables| ==>
      |tables[t].limit| > LONGEST_CODE && |tables[t].base| > LONGEST_CODE && |tables[t].perm| == MAX_ALPHA_SIZE
        && 1 <= tables[t].minLen <= LONGEST_CODE
  }

  predicate DescOk(d: Desc) {
    && |d.inUse| == 256 && 2 <= d.nGroups <= 6 && d.selector != []
    && forall i :: 0 <= i < |d.selector| ==> d.selector[i] < d.nGroups
  }

  predicate RowsOk(d: Desc, len: seq<seq<nat>>, row: seq<nat>)
    requires |d.inUse| == 256
  {
    && |len| < d.nGroups && (forall t :: 0 <= t < |len| ==> |len[t]| == AlphaSize(d) && LengthsOk(len[t]))
    && |row| <= AlphaSize(d) && LengthsOk(row)
  }

  predicate LengthsOk(row: seq<nat>) {
    forall i :: 0 <= i < |row| ==> 1 <= row[i] <= LONGEST_CODE
  }

  /** What holds of the saved variables at each label. */
  predicate Ok(s: State) {
    match s
    case Magic(k) => 1 <= k <= 4
    case BlkHdr(level, k) => 1 <= k <= 6
    case BlkCrc(level, k, crc) => 1 <= k <= 4
    case OrigPtr(level, crc, k, ptr) => 1 <= k <= 3
    case Mapping1(head, inUse16) => |inUse16| < 16
    case Mapping2(head, inUse16, inUse) => |inUse16| == 16 && |inUse| < 256
    case Selector1(head, inUse) => |inUse| == 256
    case Selector2(head, inUse, nGroups) => |inUse| == 256 && 2 <= nGroups <= 6
    case Selector3(head, inUse, nGroups, nSelectors, selectorMtf, j) =>
      && |inUse| == 256 && 2 <= nGroups <= 6 && j < nGroups && |selectorMtf| < nSelectors
      && forall i :: 0 <= i < |selectorMtf| ==> selectorMtf[i] < nGroups
    case Coding1(desc, len) => DescOk(desc) && RowsOk(desc, len, [])
    case Coding2(desc, len, row, curr) => DescOk(desc) && RowsOk(desc, len, row) && |row| < AlphaSize(desc)
      && 1 <= curr <= LONGEST_CODE
    case Coding3(desc, len, row, curr) => DescOk(desc) && RowsOk(desc, len, row) && |row| < AlphaSize(desc)
      && 1 <= curr <= LONGEST_CODE
    case Mtf(desc, tables, groupNo, groupPos, fresh?, zn, zvec, undo) =>
      && DescOk(desc) && |tables| == desc.nGroups && FullTables(tables) && groupNo < |desc.selector|
      && 1 <= zn <= LONGEST_CODE + 1 && Ready(undo, SeqToUnseq(desc.inUse))
    case EndHdr(k) => 2 <= k <= 6
    case CombCrc(k, crc) => 1 <= k <= 4
    case _ => true
  }

  // ----- the machine

  /** How many bits the GET_BITS at a label asks for. */
  function Need(s: State): (n: nat)
    requires Ok(s)
    ensures n <= 24 && (!Final(s) ==> n >= 1)
  {
    match s
    case Mapping1(_, _) => 1
    case Mapping2(_, _, _) => 1
    case RandBit(_, _) => 1
    case Selector1(_, _) => 3
    case Selector2(_, _, _) => 15
    case Selector3(_, _, _, _, _, _) => 1
    case Coding1(_, _) => 5
    case Coding2(_, _, _, _) => 1
    case Coding3(_, _, _, _) => 1
    case Mtf(_, _, _, _, f, zn, _, _) => if f then zn else 1
    case Output(_) => 0
    case StreamEnd(_) => 0
    case DataError => 0
    case _ => 8
  }

  function NextMagic(k: nat, v: nat): State {
    if k == 1 then if v == 0x42 then Magic(2) else DataError
    else if k == 2 then if v == 0x5a then Magic(3) else DataError
    else if k == 3 then if v == 0x68 then Magic(4) else DataError
    else if 0x31 <= v <= 0x39 then BlkHdr(v - 0x30, 1) else DataError
  }

  /** What follows when GET_BITS at the label of s has read v. */
  function Next(s: State, v: nat): State
    requires Ok(s) && !Final(s)
  {
    match s
    case Magic(k) => NextMagic(k, v)
    case BlkHdr(level, k) =>
      if k == 1 && v == EndByte(1) then EndHdr(2)
      else if v != HeaderByte(k) as nat then DataError
      else if k < 6 then BlkHdr(level, k + 1) else BlkCrc(level, 1, 0)
    case BlkCrc(level, k, crc) =>
      if k < 4 then BlkCrc(level, k + 1, crc * 256 + v) else RandBit(level, crc * 256 + v)
    case RandBit(level, crc) => if v == 0 then OrigPtr(level, crc, 1, 0) else DataError
    case OrigPtr(level, crc, k, ptr) =>
      if k < 3 then OrigPtr(level, crc, k + 1, ptr * 256 + v)
      else if ptr * 256 + v > 10 + BLOCK_UNIT * level then DataError
      else Mapping1(Head(level, crc, ptr * 256 + v), [])
    case Mapping1(head, inUse16) =>
      var used := inUse16 + [v == 1];
      if |used| < 16 then Mapping1(head, used) else SkipRows(head, used, [])
    case Mapping2(head, inUse16, inUse) =>
      var used := inUse + [v == 1];
      if |used| % 16 != 0 then Mapping2(head, inUse16, used) else SkipRows(head, inUse16, used)
    case Selector1(head, inUse) => if 2 <= v <= 6 then Selector2(head, inUse, v) else DataError
    case Selector2(head, inUse, nGroups) => if v < 1 then DataError else Selector3(head, inUse, nGroups, v, [], 0)
    case Selector3(head, inUse, nGroups, nSelectors, selectorMtf, j) =>
      if v != 0 then if j + 1 >= nGroups then DataError
        else Selector3(head, inUse, nGroups, nSelectors, selectorMtf, j + 1)
      else if |selectorMtf| + 1 < nSelectors then Selector3(head, inUse, nGroups, nSelectors, selectorMtf + [j], 0)
      else Coding1(Desc(head, inUse, nGroups, UndoSelectors(Groups(nGroups), selectorMtf + [j], 0)), [])
    case Coding1(desc, len) => NextLength(desc, len, [], v)
    case Coding2(desc, len, row, curr) =>
      if v == 0 then NextLength(desc, len, row + [curr as nat], curr) else Coding3(desc, len, row, curr)
    case Coding3(desc, len, row, curr) => NextLength(desc, len, row, if v == 0 then curr + 1 else curr - 1)
    case Mtf(desc, tables, groupNo, groupPos, f, zn, zvec, undo) =>
      OnCode(desc, tables, groupNo, groupPos, zn, if f then v else 2 * zvec + v, undo)
    case EndHdr(k) =>
      if v != EndByte(k) as nat then DataError else if k < 6 then EndHdr(k + 1) else CombCrc(1, 0)
    case CombCrc(k, crc) =>
      if k < 4 then CombCrc(k + 1, crc * 256 + v) else StreamEnd(crc * 256 + v)
  }

  lemma {:induction false} UsedPositive(inUse: seq<bool>, v: nat)
    requires v <= |inUse| && Used(inUse, v) > 0
    ensures exists x :: 0 <= x < v && inUse[x]
  {
    if !inUse[v - 1] { UsedPositive(inUse, v - 1); }
  }

  lemma {:induction false} SkipRowsOk(head: Head, inUse16: seq<bool>, inUse: seq<bool>)
    requires |inUse16| == 16 && |inUse| % 16 == 0 && |inUse| <= 256
    ensures Ok(SkipRows(head, inUse16, inUse))
    decreases 256 - |inUse|
  {
    if |inUse| < 256 && !inUse16[|inUse| / 16] { SkipRowsOk(head, inUse16, inUse + Falses(16)); }
  }

  lemma {:induction false} UndoSelectorsBound(pos: seq<nat>, selectorMtf: seq<nat>, i: nat, n: nat)
    requires i <= |selectorMtf| && (forall x :: 0 <= x < |selectorMtf| ==> selectorMtf[x] < |pos|)
    requires forall x :: 0 <= x < |pos| ==> pos[x] < n
    ensures forall x :: 0 <= x < |selectorMtf| - i ==> UndoSelectors(pos, selectorMtf, i)[x] < n
    decreases |selectorMtf| - i
  {
    if i < |selectorMtf| {
      var r := MoveSel(pos, selectorMtf[i]);
      assert forall x :: 0 <= x < |r| ==> r[x] < n;
      UndoSelectorsBound(r, selectorMtf, i + 1, n);
    }
  }

  lemma {:induction false} NextLengthOk(d: Desc, len: seq<seq<nat>>, row: seq<nat>, curr: int)
    requires DescOk(d) && RowsOk(d, len, row)
    ensures Ok(NextLength(d, len, row, curr))
  {
    if |row| == AlphaSize(d) && |len| + 1 == d.nGroups {
      var all := len + [row];
      forall t | 0 <= t < |all| ensures 1 <= TablesOf(all[t]).minLen <= LONGEST_CODE {
        TablesOfFor(all[t]);
      }
    }
  }

  lemma {:induction false} OnCodeOk(d: Desc, tables: seq<Tables>, groupNo: nat, groupPos: nat, zn: nat, zvec: nat,
                                    undo: Undo)
    requires DescOk(d) && |tables| == d.nGroups && FullTables(tables) && groupNo < |d.selector|
    requires 1 <= zn <= LONGEST_CODE + 1 && Ready(undo, SeqToUnseq(d.inUse))
    ensures Ok(OnCode(d, tables, groupNo, groupPos, zn, zvec, undo))
  {
    hide Feed, Ready;
  }

  lemma {:induction false} AddRow(d: Desc, len: seq<seq<nat>>, row: seq<nat>, curr: int)
    requires DescOk(d) && RowsOk(d, len, row) && |row| < AlphaSize(d) && 1 <= curr <= LONGEST_CODE
    ensures RowsOk(d, len, row + [curr as nat])
  {
  }

  lemma {:induction false} LastSelector(nGroups: nat, selectorMtf: seq<nat>, head: Head, inUse: seq<bool>)
    requires 2 <= nGroups <= 6 && |inUse| == 256 && selectorMtf != []
    requires forall i :: 0 <= i < |selectorMtf| ==> selectorMtf[i] < nGroups
    ensures var d := Desc(head, inUse, nGroups, UndoSelectors(Groups(nGroups), selectorMtf, 0));
      DescOk(d) && RowsOk(d, [], [])
  {
    UndoSelectorsBound(Groups(nGroups), selectorMtf, 0, nGroups);
  }

  lemma {:induction false} NextOkHeader(s: State, v: nat)
    requires Ok(s) && (s.Magic? || s.BlkHdr? || s.BlkCrc? || s.RandBit? || s.OrigPtr? || s.EndHdr? || s.CombCrc?)
    ensures Ok(Next(s, v))
  {
    hide HeaderByte, EndByte;
  }

  lemma {:induction false} NextOkSelector(s: State, v: nat)
    requires Ok(s) && (s.Selector1? || s.Selector2? || s.Selector3?)
    ensures Ok(Next(s, v))
  {
    if s.Selector3? {
      hide UndoSelectors;
      LastSelector(s.nGroups, s.selectorMtf + [s.j], s.head, s.inUse);
      hide DescOk, RowsOk;
    }
  }

  /** The invariant of the saved variables. */
  lemma {:induction false} NextOk(s: State, v: nat)
    requires Ok(s) && !Final(s) && v < Pow2(Need(s))
    ensures Ok(Next(s, v))
  {
    hide SkipRows, NextLength, OnCode, UndoSelectors, Pow2, LengthsOk, FullTables, Ready;
    match s
    case Mapping1(head, inUse16) =>
      if |inUse16| == 15 { SkipRowsOk(head, inUse16 + [v == 1], []); }
    case Mapping2(head, inUse16, inUse) =>
      if (|inUse| + 1) % 16 == 0 { SkipRowsOk(head, inUse16, inUse + [v == 1]); }
    case Selector1(_, _) => NextOkSelector(s, v);
    case Selector2(_, _, _) => NextOkSelector(s, v);
    case Selector3(_, _, _, _, _, _) => NextOkSelector(s, v);
    case Coding1(desc, len) => NextLengthOk(desc, len, [], v);
    case Coding2(desc, len, row, curr) =>
      AddRow(desc, len, row, curr);
      if v == 0 { NextLengthOk(desc, len, row + [curr as nat], curr); }
    case Coding3(desc, len, row, curr) => NextLengthOk(desc, len, row, if v == 0 then curr + 1 else curr - 1);
    case Mtf(desc, tables, groupNo, groupPos, f, zn, zvec, undo) =>
      OnCodeOk(desc, tables, groupNo, groupPos, zn, if f then v else 2 * zvec + v, undo);
    case _ => NextOkHeader(s, v);
  }

  /** The selectors announced have room in the arrays selectorMtf and selector. */
  predicate SelectorsFit(s: State) {
    s.Selector3? ==> s.nSelectors <= MAX_SELECTORS
  }

  lemma {:induction false} RowsNext(head: Head, inUse16: seq<bool>, inUse: seq<bool>)
    requires |inUse16| == 16 && |inUse| % 16 == 0
    ensures !SkipRows(head, inUse16, inUse).Selector3?
    decreases 256 - |inUse|
  {
    if |inUse| < 256 && !inUse16[|inUse| / 16] { RowsNext(head, inUse16, inUse + Falses(16)); }
  }

  /** They go on fitting unless more are announced: the C code has no test for it, and its encoder never does it. */
  lemma {:induction false} SelectorsGoOn(s: State, v: nat)
    requires Ok(s) && !Final(s) && SelectorsFit(s)
    ensures SelectorsFit(Next(s, v)) <==> !(s.Selector2? && v > MAX_SELECTORS)
    ensures s.Selector3? && s.nSelectors <= MAX_SELECTORS ==> |s.selectorMtf| < MAX_SELECTORS
  {
    hide SkipRows, Look, TablesOfAll, Feed, UndoSelectors, FullTables, Ready, LengthsOk, SeqToUnseq, HeaderByte,
      EndByte;
    match s
    case Mapping1(head, inUse16) =>
      if |inUse16| == 15 { RowsNext(head, inUse16 + [v == 1], []); }
    case Mapping2(head, inUse16, inUse) =>
      if (|inUse| + 1) % 16 == 0 { RowsNext(head, inUse16, inUse + [v == 1]); }
    case _ =>
  }

  /** Running on a supply of bits for as long as there are enough. */
  function Exec(s: State, bits: seq<bit>): (State, seq<bit>)
    requires Ok(s)
    decreases |bits|
  {
    if Final(s) || |bits| < Need(s) then (s, bits)
    else
      var n := Need(s);
      NextOk(s, Value(bits[..n]));
      Exec(Next(s, Value(bits[..n])), bits[n..])
  }

  lemma {:induction false} ExecOk(s: State, bits: seq<bit>)
    requires Ok(s)
    ensures Ok(Exec(s, bits).0)
    decreases |bits|
  {
    if !Final(s) && |bits| >= Need(s) {
      var n := Need(s);
      NextOk(s, Value(bits[..n]));
      ExecOk(Next(s, Value(bits[..n])), bits[n..]);
    }
  }

  /** One GET_BITS that can be served. */
  lemma {:induction false} ExecStep(s: State, v: nat, rest: seq<bit>)
    requires Ok(s) && !Final(s) && v < Pow2(Need(s))
    ensures Ok(Next(s, v)) && Exec(s, BitsOf(v, Need(s)) + rest) == Exec(Next(s, v), rest)
  {
    var n := Need(s);
    var bits := BitsOf(v, n) + rest;
    assert bits[..n] == BitsOf(v, n) && bits[n..] == rest;
    ValueOfBits(v, n);
    NextOk(s, v);
  }

  /** Bits that arrive later are used as if they had been there from the start. */
  lemma {:induction false} ExecResumes(s: State, a: seq<bit>, b: seq<bit>)
    requires Ok(s)
    ensures Ok(Exec(s, a).0) && Exec(s, a + b) == Exec(Exec(s, a).0, Exec(s, a).1 + b)
    decreases |a|
  {
    if !Final(s) && |a| >= Need(s) {
      var n := Need(s);
      NextOk(s, Value(a[..n]));
      assert (a + b)[..n] == a[..n] && (a + b)[n..] == a[n..] + b;
      ExecResumes(Next(s, Value(a[..n])), a[n..], b);
    }
  }

  /** Block sizes are in range, and a block to be output fits its size. */
  predicate LevelOk(s: State) {
    match s
    case BlkHdr(level, _) => 1 <= level <= 9
    case BlkCrc(level, _, _) => 1 <= level <= 9
    case RandBit(level, _) => 1 <= level <= 9
    case OrigPtr(level, _, _, _) => 1 <= level <= 9
    case Mapping1(head, _) => 1 <= head.level <= 9
    case Mapping2(head, _, _) => 1 <= head.level <= 9
    case Selector1(head, _) => 1 <= head.level <= 9
    case Selector2(head, _, _) => 1 <= head.level <= 9
    case Selector3(head, _, _, _, _, _) => 1 <= head.level <= 9
    case Coding1(desc, _) => 1 <= desc.head.level <= 9
    case Coding2(desc, _, _, _) => 1 <= desc.head.level <= 9
    case Coding3(desc, _, _, _) => 1 <= desc.head.level <= 9
    case Mtf(desc, _, _, _, _, _, _, _) => 1 <= desc.head.level <= 9
    case Output(block) =>
      1 <= block.head.level <= 9 && block.head.origPtr < |block.column| <= BLOCK_UNIT * block.head.level
    case _ => true
  }

  lemma {:induction false} SkipRowsLevel(head: Head, inUse16: seq<bool>, inUse: seq<bool>)
    requires |inUse16| == 16 && |inUse| % 16 == 0 && 1 <= head.level <= 9
    ensures LevelOk(SkipRows(head, inUse16, inUse))
    decreases 256 - |inUse|
  {
    if |inUse| < 256 && !inUse16[|inUse| / 16] { SkipRowsLevel(head, inUse16, inUse + Falses(16)); }
  }

  lemma {:induction false} OnCodeLevel(d: Desc, tables: seq<Tables>, groupNo: nat, groupPos: nat, zn: nat, zvec: nat,
                                       undo: Undo)
    requires DescOk(d) && |tables| == d.nGroups && FullTables(tables) && groupNo < |d.selector|
      && 1 <= d.head.level <= 9
    requires Ready(undo, SeqToUnseq(d.inUse))
    ensures LevelOk(OnCode(d, tables, groupNo, groupPos, zn, zvec, undo))
  {
    hide Ready, Look, FullTables;
  }

  lemma {:induction false} NextLevel(s: State, v: nat)
    requires Ok(s) && !Final(s) && LevelOk(s)
    ensures LevelOk(Next(s, v))
  {
    hide OnCode, SkipRows, Ready, FullTables, RowsOk, TablesOfAll, UndoSelectors, HeaderByte, EndByte;
    match s
    case Mapping1(head, inUse16) =>
      if |inUse16| == 15 { SkipRowsLevel(head, inUse16 + [v == 1], []); }
    case Mapping2(head, inUse16, inUse) =>
      if (|inUse| + 1) % 16 == 0 { SkipRowsLevel(head, inUse16, inUse + [v == 1]); }
    case Mtf(desc, tables, groupNo, groupPos, f, zn, zvec, undo) =>
      OnCodeLevel(desc, tables, groupNo, groupPos, zn, if f then v else 2 * zvec + v, undo);
    case _ =>
  }

  lemma {:induction false} ExecLevel(s: State, bits: seq<bit>)
    requires Ok(s) && LevelOk(s)
    ensures LevelOk(Exec(s, bits).0)
    decreases |bits|
  {
    hide LevelOk, Next;
    if !Final(s) && |bits| >= Need(s) {
      var n := Need(s);
      NextOk(s, Value(bits[..n]));
      NextLevel(s, Value(bits[..n]));
      ExecLevel(Next(s, Value(bits[..n])), bits[n..]);
    }
  }

  // ----- suspending and resuming

  function Flatten(chunks: seq<seq<byte>>, k: nat): seq<byte>
    requires k <= |chunks|
  {
    if k == 0 then [] else Flatten(chunks, k - 1) + chunks[k - 1]
  }

  lemma {:induction false} ExecShort(s: State, bits: seq<bit>)
    requires Ok(s) && |bits| < Need(s)
    ensures Exec(s, bits) == (s, bits)
  {
  }

  lemma {:induction false} ExecFinal(s: State, bits: seq<bit>)
    requires Ok(s) && Final(s)
    ensures Exec(s, bits) == (s, bits)
  {
  }

  lemma {:induction false} ExecNothing(s: State)
    requires Ok(s)
    ensures ByteBits([]) == [] && Exec(s, []) == (s, [])
  {
  }
}
