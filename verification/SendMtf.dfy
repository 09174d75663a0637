/** The writing half of sendMTFValues and the block header of BZ2_compressBlock. */
module SendMtf {
  import opened Bytes
  import opened Powers
  import opened BitStream
  import opened CanonicalCodes
  import opened DecodeTables
  import opened MtfEncoder
  import opened DecodeMachine
  import opened WireFormat
  import opened BlockFormat

  /** What was written, put in front of any bits that may follow. */
  lemma {:induction false} Appended(old0: seq<bit>, x: seq<bit>, rest: seq<bit>)
    ensures old0 + x + rest == old0 + (x + rest)
  {
  }

  /** bsPutUChar. */
  method PutByte(w: BitWriter, c: byte, ghost rest: seq<bit>)
    requires w.Valid()
    modifies w
    ensures w.Valid() && w.Stream() + rest == old(w.Stream()) + ByteThen(c, rest)
  {
    Pow2Values();
    ghost var s0 := w.Stream();
    w.Write(8, c);
    Appended(s0, BitsOf(c, 8), rest);
  }

  /** bsPutUInt32. */
  method PutWord(w: BitWriter, u: nat, ghost rest: seq<bit>)
    requires w.Valid() && u < 0x1_0000_0000
    modifies w
    ensures w.Valid() && w.Stream() + rest == old(w.Stream()) + WordThen(u, rest)
  {
    hide Shr, Low;
    FourBytes(u);
    PutByte(w, Low(Shr(u, 24), 8),
            ByteThen(Low(Shr(u, 16), 8), ByteThen(Low(Shr(u, 8), 8), ByteThen(Low(u, 8), rest))));
    PutByte(w, Low(Shr(u, 16), 8), ByteThen(Low(Shr(u, 8), 8), ByteThen(Low(u, 8), rest)));
    PutByte(w, Low(Shr(u, 8), 8), ByteThen(Low(u, 8), rest));
    PutByte(w, Low(u, 8), rest);
  }

  method PutBits(w: BitWriter, n: nat, v: nat, ghost rest: seq<bit>)
    requires w.Valid() && n <= 25 && v < Pow2(n)
    modifies w
    ensures w.Valid() && w.Stream() + rest == old(w.Stream()) + (BitsOf(v, n) + rest)
  {
    ghost var s0 := w.Stream();
    w.Write(n, v);
    Appended(s0, BitsOf(v, n), rest);
  }

  // ----- the mapping table

  method UsedRow(inUse: array<bool>, i: nat) returns (used: bool)
    requires inUse.Length == 256 && i < 16
    ensures used == RowUsed(inUse[..], i, 0)
  {
    used := false;
    var j := 0;
    while j < 16
      invariant 0 <= j <= 16 && RowUsed(inUse[..], i, 0) == (used || RowUsed(inUse[..], i, j))
    {
      if inUse[i * 16 + j] { used := true; }
      j := j + 1;
    }
  }

  method SendMapping(w: BitWriter, inUse: array<bool>, ghost rest: seq<bit>)
    requires w.Valid() && inUse.Length == 256
    modifies w
    ensures w.Valid()
    ensures w.Stream() + rest == old(w.Stream()) + RowFlags(inUse[..], 0, ByteFlags(inUse[..], 0, rest))
  {
    hide *;
    ghost var used, s0 := inUse[..], w.Stream();
    ghost var bytes := ByteFlags(used, 0, rest);
    var inUse16 := new bool[16];
    var i: nat := 0;
    while i < 16
      invariant i <= 16 && forall k :: 0 <= k < i ==> inUse16[k] == RowUsed(used, k, 0)
      modifies inUse16
    {
      inUse16[i] := UsedRow(inUse, i);
      i := i + 1;
    }
    i := 0;
    while i < 16
      invariant i <= 16 && w.Valid() && w.Stream() + RowFlags(used, i, bytes) == s0 + RowFlags(used, 0, bytes)
      modifies w
    {
      RowFlagsStep(used, i, bytes);
      PutBits(w, 1, if inUse16[i] then 1 else 0, RowFlags(used, i + 1, bytes));
      i := i + 1;
    }
    RowFlagsEnd(used, bytes, rest);
    i := 0;
    while i < 16
      invariant i <= 16 && w.Valid() && w.Stream() + ByteFlags(used, 16 * i, rest) == s0 + RowFlags(used, 0, bytes)
      modifies w
    {
      if inUse16[i] { SendRow(w, inUse, i, rest); } else { SkippedRow(used, i, rest); }
      i := i + 1;
    }
  }

  lemma {:induction false} RowFlagsStep(used: seq<bool>, i: nat, rest: seq<bit>)
    requires |used| == 256 && i < 16
    ensures RowFlags(used, i, rest) == BitsOf(if RowUsed(used, i, 0) then 1 else 0, 1) + RowFlags(used, i + 1, rest)
    ensures 1 < Pow2(1)
  {
  }

  lemma {:induction false} RowFlagsEnd(used: seq<bool>, bytes: seq<bit>, rest: seq<bit>)
    requires |used| == 256
    ensures RowFlags(used, 16, bytes) == bytes && ByteFlags(used, 256, rest) == rest
  {
  }

  lemma {:induction false} SkippedRow(used: seq<bool>, i: nat, rest: seq<bit>)
    requires |used| == 256 && i < 16 && !RowUsed(used, i, 0)
    ensures ByteFlags(used, 16 * i, rest) == ByteFlags(used, 16 * (i + 1), rest)
  {
    hide RowUsed;
  }

  lemma {:induction false} UsedRowStep(used: seq<bool>, i: nat, j: nat, rest: seq<bit>)
    requires |used| == 256 && i < 16 && j < 16 && RowUsed(used, i, 0)
    ensures ByteFlags(used, 16 * i + j, rest)
      == BitsOf(if used[16 * i + j] then 1 else 0, 1) + ByteFlags(used, 16 * i + j + 1, rest)
    ensures 1 < Pow2(1)
  {
    hide RowUsed;
  }

  method SendRow(w: BitWriter, inUse: array<bool>, i: nat, ghost rest: seq<bit>)
    requires w.Valid() && inUse.Length == 256 && i < 16 && RowUsed(inUse[..], i, 0)
    modifies w
    ensures w.Valid()
    ensures w.Stream() + ByteFlags(inUse[..], 16 * (i + 1), rest)
      == old(w.Stream()) + ByteFlags(inUse[..], 16 * i, rest)
  {
    hide *;
    ghost var used := inUse[..];
    var j: nat := 0;
    while j < 16
      invariant j <= 16 && w.Valid()
      invariant w.Stream() + ByteFlags(used, 16 * i + j, rest) == old(w.Stream()) + ByteFlags(used, 16 * i, rest)
    {
      UsedRowStep(used, i, j, rest);
      PutBits(w, 1, if inUse[16 * i + j] then 1 else 0, ByteFlags(used, 16 * i + j + 1, rest));
      j := j + 1;
    }
  }

  // ----- the selectors

  /** Finds v in pos, which lists it, and moves it to the front on the way. */
  method MoveSelector(pos: array<nat>, v: nat) returns (j: nat)
    requires v in pos[..][0..]
    modifies pos
    ensures j == PosSel(old(pos[..]), v, 0) && pos[..] == MoveSel(old(pos[..]), j)
  {
    ghost var l := pos[..];
    ghost var p := PosSel(l, v, 0);
    assert forall x :: 0 <= x < p ==> l[0..p][x] == l[x] != v;
    j := 0;
    var tmp := pos[0];
    while v != tmp
      invariant 0 <= j <= p < pos.Length == |l| && tmp == l[j]
      invariant forall x :: 1 <= x <= j ==> pos[x] == l[x - 1]
      invariant forall x :: j < x < |l| ==> pos[x] == l[x]
      decreases p - j
    {
      j := j + 1;
      var tmp2 := tmp;
      tmp := pos[j];
      pos[j] := tmp2;
    }
    pos[0] := tmp;
    MoveSelIs(l, p, pos[..]);
  }

  lemma {:induction false} MoveSelIs(l: seq<nat>, p: nat, r: seq<nat>)
    requires p < |l| == |r| && r[0] == l[p]
    requires (forall x :: 1 <= x <= p ==> r[x] == l[x - 1]) && (forall x :: p < x < |l| ==> r[x] == l[x])
    ensures r == MoveSel(l, p)
  {
  }

  /** The move-to-front positions of the selectors. */
  method SelectorPositions(selector: seq<nat>, nGroups: nat) returns (selectorMtf: seq<nat>)
    requires forall g :: 0 <= g < |selector| ==> selector[g] < nGroups
    ensures Lists(Groups(nGroups), nGroups) && selectorMtf == SelectorMtf(Groups(nGroups), selector, 0, nGroups)
  {
    var pos := new nat[nGroups](i => i);
    assert pos[..] == Groups(nGroups);
    GroupsList(nGroups);
    ghost var all := SelectorMtf(Groups(nGroups), selector, 0, nGroups);
    selectorMtf := [];
    var i := 0;
    while i < |selector|
      invariant 0 <= i <= |selector| && pos.Length == nGroups && Lists(pos[..], nGroups)
      invariant selectorMtf + SelectorMtf(pos[..], selector, i, nGroups) == all
    {
      ghost var l := pos[..];
      var j := MoveSelector(pos, selector[i]);
      MoveSelLists(l, nGroups, j);
      selectorMtf := selectorMtf + [j];
      i := i + 1;
    }
  }

  method SendSelectors(w: BitWriter, nGroups: nat, selector: seq<nat>, ghost rest: seq<bit>)
    requires w.Valid() && 2 <= nGroups <= 6 && |selector| < 0x8000
    requires forall g :: 0 <= g < |selector| ==> selector[g] < nGroups
    modifies w
    ensures w.Valid() && Lists(Groups(nGroups), nGroups)
    ensures w.Stream() + rest == old(w.Stream()) + (BitsOf(nGroups, 3) + (BitsOf(|selector|, 15)
      + SelectorBits(SelectorMtf(Groups(nGroups), selector, 0, nGroups), 0, rest)))
  {
    var m := SelectorPositions(selector, nGroups);
    Pow2Values();
    PutBits(w, 3, nGroups, BitsOf(|selector|, 15) + SelectorBits(m, 0, rest));
    PutBits(w, 15, |selector|, SelectorBits(m, 0, rest));
    ghost var s0 := w.Stream();
    var i := 0;
    while i < |m|
      invariant 0 <= i <= |m| && w.Valid() && w.Stream() + SelectorBits(m, i, rest) == s0 + SelectorBits(m, 0, rest)
    {
      SendUnary(w, m[i], SelectorBits(m, i + 1, rest));
      i := i + 1;
    }
  }

  method SendUnary(w: BitWriter, k: nat, ghost rest: seq<bit>)
    requires w.Valid()
    modifies w
    ensures w.Valid() && w.Stream() + rest == old(w.Stream()) + Unary(k, rest)
  {
    Pow2Values();
    var j := 0;
    while j < k
      invariant 0 <= j <= k && w.Valid() && w.Stream() + Unary(k - j, rest) == old(w.Stream()) + Unary(k, rest)
    {
      PutBits(w, 1, 1, Unary(k - j - 1, rest));
      j := j + 1;
    }
    PutBits(w, 1, 0, rest);
  }

  // ----- the coding tables

  method SendTable(w: BitWriter, row: seq<nat>, ghost rest: seq<bit>)
    requires w.Valid() && row != [] && LengthsOk(row)
    modifies w
    ensures w.Valid() && w.Stream() + rest == old(w.Stream()) + (BitsOf(row[0], 5) + Deltas(row, 0, row[0], rest))
  {
    Pow2Values();
    var curr := row[0];
    PutBits(w, 5, curr, Deltas(row, 0, row[0], rest));
    ghost var s0 := w.Stream();
    var i := 0;
    while i < |row|
      invariant 0 <= i <= |row| && w.Valid()
        && w.Stream() + Deltas(row, i, curr, rest) == s0 + Deltas(row, 0, row[0], rest)
    {
      curr := SendLength(w, row, i, curr, rest);
      i := i + 1;
    }
  }

  method SendLength(w: BitWriter, row: seq<nat>, i: nat, curr0: nat, ghost rest: seq<bit>) returns (curr: nat)
    requires w.Valid() && i < |row|
    modifies w
    ensures w.Valid() && w.Stream() + Deltas(row, i + 1, curr, rest) == old(w.Stream()) + Deltas(row, i, curr0, rest)
  {
    hide *;
    curr := SendUp(w, row, i, curr0, rest);
    ghost var s1, curr1 := w.Stream(), curr;
    while curr > row[i]
      invariant curr >= row[i] && w.Valid()
        && w.Stream() + Deltas(row, i, curr, rest) == s1 + Deltas(row, i, curr1, rest)
    {
      DeltasStep(row, i, curr, rest);
      PutBits(w, 2, 3, Deltas(row, i, curr - 1, rest));
      curr := curr - 1;
    }
    DeltasStep(row, i, curr, rest);
    PutBits(w, 1, 0, Deltas(row, i + 1, curr, rest));
  }

  method SendUp(w: BitWriter, row: seq<nat>, i: nat, curr0: nat, ghost rest: seq<bit>) returns (curr: nat)
    requires w.Valid() && i < |row|
    modifies w
    ensures w.Valid() && curr >= row[i]
      && w.Stream() + Deltas(row, i, curr, rest) == old(w.Stream()) + Deltas(row, i, curr0, rest)
  {
    hide *;
    curr := curr0;
    while curr < row[i]
      invariant w.Valid() && w.Stream() + Deltas(row, i, curr, rest) == old(w.Stream()) + Deltas(row, i, curr0, rest)
    {
      DeltasStep(row, i, curr, rest);
      PutBits(w, 2, 2, Deltas(row, i, curr + 1, rest));
      curr := curr + 1;
    }
  }

  lemma {:induction false} DeltasStep(row: seq<nat>, i: nat, curr: nat, rest: seq<bit>)
    requires i < |row|
    ensures curr < row[i] ==> Deltas(row, i, curr, rest) == BitsOf(2, 2) + Deltas(row, i, curr + 1, rest)
    ensures curr > row[i] ==> Deltas(row, i, curr, rest) == BitsOf(3, 2) + Deltas(row, i, curr - 1, rest)
    ensures curr == row[i] ==> Deltas(row, i, curr, rest) == BitsOf(0, 1) + Deltas(row, i + 1, curr, rest)
    ensures 0 < Pow2(1) && 2 < Pow2(2) && 3 < Pow2(2)
  {
    assert Pow2(2) == 2 * Pow2(1);
  }

  method SendTables(w: BitWriter, len: seq<seq<nat>>, ghost rest: seq<bit>)
    requires w.Valid() && forall t :: 0 <= t < |len| ==> len[t] != [] && LengthsOk(len[t])
    modifies w
    ensures w.Valid() && w.Stream() + rest == old(w.Stream()) + TableBits(len, 0, rest)
  {
    var t := 0;
    while t < |len|
      invariant 0 <= t <= |len| && w.Valid()
        && w.Stream() + TableBits(len, t, rest) == old(w.Stream()) + TableBits(len, 0, rest)
    {
      SendTable(w, len[t], TableBits(len, t + 1, rest));
      t := t + 1;
    }
  }

  // ----- the block data

  ghost predicate CarriesSymbols(mtfv: seq<u16>, syms: seq<nat>) {
    |syms| <= |mtfv| && forall i {:trigger syms[i]} :: 0 <= i < |syms| ==> mtfv[i] == syms[i]
  }

  /** Codes for all tables. */
  ghost predicate CodesOf(code: seq<seq<nat>>, len: seq<seq<nat>>) {
    |code| == |len| && forall t {:trigger code[t]} :: 0 <= t < |len| ==>
      |code[t]| >= |len[t]| && forall i :: 0 <= i < |len[t]| ==> code[t][i] == CodeOf(len[t], i)
  }

  method AssignAllCodes(len: seq<seq<nat>>) returns (code: seq<seq<nat>>)
    requires forall t :: 0 <= t < |len| ==> len[t] != [] && LengthsOk(len[t])
    ensures CodesOf(code, len)
  {
    code := [];
    var t := 0;
    while t < |len|
      invariant 0 <= t <= |len| && CodesOf(code, len[..t])
    {
      var minLen, maxLen := LengthRange(len[t]);
      LengthsWithin(len[t], |len[t]|, 1, LONGEST_CODE);
      assert minLen <= len[t][0] <= maxLen;
      var c := new nat[|len[t]|];
      AssignCodes(c, len[t], minLen, maxLen);
      code := code + [c[..]];
      t := t + 1;
    }
    assert len[..|len|] == len;
  }

  /** One group of up to 50 symbols, all with the table that the selector names. */
  method SendGroup(w: BitWriter, mtfv: array<u16>, gs: nat, ge: nat, g: nat, code: seq<seq<nat>>, len: seq<seq<nat>>,
                   ghost syms: seq<nat>, selector: seq<nat>, ghost rest: seq<bit>)
    requires w.Valid() && mtfv as object != w && CarriesSymbols(mtfv[..], syms) && DataFits(syms, selector, len)
      && CodesOf(code, len)
    requires gs == G_SIZE * g && gs <= ge < |syms| && ge < gs + G_SIZE && g < |selector|
    requires forall t :: 0 <= t < |len| ==> LengthsOk(len[t])
    modifies w
    ensures w.Valid()
    ensures w.Stream() + DataBits(syms, selector, len, ge + 1, rest)
      == old(w.Stream()) + DataBits(syms, selector, len, gs, rest)
  {
    var i := gs;
    while i <= ge
      invariant gs <= i <= ge + 1 && w.Valid()
      invariant w.Stream() + DataBits(syms, selector, len, i, rest)
        == old(w.Stream()) + DataBits(syms, selector, len, gs, rest)
    {
      assert i / 50 == g;
      DataAt(syms, selector, len, i);
      DataBitsStep(syms, selector, len, i, rest);
      assert mtfv[..][i] == syms[i];
      var t := selector[g];
      var row := len[t];
      assert code[t][syms[i]] == CodeOf(row, syms[i]);
      PutBits(w, row[mtfv[i]], code[t][mtfv[i]], DataBits(syms, selector, len, i + 1, rest));
      i := i + 1;
    }
  }

  method SendData(w: BitWriter, mtfv: array<u16>, nMTF: nat, code: seq<seq<nat>>, len: seq<seq<nat>>,
                  ghost syms: seq<nat>, selector: seq<nat>, ghost rest: seq<bit>)
    requires w.Valid() && mtfv as object != w && CarriesSymbols(mtfv[..], syms) && nMTF == |syms|
    requires DataFits(syms, selector, len) && CodesOf(code, len) && forall t :: 0 <= t < |len| ==> LengthsOk(len[t])
    modifies w
    ensures w.Valid() && w.Stream() + rest == old(w.Stream()) + DataBits(syms, selector, len, 0, rest)
  {
    hide DataBits, DataFits, CodesOf, LengthsOk, CarriesSymbols;
    DataBitsEnd(syms, selector, len, rest);
    var selCtr, gs := 0, 0;
    while gs < nMTF
      invariant w.Valid() && selCtr >= 0 && 0 <= gs <= nMTF && (gs < nMTF ==> gs == G_SIZE * selCtr)
      invariant w.Stream() + DataBits(syms, selector, len, gs, rest)
        == old(w.Stream()) + DataBits(syms, selector, len, 0, rest)
      decreases nMTF - gs
    {
      var ge := gs + G_SIZE - 1;
      if ge >= nMTF { ge := nMTF - 1; }
      DataAt(syms, selector, len, gs);
      SendGroup(w, mtfv, gs, ge, selCtr, code, len, syms, selector, rest);
      gs := ge + 1;
      selCtr := selCtr + 1;
    }
  }

  // ----- the whole block

  lemma {:induction false} DescribedRows(d: Desc, selector: seq<nat>, len: seq<seq<nat>>, syms: seq<nat>,
                                         col: seq<byte>)
    requires Describes(d, selector, len, syms, col)
    ensures |d.inUse| == 256 && DataFits(syms, selector, len) && 2 <= |len| <= 6 && 1 <= |selector| < 0x8000
    ensures forall t :: 0 <= t < |len| ==> len[t] != [] && LengthsOk(len[t])
    ensures forall g :: 0 <= g < |selector| ==> selector[g] < |len|
    ensures d.head.origPtr < Pow2(24)
  {
    hide LengthsOk, DataFits, Data, Ends, Short;
    PlanLengths(selector, len, Used(d.inUse, 256) + 2, |syms|);
    DescribesData(d, selector, len, syms, col);
    Pow2Values();
  }

  /** What BZ2_compressBlock writes for a block, once sorted and with its tables chosen. */
  method SendBlock(w: BitWriter, crc: nat, origPtr: nat, inUse: array<bool>, mtfv: array<u16>, nMTF: nat,
                   selector: seq<nat>, len: seq<seq<nat>>,
                   ghost d: Desc, ghost syms: seq<nat>, ghost col: seq<byte>, ghost rest: seq<bit>)
    requires w.Valid() && inUse.Length == 256 && mtfv as object != w
    requires Describes(d, selector, len, syms, col) && d.inUse == inUse[..] && CarriesSymbols(mtfv[..], syms)
      && nMTF == |syms|
    requires d.head.crc == crc < 0x1_0000_0000 && d.head.origPtr == origPtr
    modifies w
    ensures w.Valid() && DataFits(syms, selector, len) && (forall t :: 0 <= t < |len| ==> len[t] != [])
    ensures forall g :: 0 <= g < |selector| ==> selector[g] < |len|
    ensures w.Stream() + rest == old(w.Stream()) + BlockBits(d.head, inUse[..], syms, selector, len, rest)
  {
    hide *;
    DescribedRows(d, selector, len, syms, col);
    ghost var data := DataBits(syms, selector, len, 0, rest);
    ghost var plan := PlanBits(syms, selector, len, rest);
    ghost var flags := ByteFlags(d.inUse, 0, plan);
    BlockBitsIs(d.head, d.inUse, syms, selector, len, rest);
    SendHeader(w, crc, origPtr, RowFlags(d.inUse, 0, flags));
    SendMapping(w, inUse, plan);
    PlanBitsIs(syms, selector, len, rest);
    SendSelectors(w, |len|, selector, TableBits(len, 0, data));
    SendTables(w, len, data);
    var code := AssignAllCodes(len);
    SendData(w, mtfv, nMTF, code, len, syms, selector, rest);
  }

  lemma {:induction false} BlockBitsIs(head: Head, inUse: seq<bool>, syms: seq<nat>, selector: seq<nat>,
                                       len: seq<seq<nat>>, rest: seq<bit>)
    requires |inUse| == 256 && DataFits(syms, selector, len) && (forall t :: 0 <= t < |len| ==> len[t] != [])
    requires forall g :: 0 <= g < |selector| ==> selector[g] < |len|
    ensures BlockBits(head, inUse, syms, selector, len, rest) ==
      HeaderThen(1, WordThen(head.crc, BitsOf(0, 1) + (BitsOf(head.origPtr, 24)
        + RowFlags(inUse, 0, ByteFlags(inUse, 0, PlanBits(syms, selector, len, rest))))))
  {
  }

  method SendHeader(w: BitWriter, crc: nat, origPtr: nat, ghost rest: seq<bit>)
    requires w.Valid() && crc < 0x1_0000_0000 && origPtr < Pow2(24)
    modifies w
    ensures w.Valid()
    ensures w.Stream() + rest
      == old(w.Stream()) + HeaderThen(1, WordThen(crc, BitsOf(0, 1) + (BitsOf(origPtr, 24) + rest)))
  {
    hide *;
    ghost var s0, rest1 := w.Stream(), WordThen(crc, BitsOf(0, 1) + (BitsOf(origPtr, 24) + rest));
    var k: nat := 1;
    HeaderEnd(rest1);
    Pow2Values();
    while k <= 6
      invariant 1 <= k <= 7 && w.Valid() && w.Stream() + HeaderThen(k, rest1) == s0 + HeaderThen(1, rest1)
    {
      HeaderStep(k, rest1);
      PutByte(w, HeaderByte(k), HeaderThen(k + 1, rest1));
      k := k + 1;
    }
    PutWord(w, crc, BitsOf(0, 1) + (BitsOf(origPtr, 24) + rest));
    PutBits(w, 1, 0, BitsOf(origPtr, 24) + rest);
    PutBits(w, 24, origPtr, rest);
  }

  lemma {:induction false} HeaderStep(k: nat, rest: seq<bit>)
    requires 1 <= k <= 6
    ensures HeaderThen(k, rest) == ByteThen(HeaderByte(k), HeaderThen(k + 1, rest))
  {
  }

  lemma {:induction false} HeaderEnd(rest: seq<bit>)
    ensures HeaderThen(7, rest) == rest && Pow2(1) == 2
  {
  }
}
