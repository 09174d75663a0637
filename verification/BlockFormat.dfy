/** The block data and the whole block: the decoding machine recovers the last column. */
module BlockFormat {
  import opened Bytes
  import opened Powers
  import opened KraftSums
  import opened BitStream
  import opened CanonicalCodes
  import opened DecodeTables
  import opened MoveToFront
  import opened MtfEncoder
  import opened DecodeMachine
  import opened WireFormat

  // ----- all coding tables

  /** The lengths of every table. */
  predicate AllTables(d: Desc, len: seq<seq<nat>>) {
    && DescOk(d) && |len| == d.nGroups
    && forall t :: 0 <= t < |len| ==> |len[t]| == AlphaSize(d) && LengthsOk(len[t])
  }

  lemma {:induction false} TableAt(d: Desc, len: seq<seq<nat>>, t: nat)
    requires AllTables(d, len) && t < |len|
    ensures RowsOk(d, len[..t], len[t]) && |len[t]| == AlphaSize(d) <= MAX_ALPHA_SIZE && AlphaSize(d) >= 2
    ensures 1 <= len[t][0] <= LONGEST_CODE && len[..t] + [len[t]] == len[..t + 1]
    ensures Ok(Coding1(d, len[..t])) && Need(Coding1(d, len[..t])) == 5
    ensures Next(Coding1(d, len[..t]), len[t][0]) == RowState(d, len[..t], len[t], 0, len[t][0])
  {
    assert len[t][..0] == [];
  }

  lemma {:induction false} RowDone(d: Desc, len: seq<seq<nat>>, t: nat)
    requires AllTables(d, len) && t < |len|
    ensures RowsOk(d, len[..t], len[t]) && |len[t]| == AlphaSize(d) > 0
    ensures forall x :: 0 <= x < |len| ==> |len[x]| <= MAX_ALPHA_SIZE
    ensures RowState(d, len[..t], len[t], |len[t]|, len[t][|len[t]| - 1]) ==
      if t + 1 < |len| then Coding1(d, len[..t + 1]) else FirstSymbol(d, TablesOfAll(len))
  {
    hide TablesOfAll, FirstSymbol;
    assert len[..t] + [len[t]] == len[..t + 1] && len[..|len|] == len && len[t][..|len[t]|] == len[t];
  }

  lemma {:induction false} ExecTables(d: Desc, len: seq<seq<nat>>, t: nat, rest: seq<bit>)
    requires AllTables(d, len) && t < |len|
    ensures forall x :: 0 <= x < |len| ==> 0 < |len[x]| <= MAX_ALPHA_SIZE
    ensures Ok(Coding1(d, len[..t])) && Ok(FirstSymbol(d, TablesOfAll(len)))
    ensures Exec(Coding1(d, len[..t]), TableBits(len, t, rest)) == Exec(FirstSymbol(d, TablesOfAll(len)), rest)
    decreases |len| - t
  {
    forall x | 0 <= x < |len| ensures 0 < |len[x]| <= MAX_ALPHA_SIZE { TableAt(d, len, x); }
    TableAt(d, len, t);
    RowDone(d, len, t);
    assert DescOk(d)
      && TableBits(len, t, rest) == BitsOf(len[t][0], 5) + Deltas(len[t], 0, len[t][0], TableBits(len, t + 1, rest));
    hide *;
    Pow2Values();
    var next := TableBits(len, t + 1, rest);
    CodingNotFinal(d, len[..t]);
    LongestIs();
    ExecStep(Coding1(d, len[..t]), len[t][0], Deltas(len[t], 0, len[t][0], next));
    ExecDeltas(d, len[..t], len[t], 0, len[t][0], next);
    if t + 1 < |len| {
      ExecTables(d, len, t + 1, rest);
    } else {
      TableBitsEnd(len, rest);
    }
  }

  lemma {:induction false} CodingNotFinal(d: Desc, len: seq<seq<nat>>)
    ensures !Final(Coding1(d, len))
  {
  }

  lemma {:induction false} LongestIs()
    ensures LONGEST_CODE == 20 && MAX_ALPHA_SIZE == 258 && G_SIZE == 50
  {
  }

  lemma {:induction false} TableBitsEnd(len: seq<seq<nat>>, rest: seq<bit>)
    requires forall x :: 0 <= x < |len| ==> len[x] != []
    ensures TableBits(len, |len|, rest) == rest
  {
  }

  // ----- one symbol

  /** Group g of the block is being read. */
  ghost predicate Reading(d: Desc, tables: seq<Tables>, g: nat, u: Undo) {
    && DescOk(d) && |tables| == d.nGroups && FullTables(tables) && g < |d.selector| && d.selector[g] < |tables|
    && Ready(u, SeqToUnseq(d.inUse))
  }

  /** The lengths of its table. */
  ghost predicate ReadingWith(d: Desc, tables: seq<Tables>, g: nat, u: Undo, row: seq<nat>, maxLen: nat, sym: nat) {
    Reading(d, tables, g, u) && TablesFor(tables[d.selector[g]], row, maxLen) && sym < |row|
  }

  lemma {:induction false} MtfFacts(d: Desc, tables: seq<Tables>, g: nat, pos: nat, f: bool, zn: nat, zvec: nat,
                                    u: Undo, v: nat)
    requires Reading(d, tables, g, u) && 1 <= zn <= LONGEST_CODE + 1
    ensures DescOk(d) && g < |d.selector| && d.selector[g] < |tables| && FullTables(tables)
      && Ready(u, SeqToUnseq(d.inUse))
    ensures var s := Mtf(d, tables, g, pos, f, zn, zvec, u);
      && Ok(s) && !Final(s) && Need(s) == (if f then zn else 1)
      && Next(s, v) == OnCode(d, tables, g, pos, zn, if f then v else 2 * zvec + v, u)
    ensures Ok(OnCode(d, tables, g, pos, zn, v, u))
  {
    OnCodeOk(d, tables, g, pos, zn, v, u);
  }

  /** What the lookup does with n bits of a code. */
  lemma {:induction false} LookFacts(d: Desc, tables: seq<Tables>, g: nat, pos: nat, u: Undo, row: seq<nat>,
                                     maxLen: nat, sym: nat, n: nat)
    requires ReadingWith(d, tables, g, u, row, maxLen, sym)
    requires g < |d.selector| && d.selector[g] < |tables| && tables[d.selector[g]].minLen <= n <= row[sym]
    ensures DescOk(d) && FullTables(tables) && Ready(u, SeqToUnseq(d.inUse))
    ensures 1 <= n <= LONGEST_CODE
    ensures var zvec := Shr(CodeOf(row, sym), row[sym] - n);
      OnCode(d, tables, g, pos, n, zvec, u) ==
      if n < row[sym] then Mtf(d, tables, g, pos, false, n + 1, zvec, u) else OnSymbol(d, tables, g, pos, u, sym)
  {
    hide Look;
    hide OnSymbol, CodeOf, Shr, Ready;
    LookFinds(tables[d.selector[g]], row, maxLen, sym, n);
    assert row[sym] <= maxLen <= LONGEST_CODE && tables[d.selector[g]].minLen >= 1;
  }

  lemma {:induction false} ReadingOpen(d: Desc, tables: seq<Tables>, g: nat, u: Undo, row: seq<nat>, maxLen: nat,
                                       sym: nat)
    requires ReadingWith(d, tables, g, u, row, maxLen, sym)
    ensures Reading(d, tables, g, u) && g < |d.selector| && d.selector[g] < |tables| && sym < |row|
    ensures DescOk(d) && FullTables(tables) && Ready(u, SeqToUnseq(d.inUse)) && |d.inUse| == 256
    ensures 1 <= tables[d.selector[g]].minLen <= row[sym] <= LONGEST_CODE
    ensures |tables[d.selector[g]].limit| > LONGEST_CODE
  {
  }

  /** The machine at a symbol whose first n code bits have been read. */
  lemma {:induction false} ExecCodeTail(d: Desc, tables: seq<Tables>, g: nat, pos: nat, u: Undo, row: seq<nat>,
                                        maxLen: nat, sym: nat, n: nat, rest: seq<bit>)
    requires ReadingWith(d, tables, g, u, row, maxLen, sym)
    requires g < |d.selector| && d.selector[g] < |tables| && tables[d.selector[g]].minLen <= n <= row[sym]
    ensures DescOk(d) && FullTables(tables) && Ready(u, SeqToUnseq(d.inUse))
    ensures Ok(OnSymbol(d, tables, g, pos, u, sym))
    ensures Ok(OnCode(d, tables, g, pos, n, Shr(CodeOf(row, sym), row[sym] - n), u))
    ensures Exec(OnCode(d, tables, g, pos, n, Shr(CodeOf(row, sym), row[sym] - n), u),
                 BitsOf(CodeOf(row, sym), row[sym] - n) + rest)
         == Exec(OnSymbol(d, tables, g, pos, u, sym), rest)
    decreases row[sym] - n
  {
    hide *;
    ReadingOpen(d, tables, g, u, row, maxLen, sym);
    var c, m := CodeOf(row, sym), row[sym];
    var zvec := Shr(c, m - n);
    LookFacts(d, tables, g, pos, u, row, maxLen, sym, n);
    MtfFacts(d, tables, g, pos, false, n, zvec, u, zvec);
    if n == m {
      NoBits(c, rest);
    } else {
      ExecCodeTail(d, tables, g, pos, u, row, maxLen, sym, n + 1, rest);
      var b := Shr(c, m - n - 1) % 2;
      BitsSplit(c, 1, m - n - 1);
      LowBit(c, m - n - 1);
      BitStream.Assoc(BitsOf(b, 1), BitsOf(c, m - n - 1), rest);
      Pow2Values();
      MtfFacts(d, tables, g, pos, false, n + 1, zvec, u, b);
      ExecStep(Mtf(d, tables, g, pos, false, n + 1, zvec, u), b, BitsOf(c, m - n - 1) + rest);
    }
  }

  lemma {:induction false} NoBits(c: nat, rest: seq<bit>)
    ensures BitsOf(c, 0) + rest == rest
  {
  }

  /** The bit between two prefixes of a code. */
  lemma {:induction false} LowBit(c: nat, k: nat)
    ensures Shr(c, k) == 2 * Shr(c, k + 1) + Shr(c, k) % 2
    ensures BitsOf(Shr(c, k), 1) == BitsOf(Shr(c, k) % 2, 1)
  {
    HalfShr(c, k);
    assert BitsOf(Shr(c, k), 1) == [Shr(c, k) % 2 == 1];
  }

  lemma {:induction false} HalfShr(c: nat, k: nat)
    ensures Shr(c, k) / 2 == Shr(c, k + 1)
  {
    if k > 0 { HalfShr(c / 2, k - 1); } else { assert Shr(c, 1) == Shr(c / 2, 0); }
  }

  /** A whole code: the machine ends up with its symbol. */
  lemma {:induction false} ExecCode(d: Desc, tables: seq<Tables>, g: nat, pos: nat, u: Undo, row: seq<nat>,
                                    maxLen: nat, sym: nat, rest: seq<bit>)
    requires ReadingWith(d, tables, g, u, row, maxLen, sym) && CodeOf(row, sym) < Pow2(row[sym])
    ensures DescOk(d) && g < |d.selector| && d.selector[g] < |tables| && Ready(u, SeqToUnseq(d.inUse))
    ensures var s := Mtf(d, tables, g, pos, true, tables[d.selector[g]].minLen, 0, u);
      && Ok(s) && Ok(OnSymbol(d, tables, g, pos, u, sym))
      && Exec(s, BitsOf(CodeOf(row, sym), row[sym]) + rest) == Exec(OnSymbol(d, tables, g, pos, u, sym), rest)
  {
    hide *;
    ReadingOpen(d, tables, g, u, row, maxLen, sym);
    var c, m, n := CodeOf(row, sym), row[sym], tables[d.selector[g]].minLen;
    var zvec := Shr(c, m - n);
    ExecCodeTail(d, tables, g, pos, u, row, maxLen, sym, n, rest);
    BitsSplit(c, n, m - n);
    BitStream.Assoc(BitsOf(zvec, n), BitsOf(c, m - n), rest);
    ShrBound(c, n, m - n);
    MtfFacts(d, tables, g, pos, true, n, 0, u, zvec);
    ExecStep(Mtf(d, tables, g, pos, true, n, 0, u), zvec, BitsOf(c, m - n) + rest);
  }

  // ----- the block data

  /** Every group has a selector, every selector a table, and every symbol a code in it that fits. */
  ghost predicate DataFits(syms: seq<nat>, selector: seq<nat>, len: seq<seq<nat>>) {
    && |syms| <= G_SIZE * |selector|
    && (forall g {:trigger selector[g]} :: 0 <= g < |selector| ==> selector[g] < |len|)
    && (forall i, t {:trigger syms[i], len[t]} :: 0 <= i < |syms| && 0 <= t < |len| ==> syms[i] < |len[t]|)
    && (forall t {:trigger len[t]} :: 0 <= t < |len| ==> CodesFit(len[t]))
  }

  ghost predicate CodesFit(row: seq<nat>) {
    forall i {:trigger CodeOf(row, i)} :: 0 <= i < |row| ==> CodeOf(row, i) < Pow2(row[i])
  }

  lemma {:induction false} DataAt(syms: seq<nat>, selector: seq<nat>, len: seq<seq<nat>>, i: nat)
    requires DataFits(syms, selector, len) && i < |syms|
    ensures i / 50 < |selector| && selector[i / 50] < |len| && syms[i] < |len[selector[i / 50]]|
    ensures CodeOf(len[selector[i / 50]], syms[i]) < Pow2(len[selector[i / 50]][syms[i]])
  {
    assert selector[i / 50] < |len|;
    var row := len[selector[i / 50]];
    assert CodesFit(row) && syms[i] < |row|;
  }

  ghost function DataBits(syms: seq<nat>, selector: seq<nat>, len: seq<seq<nat>>, i: nat, rest: seq<bit>): seq<bit>
    requires DataFits(syms, selector, len) && i <= |syms|
    decreases |syms| - i
  {
    if i == |syms| then rest
    else
      DataAt(syms, selector, len, i);
      var row := len[selector[i / 50]];
      BitsOf(CodeOf(row, syms[i]), row[syms[i]]) + DataBits(syms, selector, len, i + 1, rest)
  }

  /** The machine in front of symbol i. */
  ghost predicate At(s: State, d: Desc, tables: seq<Tables>, i: nat, u: Undo) {
    && i / 50 < |d.selector| && d.selector[i / 50] < |tables|
    && s == Mtf(d, tables, i / 50, 49 - i % 50, true, tables[d.selector[i / 50]].minLen, 0, u)
  }

  /** What is known of a block that is being read. */
  ghost predicate Data(d: Desc, len: seq<seq<nat>>, syms: seq<nat>) {
    && AllTables(d, len) && DataFits(syms, d.selector, len)
    && forall k {:trigger syms[k]} :: 0 <= k < |syms| - 1 ==> syms[k] != Used(d.inUse, 256) + 1
  }

  lemma {:induction false} DataReading(d: Desc, len: seq<seq<nat>>, syms: seq<nat>, i: nat, u: Undo)
    requires Data(d, len, syms) && i < |syms| && |d.inUse| == 256 && Ready(u, SeqToUnseq(d.inUse))
    ensures DataFits(syms, d.selector, len)
    ensures forall t :: 0 <= t < |len| ==> |len[t]| <= MAX_ALPHA_SIZE
    ensures i / 50 < |d.selector| && d.selector[i / 50] < |len|
    ensures var row := len[d.selector[i / 50]];
      ReadingWith(d, TablesOfAll(len), i / 50, u, row, MaxLength(row, |row|), syms[i])
      && CodeOf(row, syms[i]) < Pow2(row[syms[i]])
  {
    hide TablesFor, MaxLength, CodeOf, Pow2, TablesOf;
    DataAt(syms, d.selector, len, i);
    var tables := TablesOfAll(len);
    forall t | 0 <= t < |len|
      ensures |len[t]| <= MAX_ALPHA_SIZE && TablesFor(tables[t], len[t], MaxLength(len[t], |len[t]|))
        && 1 <= tables[t].minLen <= LONGEST_CODE
    {
      TableAt(d, len, t);
      TablesOfFor(len[t]);
    }
  }

  /** From one symbol to the next, across the end of a group. */
  lemma {:induction false} FetchAt(d: Desc, tables: seq<Tables>, i: nat, u: Undo)
    requires DescOk(d) && |tables| == d.nGroups && (i + 1) / 50 < |d.selector|
    ensures i / 50 < |d.selector| && d.selector[i / 50] < |tables|
    ensures At(Fetch(d, tables, i / 50, 49 - i % 50, u), d, tables, i + 1, u)
  {
    assert d.selector[i / 50] < d.nGroups && d.selector[(i + 1) / 50] < d.nGroups;
  }

  lemma {:induction false} FeedEnds(u: Undo, sym: nat, eob: nat, seqToUnseq: seq<byte>, max: nat)
    requires Ready(u, seqToUnseq) && eob <= 257
    ensures Feed(u, sym, eob, seqToUnseq, max).Finished? ==> sym == eob
  {
  }

  /** The rest of the symbols brings the column to its end. */
  ghost predicate Ends(d: Desc, u: Undo, syms: seq<nat>, i: nat, col: seq<byte>)
    requires |d.inUse| == 256 && i <= |syms|
  {
    && Ready(u, SeqToUnseq(d.inUse)) && Used(d.inUse, 256) + 1 <= 257
    && FeedAll(u, syms[i..], Used(d.inUse, 256) + 1, SeqToUnseq(d.inUse), BLOCK_UNIT * d.head.level) == Finished(col)
  }

  /** Either the column is complete with this symbol, or the next one follows. */
  lemma {:induction false} EndsStep(d: Desc, tables: seq<Tables>, len: seq<seq<nat>>, u: Undo, syms: seq<nat>, i: nat,
                                    col: seq<byte>) returns (u': Undo)
    requires Data(d, len, syms) && i < |syms| && Ends(d, u, syms, i, col) && |tables| == |len| && d.head.origPtr < |col|
    ensures |d.inUse| == 256 && Ready(u, SeqToUnseq(d.inUse)) && i / 50 < |d.selector| && d.selector[i / 50] < |tables|
    ensures var s := OnSymbol(d, tables, i / 50, 49 - i % 50, u, syms[i]);
      if i + 1 == |syms| then s == Output(Block(d.head, col))
      else At(s, d, tables, i + 1, u') && Ends(d, u', syms, i + 1, col)
  {
    DataAt(syms, d.selector, len, i);
    var eob, m, max := Used(d.inUse, 256) + 1, SeqToUnseq(d.inUse), BLOCK_UNIT * d.head.level;
    var r := Feed(u, syms[i], eob, m, max);
    FeedEnds(u, syms[i], eob, m, max);
    assert syms[i..][0] == syms[i] && syms[i..][1..] == syms[i + 1..];
    FeedAllStep(u, syms[i..], eob, m, max);
    hide Feed, FeedAll, Fetch, SeqToUnseq, DataFits, AllTables, Ready;
    u' := if r.Going? then r.u else u;
    assert i + 1 == |syms| ==> syms[i + 1..] == [];
    if r.Going? {
      FeedAllNone(r.u, eob, m, max);
      DataAt(syms, d.selector, len, i + 1);
      DataDesc(d, len, syms);
      FetchAt(d, tables, i, r.u);
    }
  }

  lemma {:induction false} DataDesc(d: Desc, len: seq<seq<nat>>, syms: seq<nat>)
    requires Data(d, len, syms)
    ensures DescOk(d) && |len| == d.nGroups
  {
  }

  lemma {:induction false} FeedAllStep(u: Undo, s: seq<nat>, eob: nat, seqToUnseq: seq<byte>, max: nat)
    requires Ready(u, seqToUnseq) && eob <= 257 && s != []
    ensures var r := Feed(u, s[0], eob, seqToUnseq, max);
      FeedAll(u, s, eob, seqToUnseq, max) == if r.Going? then FeedAll(r.u, s[1..], eob, seqToUnseq, max) else r
  {
  }

  lemma {:induction false} FeedAllNone(u: Undo, eob: nat, seqToUnseq: seq<byte>, max: nat)
    requires Ready(u, seqToUnseq) && eob <= 257
    ensures FeedAll(u, [], eob, seqToUnseq, max) == Going(u)
  {
  }

  /** The machine reads all symbols and ends with the column. */
  lemma {:induction false} ExecData(d: Desc, len: seq<seq<nat>>, syms: seq<nat>, i: nat, s: State, u: Undo,
                                    col: seq<byte>, rest: seq<bit>)
    requires Data(d, len, syms) && i < |syms| && |d.inUse| == 256 && Ends(d, u, syms, i, col) && d.head.origPtr < |col|
    requires forall t :: 0 <= t < |len| ==> |len[t]| <= MAX_ALPHA_SIZE
    requires DataFits(syms, d.selector, len) && At(s, d, TablesOfAll(len), i, u)
    ensures Ok(s)
    ensures Exec(s, DataBits(syms, d.selector, len, i, rest)) == (Output(Block(d.head, col)), rest)
    decreases |syms| - i
  {
    hide *;
    var tables, g := TablesOfAll(len), i / 50;
    var u' := EndsStep(d, tables, len, u, syms, i, col);
    AtIs(s, d, tables, i, u);
    DataReading(d, len, syms, i, u);
    DataBitsStep(syms, d.selector, len, i, rest);
    var row, next := len[d.selector[g]], DataBits(syms, d.selector, len, i + 1, rest);
    ExecCode(d, tables, g, 49 - i % 50, u, row, MaxLength(row, |row|), syms[i], next);
    var s' := OnSymbol(d, tables, g, 49 - i % 50, u, syms[i]);
    if i + 1 < |syms| {
      ExecData(d, len, syms, i + 1, s', u', col, rest);
    } else {
      DataBitsEnd(syms, d.selector, len, rest);
      OutputIsFinal(Block(d.head, col));
      ExecFinal(s', next);
    }
  }

  lemma {:induction false} AtIs(s: State, d: Desc, tables: seq<Tables>, i: nat, u: Undo)
    requires At(s, d, tables, i, u)
    ensures i / 50 < |d.selector| && d.selector[i / 50] < |tables|
    ensures s == Mtf(d, tables, i / 50, 49 - i % 50, true, tables[d.selector[i / 50]].minLen, 0, u)
  {
  }

  lemma {:induction false} OutputIsFinal(b: Block)
    ensures Ok(Output(b)) && Final(Output(b))
  {
  }

  lemma {:induction false} DataBitsStep(syms: seq<nat>, selector: seq<nat>, len: seq<seq<nat>>, i: nat, rest: seq<bit>)
    requires DataFits(syms, selector, len) && i < |syms|
    ensures i / 50 < |selector| && selector[i / 50] < |len| && syms[i] < |len[selector[i / 50]]|
    ensures DataFits(syms, selector, len)
    ensures DataBits(syms, selector, len, i, rest) ==
      BitsOf(CodeOf(len[selector[i / 50]], syms[i]), len[selector[i / 50]][syms[i]]) + DataBits(syms, selector, len,
                                                                                                i + 1, rest)
  {
    DataAt(syms, selector, len, i);
  }

  lemma {:induction false} DataBitsEnd(syms: seq<nat>, selector: seq<nat>, len: seq<seq<nat>>, rest: seq<bit>)
    requires DataFits(syms, selector, len)
    ensures DataBits(syms, selector, len, |syms|, rest) == rest
  {
  }

  // ----- the block header

  lemma {:induction false} HeaderFacts(level: nat, k: nat)
    requires 1 <= k <= 6
    ensures var s := BlkHdr(level, k);
      Ok(s) && !Final(s) && Need(s) == 8
        && Next(s, HeaderByte(k)) == if k < 6 then BlkHdr(level, k + 1) else BlkCrc(level, 1, 0)
  {
  }

  lemma {:induction false} CrcFacts(level: nat, k: nat, crc: nat, v: nat)
    requires 1 <= k <= 4
    ensures var s := BlkCrc(level, k, crc);
      Ok(s) && !Final(s) && Need(s) == 8
        && Next(s, v) == if k < 4 then BlkCrc(level, k + 1, crc * 256 + v) else RandBit(level, crc * 256 + v)
  {
  }

  lemma {:induction false} PtrFacts(level: nat, crc: nat, k: nat, p: nat, v: nat)
    requires 1 <= k <= 3
    ensures var s := OrigPtr(level, crc, k, p);
      && Ok(s) && !Final(s) && Need(s) == 8
      && (k < 3 ==> Next(s, v) == OrigPtr(level, crc, k + 1, p * 256 + v))
      && (k == 3 && p * 256 + v <= 10 + 100000 * level ==> Next(s, v) == Mapping1(Head(level, crc, p * 256 + v), []))
    ensures var s := RandBit(level, crc); Ok(s) && !Final(s) && Need(s) == 1 && Next(s, 0) == OrigPtr(level, crc, 1, 0)
  {
  }

  lemma {:induction false} ExecByte(s: State, b: nat, rest: seq<bit>)
    requires Ok(s) && !Final(s) && Need(s) == 8 && b < 256
    ensures Ok(Next(s, b)) && Exec(s, BitsOf(b, 8) + rest) == Exec(Next(s, b), rest)
  {
    hide *;
    Pow2Values();
    ExecStep(s, b, rest);
  }

  /** The six bytes in front of a block. */
  function HeaderThen(k: nat, rest: seq<bit>): seq<bit>
    requires 1 <= k <= 7
    decreases 7 - k
  {
    if k == 7 then rest else ByteThen(HeaderByte(k), HeaderThen(k + 1, rest))
  }

  /** One byte more in front of a number of bits. */
  lemma {:induction false} ByteFollows(a: nat, m: nat, b: byte, rest: seq<bit>)
    ensures BitsOf(a, m) + ByteThen(b, rest) == BitsOf(256 * a + b, m + 8) + rest
  {
    hide BitsOf, Shl;
    Pow2Values();
    ShlByte(a);
    BitsConcat(a, m, b, 8);
    BitStream.Assoc(BitsOf(a, m), BitsOf(b, 8), rest);
  }

  /** The first 48 bits of a block are the decimals of pi. */
  lemma {:induction false} HeaderLayout(rest: seq<bit>)
    ensures HeaderThen(1, rest) == BitsOf(0x3141_5926_5359, 48) + rest
  {
    hide BitsOf;
    var r6 := ByteThen(0x59, rest);
    var r5 := ByteThen(0x53, r6);
    var r4 := ByteThen(0x26, r5);
    var r3 := ByteThen(0x59, r4);
    var r2 := ByteThen(0x41, r3);
    assert HeaderThen(6, rest) == r6 && HeaderThen(4, rest) == r4 && HeaderThen(2, rest) == r2;
    ByteFollows(0x31, 8, 0x41, r3);
    ByteFollows(0x3141, 16, 0x59, r4);
    ByteFollows(0x3141_59, 24, 0x26, r5);
    ByteFollows(0x3141_5926, 32, 0x53, r6);
    ByteFollows(0x3141_5926_53, 40, 0x59, rest);
  }

  lemma {:induction false} ExecHeader(level: nat, k: nat, rest: seq<bit>)
    requires 1 <= k <= 6
    ensures Ok(BlkHdr(level, k)) && Ok(BlkCrc(level, 1, 0))
    ensures Exec(BlkHdr(level, k), HeaderThen(k, rest)) == Exec(BlkCrc(level, 1, 0), rest)
    decreases 7 - k
  {
    hide Exec, Ok, Next, Need, Final, HeaderByte;
    HeaderFacts(level, k);
    CrcFacts(level, 1, 0, 0);
    ExecByte(BlkHdr(level, k), HeaderByte(k), HeaderThen(k + 1, rest));
    if k < 6 { ExecHeader(level, k + 1, rest); }
  }

  /** Appending the low byte again. */
  lemma {:induction false} AddByte(u: nat)
    ensures Shr(u, 8) * 256 + Low(u, 8) == u
  {
    HighLow(u, 8);
    ShlByte(Shr(u, 8));
  }

  lemma {:induction false} ShrShr(u: nat, m: nat, n: nat)
    ensures Shr(Shr(u, m), n) == Shr(u, m + n)
  {
    if m > 0 { ShrShr(u / 2, m - 1, n); }
  }

  lemma {:induction false} FourBytes(u: nat)
    requires u < 0x1_0000_0000
    ensures Low(Shr(u, 24), 8) * 256 + Low(Shr(u, 16), 8) == Shr(u, 16)
    ensures Shr(u, 16) * 256 + Low(Shr(u, 8), 8) == Shr(u, 8) && Shr(u, 8) * 256 + Low(u, 8) == u
    ensures Low(Shr(u, 24), 8) < 256 && Low(Shr(u, 16), 8) < 256 && Low(Shr(u, 8), 8) < 256 && Low(u, 8) < 256
  {
    hide Low, Shr, Shl, Pow2;
    Pow2Values();
    ShrShr(u, 8, 8);
    ShrShr(u, 16, 8);
    AddByte(u);
    AddByte(Shr(u, 8));
    AddByte(Shr(u, 16));
    ShrBound(u, 8, 24);
    LowSmall(Shr(u, 24), 8);
  }

  lemma {:induction false} ExecCrc(level: nat, crc: nat, rest: seq<bit>)
    requires crc < 0x1_0000_0000
    ensures Ok(BlkCrc(level, 1, 0)) && Ok(RandBit(level, crc))
    ensures Exec(BlkCrc(level, 1, 0), WordThen(crc, rest)) == Exec(RandBit(level, crc), rest)
  {
    hide Exec, Ok, Next, Need, Final, Low, Shr, BitsOf;
    FourBytes(crc);
    var b3, b2, b1, b0 := Low(Shr(crc, 24), 8), Low(Shr(crc, 16), 8), Low(Shr(crc, 8), 8), Low(crc, 8);
    CrcFacts(level, 1, 0, b3);
    ExecByte(BlkCrc(level, 1, 0), b3, BitsOf(b2, 8) + (BitsOf(b1, 8) + (BitsOf(b0, 8) + rest)));
    CrcFacts(level, 2, b3, b2);
    ExecByte(BlkCrc(level, 2, b3), b2, BitsOf(b1, 8) + (BitsOf(b0, 8) + rest));
    CrcFacts(level, 3, Shr(crc, 16), b1);
    ExecByte(BlkCrc(level, 3, Shr(crc, 16)), b1, BitsOf(b0, 8) + rest);
    CrcFacts(level, 4, Shr(crc, 8), b0);
    ExecByte(BlkCrc(level, 4, Shr(crc, 8)), b0, rest);
  }

  /** 24 bits, read as three bytes. */
  lemma {:induction false} ThreeBytes(p: nat, rest: seq<bit>)
    ensures BitsOf(p, 24) + rest ==
      BitsOf(Low(Shr(p, 16), 8), 8) + (BitsOf(Low(Shr(p, 8), 8), 8) + (BitsOf(Low(p, 8), 8) + rest))
  {
    hide BitsOf, Low, Shr;
    BitsSplit(p, 8, 16);
    BitsSplit(p, 8, 8);
    BitsOfLow(Shr(p, 16), 8, 8);
    BitsOfLow(Shr(p, 8), 8, 8);
    BitsOfLow(p, 8, 8);
    var x, y, z := BitsOf(Shr(p, 16), 8), BitsOf(Shr(p, 8), 8), BitsOf(p, 8);
    assert x + (y + z) + rest == x + (y + (z + rest));
  }

  lemma {:induction false} ExecOrigPtr(level: nat, crc: nat, p: nat, rest: seq<bit>)
    requires p <= 10 + 100000 * level && p < 0x100_0000
    ensures Ok(RandBit(level, crc)) && Ok(Mapping1(Head(level, crc, p), []))
    ensures Exec(RandBit(level, crc), BitsOf(0, 1) + (BitsOf(p, 24) + rest))
      == Exec(Mapping1(Head(level, crc, p), []), rest)
  {
    hide Exec, Ok, Next, Need, Final, Low, Shr, BitsOf, Pow2;
    FourBytes(p);
    Pow2Values();
    ShrBound(p, 8, 16);
    LowSmall(Shr(p, 16), 8);
    ThreeBytes(p, rest);
    var b2, b1, b0 := Low(Shr(p, 16), 8), Low(Shr(p, 8), 8), Low(p, 8);
    PtrFacts(level, crc, 1, 0, b2);
    ExecStep(RandBit(level, crc), 0, BitsOf(p, 24) + rest);
    ExecByte(OrigPtr(level, crc, 1, 0), b2, BitsOf(b1, 8) + (BitsOf(b0, 8) + rest));
    PtrFacts(level, crc, 2, b2, b1);
    ExecByte(OrigPtr(level, crc, 2, b2), b1, BitsOf(b0, 8) + rest);
    PtrFacts(level, crc, 3, Shr(p, 8), b0);
    ExecByte(OrigPtr(level, crc, 3, Shr(p, 8)), b0, rest);
  }

  // ----- the whole block

  /** The limit that the encoder puts on code lengths. */
  const ENCODER_MAX := 17

  predicate Short(row: seq<nat>) {
    forall i {:trigger row[i]} :: 0 <= i < |row| ==> 1 <= row[i] <= ENCODER_MAX
  }

  /** Coding tables and selectors that carry n symbols of an alphabet. */
  ghost predicate PlanFits(selector: seq<nat>, len: seq<seq<nat>>, alphaSize: nat, n: nat) {
    && 2 <= |len| <= 6 && 1 <= |selector| <= MAX_SELECTORS && |selector| == (n + G_SIZE - 1) / G_SIZE
    && (forall g :: 0 <= g < |selector| ==> selector[g] < |len|)
    && (forall t {:trigger len[t]} :: 0 <= t < |len| ==>
         |len[t]| == alphaSize && Short(len[t]) && Kraft(len[t], LONGEST_CODE, alphaSize) <= Pow2(LONGEST_CODE))
  }

  lemma {:induction false} PlanLengths(selector: seq<nat>, len: seq<seq<nat>>, alphaSize: nat, n: nat)
    requires PlanFits(selector, len, alphaSize, n)
    ensures forall t {:trigger len[t]} :: 0 <= t < |len| ==> LengthsOk(len[t])
  {
    hide Kraft, Pow2;
  }

  lemma {:induction false} PlanCodesFit(selector: seq<nat>, len: seq<seq<nat>>, alphaSize: nat, n: nat, syms: seq<nat>)
    requires PlanFits(selector, len, alphaSize, n) && n == |syms| && forall i :: 0 <= i < n ==> syms[i] < alphaSize
    ensures DataFits(syms, selector, len)
  {
    forall t | 0 <= t < |len| ensures CodesFit(len[t]) {
      forall i | 0 <= i < |len[t]| ensures CodeOf(len[t], i) < Pow2(len[t][i]) {
        CodeFits(len[t], LONGEST_CODE, i);
      }
    }
  }

  /** Only the last symbol is the end-of-block symbol, and all are in the alphabet. */
  lemma {:induction false} CodesBelow(l: seq<byte>, z: nat, col: seq<byte>, i: nat)
    requires i <= |col| && l != [] && Covers(l, col)
    ensures forall x :: 0 <= x < |Codes(l, z, col, i)| ==> Codes(l, z, col, i)[x] <= |l|
    decreases |col| - i
  {
    RunCodeBijective(z, []);
    if i < |col| {
      if col[i] == l[0] {
        CodesBelow(l, z + 1, col, i + 1);
      } else {
        CoveredAt(l, col, i);
        var p := PosOf(l, col[i], 0);
        CoversMove(l, col, p);
        CodesBelow(MoveFront(l, p), 0, col, i + 1);
        hide RunCode, MoveFront;
      }
    }
  }

  lemma {:induction false} SymbolsBelow(col: seq<byte>, inUse: seq<bool>)
    requires InUse(col, inUse) && col != []
    ensures 0 < Used(inUse, 256) <= 256 && Symbols(col, inUse) != []
    ensures var s, eob := Symbols(col, inUse), Used(inUse, 256) + 1;
      (forall x :: 0 <= x < |s| ==> s[x] < eob + 1) && (forall x :: 0 <= x < |s| - 1 ==> s[x] != eob)
  {
    UsedGrows(inUse, col[0], 256);
    RanksCovered(col, inUse);
    CodesBelow(Iota(Used(inUse, 256)), 0, Ranks(col, inUse), 0);
  }

  /** Everything behind the mapping table. */
  ghost function PlanBits(syms: seq<nat>, selector: seq<nat>, len: seq<seq<nat>>, rest: seq<bit>): seq<bit>
    requires DataFits(syms, selector, len) && (forall t :: 0 <= t < |len| ==> len[t] != [])
    requires forall g :: 0 <= g < |selector| ==> selector[g] < |len|
  {
    GroupsList(|len|);
    BitsOf(|len|, 3) + (BitsOf(|selector|, 15)
      + SelectorBits(SelectorMtf(Groups(|len|), selector, 0, |len|), 0,
                     TableBits(len, 0, DataBits(syms, selector, len, 0, rest))))
  }

  lemma {:induction false} GroupsList(n: nat)
    ensures Lists(Groups(n), n)
  {
    forall v | 0 <= v < n ensures v in Groups(n)[0..] { assert Groups(n)[0..][v] == v; }
  }

  ghost function BlockBits(head: Head, inUse: seq<bool>, syms: seq<nat>, selector: seq<nat>, len: seq<seq<nat>>,
                           rest: seq<bit>): seq<bit>
    requires |inUse| == 256 && DataFits(syms, selector, len) && (forall t :: 0 <= t < |len| ==> len[t] != [])
    requires forall g :: 0 <= g < |selector| ==> selector[g] < |len|
  {
    HeaderThen(1, WordThen(head.crc, BitsOf(0, 1) + (BitsOf(head.origPtr, 24)
      + RowFlags(inUse, 0, ByteFlags(inUse, 0, PlanBits(syms, selector, len, rest))))))
  }

  lemma {:induction false} SelectorFacts(head: Head, inUse: seq<bool>, n: nat, total: nat)
    requires |inUse| == 256 && 2 <= n <= 6 && 1 <= total
    ensures var s := Selector1(head, inUse);
      Ok(s) && !Final(s) && Need(s) == 3 && Next(s, n) == Selector2(head, inUse, n)
    ensures var s := Selector2(head, inUse, n);
      Ok(s) && !Final(s) && Need(s) == 15 && Next(s, total) == SelState(head, inUse, n, total, [], 0)
  {
  }

  /** The block description that the machine arrives at. */
  ghost predicate Describes(d: Desc, selector: seq<nat>, len: seq<seq<nat>>, syms: seq<nat>, col: seq<byte>) {
    && |d.inUse| == 256 && d.nGroups == |len| && d.selector == selector
    && col != [] && InUse(col, d.inUse) && syms == Symbols(col, d.inUse)
    && |col| <= BLOCK_UNIT * d.head.level && d.head.level <= 9 && d.head.origPtr < |col|
    && PlanFits(selector, len, Used(d.inUse, 256) + 2, |syms|)
  }

  /**
   * A block in the limits of the format, whoever wrote it: code lengths of 1 to 20 bits with codes that fit, and
   * selectors for all groups, perhaps more.
   */
  ghost predicate Readable(d: Desc, len: seq<seq<nat>>, syms: seq<nat>, col: seq<byte>) {
    && |d.inUse| == 256 && 2 <= |len| <= 6 && d.nGroups == |len|
    && 1 <= |d.selector| <= 18002 && |syms| <= 50 * |d.selector|
    && (forall g {:trigger d.selector[g]} :: 0 <= g < |d.selector| ==> d.selector[g] < |len|)
    && (forall t {:trigger len[t]} :: 0 <= t < |len| ==> RowReadable(len[t], Used(d.inUse, 256) + 2))
    && col != [] && InUse(col, d.inUse) && syms == Symbols(col, d.inUse)
    && |col| <= 100_000 * d.head.level && d.head.level <= 9 && d.head.origPtr < |col|
  }

  ghost predicate RowReadable(row: seq<nat>, alphaSize: nat) {
    |row| == alphaSize && CodesFit(row) && forall i {:trigger row[i]} :: 0 <= i < |row| ==> 1 <= row[i] <= 20
  }

  lemma {:induction false} RowReadableIs(row: seq<nat>, alphaSize: nat)
    requires RowReadable(row, alphaSize)
    ensures |row| == alphaSize && CodesFit(row) && LengthsOk(row)
  {
    hide CodesFit;
  }

  /** The blocks of the encoder are readable. */
  lemma {:induction false} DescribesReadable(d: Desc, selector: seq<nat>, len: seq<seq<nat>>, syms: seq<nat>,
                                             col: seq<byte>)
    requires Describes(d, selector, len, syms, col)
    ensures Readable(d, len, syms, col) && d.selector == selector
  {
    hide Symbols, Kraft, Pow2, Used, LengthsOk, Short, DataFits, CodesFit, InUse;
    PlanLengths(selector, len, Used(d.inUse, 256) + 2, |syms|);
    SymbolsBelow(col, d.inUse);
    PlanCodesFit(selector, len, Used(d.inUse, 256) + 2, |syms|, syms);
    forall t | 0 <= t < |len| ensures RowReadable(len[t], Used(d.inUse, 256) + 2) {
      FittingCodes(syms, selector, len, t);
      LengthsIn(len[t]);
    }
  }

  lemma {:induction false} FittingCodes(syms: seq<nat>, selector: seq<nat>, len: seq<seq<nat>>, t: nat)
    requires DataFits(syms, selector, len) && t < |len|
    ensures CodesFit(len[t])
  {
    hide CodesFit;
  }

  lemma {:induction false} LengthsIn(row: seq<nat>)
    requires LengthsOk(row)
    ensures forall i {:trigger row[i]} :: 0 <= i < |row| ==> 1 <= row[i] <= 20
  {
  }

  lemma {:induction false} ReadableData(d: Desc, len: seq<seq<nat>>, syms: seq<nat>, col: seq<byte>)
    requires Readable(d, len, syms, col)
    ensures Data(d, len, syms) && syms != [] && DescOk(d) && 2 <= |len| <= 6 && 1 <= |d.selector| < 0x8000
    ensures DataFits(syms, d.selector, len) && (forall t :: 0 <= t < |len| ==> 0 < |len[t]| <= MAX_ALPHA_SIZE)
    ensures (forall g :: 0 <= g < |d.selector| ==> d.selector[g] < |len|) && 0 < Used(d.inUse, 256) <= 256
    ensures Ends(d, Undo(Iota(256), -1, 1, []), syms, 0, col)
  {
    hide Symbols, Used, Ends, LengthsOk, CodesFit, InUse, RowReadable;
    ReadableEnds(d, len, syms, col);
    SymbolsBelow(col, d.inUse);
    forall t | 0 <= t < |len| ensures |len[t]| == Used(d.inUse, 256) + 2 && CodesFit(len[t]) && LengthsOk(len[t]) {
      RowReadableIs(len[t], Used(d.inUse, 256) + 2);
    }
  }

  lemma {:induction false} DescribesData(d: Desc, selector: seq<nat>, len: seq<seq<nat>>, syms: seq<nat>,
                                         col: seq<byte>)
    requires Describes(d, selector, len, syms, col)
    ensures Data(d, len, syms) && syms != [] && DescOk(d) && 2 <= |len| <= 6 && 1 <= |selector| < 0x8000
    ensures DataFits(syms, selector, len) && (forall t :: 0 <= t < |len| ==> 0 < |len[t]| <= MAX_ALPHA_SIZE)
    ensures (forall g :: 0 <= g < |selector| ==> selector[g] < |len|) && 0 < Used(d.inUse, 256) <= 256
    ensures Ends(d, Undo(Iota(256), -1, 1, []), syms, 0, col)
  {
    hide Data, DataFits, Describes, Readable, Ends, Used, DescOk;
    DescribesReadable(d, selector, len, syms, col);
    ReadableData(d, len, syms, col);
  }

  lemma {:induction false} ReadableEnds(d: Desc, len: seq<seq<nat>>, syms: seq<nat>, col: seq<byte>)
    requires Readable(d, len, syms, col)
    ensures Ends(d, Undo(Iota(256), -1, 1, []), syms, 0, col)
  {
    hide Symbols, FeedAll, SeqToUnseq, Used, InUse, RowReadable;
    RanksInverted(d.inUse);
    SymbolsDecode(col, d.inUse, SeqToUnseq(d.inUse), BLOCK_UNIT * d.head.level);
    assert syms[0..] == syms;
  }

  /** The decoder's map undoes the encoder's. */
  lemma {:induction false} RanksInverted(inUse: seq<bool>)
    requires |inUse| == 256
    ensures Inverts(SeqToUnseq(inUse), inUse)
  {
    forall v | 0 <= v < 256 && inUse[v] ensures Used(inUse, v) < 256 && SeqToUnseq(inUse)[Used(inUse, v)] == v {
      ByteOfRankIs(inUse, v, 0);
    }
  }

  lemma {:induction false} ByteOfRankIs(inUse: seq<bool>, v: nat, w: nat)
    requires |inUse| == 256 && w <= v < 256 && inUse[v]
    ensures ByteOfRank(inUse, Used(inUse, v), w) == v
    decreases v - w
  {
    if w < v {
      UsedGrows(inUse, w, v);
      ByteOfRankIs(inUse, v, w + 1);
    }
  }

  lemma {:induction false} ExecPlan(d: Desc, len: seq<seq<nat>>, syms: seq<nat>, col: seq<byte>, rest: seq<bit>)
    requires Readable(d, len, syms, col)
    requires DataFits(syms, d.selector, len) && (forall t :: 0 <= t < |len| ==> len[t] != [])
    requires forall g :: 0 <= g < |d.selector| ==> d.selector[g] < |len|
    ensures Ok(Selector1(d.head, d.inUse))
    ensures Exec(Selector1(d.head, d.inUse), PlanBits(syms, d.selector, len, rest))
      == (Output(Block(d.head, col)), rest)
  {
    hide *;
    ReadableData(d, len, syms, col);
    ReadableIs(d, len, syms, col);
    var n, total, data := |len|, |d.selector|, DataBits(syms, d.selector, len, 0, rest);
    PlanBitsIs(syms, d.selector, len, rest);
    GroupsList(n);
    var m := SelectorMtf(Groups(n), d.selector, 0, n);
    Pow2Values();
    SelectorFacts(d.head, d.inUse, n, total);
    var tables := TableBits(len, 0, data);
    ExecStep(Selector1(d.head, d.inUse), n, BitsOf(total, 15) + SelectorBits(m, 0, tables));
    ExecStep(Selector2(d.head, d.inUse, n), total, SelectorBits(m, 0, tables));
    SelOkIs(d.inUse, n, m);
    assert m[..0] == [];
    ExecSelectors(d.head, d.inUse, n, m, 0, tables);
    SelectorsUndone(Groups(n), d.selector, 0, n);
    assert d.selector[0..] == d.selector && d == Desc(d.head, d.inUse, n, UndoSelectors(Groups(n), m, 0));
    DataTables(d, len, syms);
    assert len[..0] == [];
    ExecTables(d, len, 0, data);
    FirstAt(d, len);
    ExecData(d, len, syms, 0, FirstSymbol(d, TablesOfAll(len)), Undo(Iota(256), -1, 1, []), col, rest);
  }

  lemma {:induction false} ReadableIs(d: Desc, len: seq<seq<nat>>, syms: seq<nat>, col: seq<byte>)
    requires Readable(d, len, syms, col)
    ensures |d.inUse| == 256 && d.nGroups == |len| && d.head.origPtr < |col|
    ensures d.head.origPtr <= 10 + 100000 * d.head.level && d.head.origPtr < 0x100_0000
  {
  }

  lemma {:induction false} DataTables(d: Desc, len: seq<seq<nat>>, syms: seq<nat>)
    requires Data(d, len, syms)
    ensures AllTables(d, len)
  {
  }

  lemma {:induction false} SelOkIs(inUse: seq<bool>, n: nat, m: seq<nat>)
    requires |inUse| == 256 && 2 <= n <= 6 && forall i :: 0 <= i < |m| ==> m[i] < n
    ensures SelOk(inUse, n, m)
  {
  }

  lemma {:induction false} PlanBitsIs(syms: seq<nat>, selector: seq<nat>, len: seq<seq<nat>>, rest: seq<bit>)
    requires DataFits(syms, selector, len) && (forall t :: 0 <= t < |len| ==> len[t] != [])
    requires forall g :: 0 <= g < |selector| ==> selector[g] < |len|
    ensures Lists(Groups(|len|), |len|)
    ensures PlanBits(syms, selector, len, rest) == BitsOf(|len|, 3) + (BitsOf(|selector|, 15)
      + SelectorBits(SelectorMtf(Groups(|len|), selector, 0, |len|), 0,
                     TableBits(len, 0, DataBits(syms, selector, len, 0, rest))))
  {
    GroupsList(|len|);
  }

  lemma {:induction false} FirstAt(d: Desc, len: seq<seq<nat>>)
    requires AllTables(d, len) && forall t :: 0 <= t < |len| ==> |len[t]| <= MAX_ALPHA_SIZE
    ensures At(FirstSymbol(d, TablesOfAll(len)), d, TablesOfAll(len), 0, Undo(Iota(256), -1, 1, []))
  {
    assert d.selector[0] < d.nGroups;
  }

  /**
   * The main theorem: the machine, started at a block header, recovers head and last column of every readable block,
   * and consumes the block exactly.
   */
  lemma {:induction false} ExecBlock(d: Desc, len: seq<seq<nat>>, syms: seq<nat>, col: seq<byte>, rest: seq<bit>)
    requires Readable(d, len, syms, col) && d.head.crc < 0x1_0000_0000
    ensures |d.inUse| == 256 && DataFits(syms, d.selector, len) && (forall t :: 0 <= t < |len| ==> len[t] != [])
    ensures forall g :: 0 <= g < |d.selector| ==> d.selector[g] < |len|
    ensures Ok(BlkHdr(d.head.level, 1))
    ensures Exec(BlkHdr(d.head.level, 1), BlockBits(d.head, d.inUse, syms, d.selector, len, rest))
      == (Output(Block(d.head, col)), rest)
  {
    ReadableData(d, len, syms, col);
    ReadableIs(d, len, syms, col);
    var plan := PlanBits(syms, d.selector, len, rest);
    var bytes := ByteFlags(d.inUse, 0, plan);
    var rows := RowFlags(d.inUse, 0, bytes);
    var h := d.head;
    assert BlockBits(h, d.inUse, syms, d.selector, len, rest)
        == HeaderThen(1, WordThen(h.crc, BitsOf(0, 1) + (BitsOf(h.origPtr, 24) + rows)));
    assert RowsUsed(d.inUse, 0) == [] && d.inUse[..0] == [];
    assert MapState(h, d.inUse, 0) == SkipRows(h, RowsUsed(d.inUse, 16), []);
    assert h == Head(h.level, h.crc, h.origPtr);
    hide *;
    ExecHeader(h.level, 1, WordThen(h.crc, BitsOf(0, 1) + (BitsOf(h.origPtr, 24) + rows)));
    ExecCrc(h.level, h.crc, BitsOf(0, 1) + (BitsOf(h.origPtr, 24) + rows));
    ExecOrigPtr(h.level, h.crc, h.origPtr, rows);
    ExecRowFlags(h, d.inUse, 0, bytes);
    ExecByteFlags(h, d.inUse, 0, plan);
    ExecPlan(d, len, syms, col, rest);
  }
}
