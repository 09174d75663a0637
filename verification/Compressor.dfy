/** The parts of BZ2_compressBlock: the stream header, one block from its run-length code on, and the trailer. */
module Compressor {
  import opened Bytes
  import opened Rotations
  import opened RunLength
  import opened BitStream
  import opened MtfEncoder
  import opened DecodeMachine
  import opened WireFormat
  import opened BlockFormat
  import opened SendMtf
  import opened StreamFormat
  import opened BlockBuffer
  import opened BlockCompressor

  // ----- the bits emitted so far

  ghost predicate Emitted(produced: seq<bit>, xs: seq<Piece>, level: nat, started: bool) {
    && Pieces(xs, level) && (!started ==> xs == [])
    && produced == (if started then MagicThen(level, []) else []) + PiecesBits(xs, level, |xs|)
  }

  /** The finished stream, filled up to a whole number of bytes. */
  ghost predicate Closed(produced: seq<bit>, xs: seq<Piece>, level: nat) {
    Pieces(xs, level) && exists pad :: 0 <= pad < 8 && produced == StreamBits(xs, level) + BitsOf(0, pad)
  }

  lemma {:induction false} EmittedMagic(produced: seq<bit>, xs: seq<Piece>, level: nat)
    requires Emitted(produced, xs, level, false)
    ensures xs == [] && Emitted(produced + MagicThen(level, []), xs, level, true)
  {
    hide MagicThen;
    assert [] + MagicThen(level, []) + [] == MagicThen(level, []) + [];
  }

  lemma {:induction false} PiecesSame(xs: seq<Piece>, ys: seq<Piece>, level: nat, k: nat)
    requires Pieces(xs, level) && Pieces(ys, level) && k <= |xs| && k <= |ys| && xs[..k] == ys[..k]
    ensures PiecesBits(xs, level, k) == PiecesBits(ys, level, k)
    ensures Plains(xs, k) == Plains(ys, k) && Combined(xs, k) == Combined(ys, k)
  {
    hide PieceOk, PieceBits, FinalCrc;
    if k > 0 {
      assert xs[k - 1] == xs[..k][k - 1] == ys[..k][k - 1] == ys[k - 1];
      assert xs[..k - 1] == xs[..k][..k - 1] == ys[..k][..k - 1] == ys[..k - 1];
      PiecesSame(xs, ys, level, k - 1);
    }
  }

  lemma {:induction false} PiecesAppend(xs: seq<Piece>, x: Piece, level: nat)
    requires Pieces(xs, level) && PieceOk(x, level)
    ensures Pieces(xs + [x], level)
    ensures 1 <= level <= 9 && forall i :: 0 <= i < |xs + [x]| ==> PieceOk((xs + [x])[i], level)
    ensures forall i :: 0 <= i < |xs| ==> PieceOk(xs[i], level)
    ensures PiecesBits(xs + [x], level, |xs| + 1) == PiecesBits(xs, level, |xs|) + PieceBits(x, level)
    ensures Plains(xs + [x], |xs| + 1) == Plains(xs, |xs|) + x.plain
    ensures Combined(xs + [x], |xs| + 1) == Rotate(Combined(xs, |xs|)) ^ FinalCrc(x.plain)
  {
    hide PieceOk, PieceBits, FinalCrc, Rotate;
    PiecesSame(xs, xs + [x], level, |xs|);
  }

  lemma {:induction false} EmittedPiece(produced: seq<bit>, xs: seq<Piece>, level: nat, x: Piece)
    requires Emitted(produced, xs, level, true) && PieceOk(x, level)
    ensures Emitted(produced + PieceBits(x, level), xs + [x], level, true)
  {
    hide *;
    EmittedOpen(produced, xs, level);
    PiecesAppend(xs, x, level);
    BitStream.Assoc(MagicThen(level, []), PiecesBits(xs, level, |xs|), PieceBits(x, level));
    EmittedClose(produced + PieceBits(x, level), xs + [x], level);
  }

  lemma {:induction false} EmittedOpen(produced: seq<bit>, xs: seq<Piece>, level: nat)
    requires Emitted(produced, xs, level, true)
    ensures Pieces(xs, level) && 1 <= level <= 9 && (forall i :: 0 <= i < |xs| ==> PieceOk(xs[i], level))
    ensures produced == MagicThen(level, []) + PiecesBits(xs, level, |xs|)
  {
  }

  lemma {:induction false} EmittedClose(produced: seq<bit>, xs: seq<Piece>, level: nat)
    requires Pieces(xs, level) && 1 <= level <= 9 && (forall i :: 0 <= i < |xs| ==> PieceOk(xs[i], level))
    requires produced == MagicThen(level, []) + PiecesBits(xs, level, |xs|)
    ensures Emitted(produced, xs, level, true)
  {
  }

  lemma {:induction false} EmittedClosed(produced: seq<bit>, xs: seq<Piece>, level: nat, closed: seq<bit>, pad: nat)
    requires Emitted(produced, xs, level, true) && pad < 8
    requires closed == produced + TrailerThen(1, WordThen(BlockCrc.Word(Combined(xs, |xs|)), [])) + BitsOf(0, pad)
    ensures Closed(closed, xs, level)
  {
    hide PieceOk, PieceBits, MagicThen, PiecesBits, TrailerThen, WordThen, Combined, BitsOf;
    assert closed == StreamBits(xs, level) + BitsOf(0, pad);
  }

  // ----- the pieces of BZ2_compressBlock

  method SendMagic(w: BitWriter, level: nat)
    requires w.Valid() && 1 <= level <= 9
    modifies w
    ensures w.Valid() && w.Stream() == old(w.Stream()) + MagicThen(level, [])
  {
    hide BitsOf;
    ghost var s0 := w.Stream();
    PutByte(w, 0x42, ByteThen(0x5a, ByteThen(0x68, ByteThen(0x30 + level, []))));
    PutByte(w, 0x5a, ByteThen(0x68, ByteThen(0x30 + level, [])));
    PutByte(w, 0x68, ByteThen(0x30 + level, []));
    PutByte(w, 0x30 + level, []);
    assert w.Stream() + [] == w.Stream();
  }

  method SendTrailer(w: BitWriter, crc: nat)
    requires w.Valid() && crc < 0x1_0000_0000
    modifies w
    ensures w.Valid() && w.Stream() == old(w.Stream()) + TrailerThen(1, WordThen(crc, []))
  {
    hide *;
    ghost var s0, word := w.Stream(), WordThen(crc, []);
    var k: nat := 1;
    while k <= 6
      invariant 1 <= k <= 7 && w.Valid() && w.Stream() + TrailerThen(k, word) == s0 + TrailerThen(1, word)
    {
      TrailerStep(k, word);
      PutByte(w, EndByte(k), TrailerThen(k + 1, word));
      k := k + 1;
    }
    TrailerDone(word);
    PutWord(w, crc, []);
    assert w.Stream() + [] == w.Stream();
  }

  lemma {:induction false} TrailerStep(k: nat, rest: seq<bit>)
    requires 1 <= k <= 6
    ensures TrailerThen(k, rest) == ByteThen(EndByte(k), TrailerThen(k + 1, rest))
  {
  }

  lemma {:induction false} TrailerDone(rest: seq<bit>)
    ensures TrailerThen(7, rest) == rest
  {
  }

  /** Every byte of the block is marked as in use. */
  lemma {:induction false} MarksInUse(inUse: seq<bool>, b: seq<byte>)
    requires Marks(inUse, b)
    ensures InUse(b, inUse)
  {
    forall i | 0 <= i < |b| ensures inUse[b[i]] { assert b[i] in b; }
  }

  lemma {:induction false} CollectedOpen(rs: seq<Run>, block: seq<byte>, n: nat, inUse: seq<bool>, crc: bv32)
    requires Collected(rs, block, n, inUse, crc)
    ensures n <= |block| && block[..n] == Code(rs) && InUse(block[..n], inUse)
    ensures WellFormed(block[..n]) && Expand(block[..n]) == Plain(rs) && BlockCrc.Final(crc) == FinalCrc(Plain(rs))
  {
    MarksInUse(inUse, Code(rs));
    ExpandCode(rs);
  }

  /** The block, sorted and coded. */
  method CodePiece(buf: Buffer, crc: nat, level: nat, workFactor: int)
    returns (origPtr: nat, mtfv: array<u16>, nMTF: nat, selector: seq<nat>, len: seq<seq<nat>>, ghost x: Piece)
    requires Collected(buf.runs, buf.block[..], buf.nblock, buf.inUse[..], buf.blockCRC)
    requires buf.block as object != buf.inUse && buf.inUse.Length == 256
    requires 0 < buf.nblock <= BLOCK_UNIT * level && 1 <= level <= 9 && crc == CrcWord(Plain(buf.runs))
    requires buf.nblock + N_OVERSHOOT <= buf.block.Length
    modifies buf.block
    ensures buf.nblock <= buf.block.Length && buf.block[..buf.nblock] == old(buf.block[..buf.nblock]) && fresh(mtfv)
    ensures PieceOk(x, level) && x.plain == Plain(buf.runs)
    ensures x.desc == Desc(Head(level, crc, origPtr), buf.inUse[..], |len|, selector) && x.len == len
    ensures CarriesSymbols(mtfv[..], x.syms) && nMTF == |x.syms| && |x.code| == buf.nblock
  {
    hide *;
    CollectedOpen(buf.runs, buf.block[..], buf.nblock, buf.inUse[..], buf.blockCRC);
    ghost var b := buf.block[..];
    assert b[..buf.nblock] == buf.block[..buf.nblock];
    ghost var order, syms;
    origPtr, mtfv, nMTF, selector, len, order, syms :=
      CodeBlock(buf.block, buf.nblock, buf.inUse, workFactor, crc, level);
    x := PieceFrom(b[..buf.nblock], order, Desc(Head(level, crc, origPtr), buf.inUse[..], |len|, selector), len, syms,
                   level, buf.runs);
  }

  lemma {:induction false} PieceFrom(code: seq<byte>, order: seq<nat>, d: Desc, len: seq<seq<nat>>, syms: seq<nat>,
                                     level: nat, rs: seq<Run>)
    returns (x: Piece)
    requires code != [] && SortedRotations(code, order) && WellFormed(code) && Expand(code) == Plain(rs)
    requires d.head.level == level && d.head.crc == CrcWord(Plain(rs))
    requires d.head.origPtr < |order| == |code| && order[d.head.origPtr] == 0
    requires forall i :: 0 <= i < |order| ==> order[i] < |code|
    requires Describes(d, d.selector, len, syms, LastColumn(code, order))
    ensures PieceOk(x, level) && x == Piece(Plain(rs), code, order, d, len, syms)
  {
    hide Describes, WellFormed, Expand, Plain, SortedRotations, CrcWord, LastColumn;
    x := Piece(Plain(rs), code, order, d, len, syms);
  }

  /** The block proper. */
  method SendPiece(w: BitWriter, buf: Buffer, crc: nat, level: nat, workFactor: int) returns (ghost x: Piece)
    requires w.Valid() && Collected(buf.runs, buf.block[..], buf.nblock, buf.inUse[..], buf.blockCRC)
    requires buf.block as object != buf.inUse && buf.inUse.Length == 256
    requires 0 < buf.nblock <= BLOCK_UNIT * level && 1 <= level <= 9 && crc == CrcWord(Plain(buf.runs))
    requires buf.nblock + N_OVERSHOOT <= buf.block.Length
    modifies w, buf.block
    ensures w.Valid() && buf.nblock <= buf.block.Length && buf.block[..buf.nblock] == old(buf.block[..buf.nblock])
    ensures PieceOk(x, level) && x.plain == Plain(buf.runs) && w.Stream() == old(w.Stream()) + PieceBits(x, level)
    ensures |x.code| == buf.nblock
  {
    hide *;
    var origPtr, mtfv, nMTF, selector, len;
    origPtr, mtfv, nMTF, selector, len, x := CodePiece(buf, crc, level, workFactor);
    PieceFits(x, level);
    SendBlock(w, crc, origPtr, buf.inUse, mtfv, nMTF, selector, len, x.desc, x.syms, Column(x), []);
    PieceBitsIs(x, level);
    assert w.Stream() + [] == w.Stream();
  }
}
