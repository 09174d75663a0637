/** A whole bzip2 stream: its blocks, its checksums, and what the decoding machine makes of it. */
module StreamFormat {
  import opened Bytes
  import opened Powers
  import opened Rotations
  import opened LastToFirst
  import opened BitStream
  import opened RunLength
  import opened DecodeMachine
  import opened WireFormat
  import opened BlockFormat
  import BlockOutput
  import BlockCrc

  /** One compressed block: the bytes it stands for, its run-length code, a sorted order, and its coding. */
  datatype Piece = Piece(plain: seq<byte>, code: seq<byte>, order: seq<nat>, desc: Desc, len: seq<seq<nat>>,
                         syms: seq<nat>)

  /** The checksum of the bytes of a block. */
  function FinalCrc(plain: seq<byte>): bv32 {
    BlockCrc.Final(BlockCrc.UpdateAll(0xffff_ffff, plain))
  }

  function CrcWord(plain: seq<byte>): (u: nat)
    ensures u < 0x1_0000_0000
  {
    BlockCrc.Word(FinalCrc(plain))
  }

  function Column(x: Piece): seq<byte>
    requires x.code != [] && |x.order| == |x.code| && forall i :: 0 <= i < |x.order| ==> x.order[i] < |x.code|
  {
    LastColumn(x.code, x.order)
  }

  ghost predicate PieceOk(x: Piece, level: nat) {
    && x.code != [] && SortedRotations(x.code, x.order)
    && WellFormed(x.code) && Expand(x.code) == x.plain
    && x.desc.head.level == level && x.desc.head.crc == CrcWord(x.plain)
    && x.desc.head.origPtr < |x.code| && x.order[x.desc.head.origPtr] == 0
    && Describes(x.desc, x.desc.selector, x.len, x.syms, Column(x))
  }

  lemma {:induction false} PieceFits(x: Piece, level: nat)
    requires PieceOk(x, level)
    ensures |x.desc.inUse| == 256 && DataFits(x.syms, x.desc.selector, x.len)
      && (forall t :: 0 <= t < |x.len| ==> x.len[t] != [])
    ensures forall g :: 0 <= g < |x.desc.selector| ==> x.desc.selector[g] < |x.len|
    ensures x.desc.head.crc < 0x1_0000_0000
    ensures x.code != [] && |x.order| == |x.code| && forall i :: 0 <= i < |x.order| ==> x.order[i] < |x.code|
    ensures Describes(x.desc, x.desc.selector, x.len, x.syms, Column(x)) && x.desc.head.level == level
    ensures |Column(x)| == |x.code| && x.desc.head.origPtr < |x.code|
  {
    DescribesData(x.desc, x.desc.selector, x.len, x.syms, Column(x));
    hide Describes, DataFits, Data, DescOk;
  }

  ghost function PieceBits(x: Piece, level: nat): seq<bit>
    requires PieceOk(x, level)
  {
    PieceFits(x, level);
    BlockBits(x.desc.head, x.desc.inUse, x.syms, x.desc.selector, x.len, [])
  }

  /** The machine recovers the column of a piece. */
  lemma {:induction false} ExecPiece(x: Piece, level: nat, rest: seq<bit>)
    requires PieceOk(x, level)
    ensures x.code != [] && |x.order| == |x.code| && forall i :: 0 <= i < |x.order| ==> x.order[i] < |x.code|
    ensures Ok(BlkHdr(level, 1))
    ensures Exec(BlkHdr(level, 1), PieceBits(x, level) + rest) == (Output(Block(x.desc.head, Column(x))), rest)
  {
    hide *;
    PieceFits(x, level);
    PieceBitsIs(x, level);
    var out := Output(Block(x.desc.head, Column(x)));
    DescribesReadable(x.desc, x.desc.selector, x.len, x.syms, Column(x));
    ExecBlock(x.desc, x.len, x.syms, Column(x), []);
    ExecResumes(BlkHdr(level, 1), PieceBits(x, level), rest);
    assert [] + rest == rest;
    OutputIsFinal(Block(x.desc.head, Column(x)));
    ExecFinal(out, rest);
  }

  lemma {:induction false} PieceBitsIs(x: Piece, level: nat)
    requires PieceOk(x, level)
    ensures |x.desc.inUse| == 256 && DataFits(x.syms, x.desc.selector, x.len)
      && (forall t :: 0 <= t < |x.len| ==> x.len[t] != [])
    ensures forall g :: 0 <= g < |x.desc.selector| ==> x.desc.selector[g] < |x.len|
    ensures PieceBits(x, level) == BlockBits(x.desc.head, x.desc.inUse, x.syms, x.desc.selector, x.len, [])
  {
    PieceFits(x, level);
  }

  /** The walk over the column gives the run-length code, and expanding that the plain bytes. */
  lemma {:induction false} PieceDecodes(x: Piece, level: nat)
    requires PieceOk(x, level)
    ensures x.code != [] && |x.order| == |x.code| && forall i :: 0 <= i < |x.order| ==> x.order[i] < |x.code|
    ensures x.desc.head.origPtr < |Column(x)|
    ensures BlockOutput.BlockOf(Column(x), x.desc.head.origPtr) == x.code
    ensures WellFormed(BlockOutput.BlockOf(Column(x), x.desc.head.origPtr))
    ensures Expand(BlockOutput.BlockOf(Column(x), x.desc.head.origPtr)) == x.plain
  {
    hide Describes, Expand, WellFormed;
    var b := BlockOutput.BlockOf(Column(x), x.desc.head.origPtr);
    forall k | 0 <= k < |x.code| ensures b[k] == x.code[k] {
      InverseBwt(x.code, x.order, x.desc.head.origPtr, k);
      assert Cyc(x.code, k) == x.code[k];
    }
    assert b == x.code;
  }

  // ----- the whole stream

  /** "BZh" and the block size digit. */
  ghost function MagicThen(level: nat, rest: seq<bit>): seq<bit>
    requires 1 <= level <= 9
  {
    ByteThen(0x42, ByteThen(0x5a, ByteThen(0x68, ByteThen(0x30 + level, rest))))
  }

  ghost function PiecesBits(xs: seq<Piece>, level: nat, k: nat): seq<bit>
    requires k <= |xs| && forall i :: 0 <= i < |xs| ==> PieceOk(xs[i], level)
  {
    if k == 0 then [] else PiecesBits(xs, level, k - 1) + PieceBits(xs[k - 1], level)
  }

  function Plains(xs: seq<Piece>, k: nat): seq<byte>
    requires k <= |xs|
  {
    if k == 0 then [] else Plains(xs, k - 1) + xs[k - 1].plain
  }

  /** combinedCRC after k blocks. */
  function Combined(xs: seq<Piece>, k: nat): bv32
    requires k <= |xs|
  {
    if k == 0 then 0 else Rotate(Combined(xs, k - 1)) ^ FinalCrc(xs[k - 1].plain)
  }

  function Rotate(c: bv32): bv32 {
    (c << 1) | (c >> 31)
  }

  /** The bit that is pushed out at the top comes in again at the bottom. */
  lemma {:induction false} RotateIs(c: bv32)
    ensures c & 0x8000_0000 == 0 ==> Rotate(c) == c << 1
    ensures c & 0x8000_0000 != 0 ==> Rotate(c) == (c << 1) | 1
  {
    TopBit(c);
  }

  lemma {:induction false} TopBit(c: bv32)
    ensures c >> 31 == if c & 0x8000_0000 != 0 then 1 else 0
  {
  }

  function TrailerThen(k: nat, rest: seq<bit>): seq<bit>
    requires 1 <= k <= 7
    decreases 7 - k
  {
    if k == 7 then rest else ByteThen(EndByte(k), TrailerThen(k + 1, rest))
  }

  /** The 48 bits at the end of the last block are the decimals of the square root of pi. */
  lemma {:induction false} TrailerLayout(rest: seq<bit>)
    ensures TrailerThen(1, rest) == BitsOf(0x1772_4538_5090, 48) + rest
  {
    hide BitsOf;
    var r6 := ByteThen(0x90, rest);
    var r5 := ByteThen(0x50, r6);
    var r4 := ByteThen(0x38, r5);
    var r3 := ByteThen(0x45, r4);
    var r2 := ByteThen(0x72, r3);
    assert TrailerThen(6, rest) == r6 && TrailerThen(4, rest) == r4 && TrailerThen(2, rest) == r2;
    ByteFollows(0x17, 8, 0x72, r3);
    ByteFollows(0x1772, 16, 0x45, r4);
    ByteFollows(0x1772_45, 24, 0x38, r5);
    ByteFollows(0x1772_4538, 32, 0x50, r6);
    ByteFollows(0x1772_4538_50, 40, 0x90, rest);
  }

  /** A stream begins with "BZh" and the digit of its level. */
  lemma {:induction false} MagicLayout(level: nat, rest: seq<bit>)
    requires 1 <= level <= 9
    ensures MagicThen(level, rest) == BitsOf(0x425a_6830 + level, 32) + rest
  {
    hide BitsOf;
    var r4 := ByteThen(0x30 + level, rest);
    var r3 := ByteThen(0x68, r4);
    ByteFollows(0x42, 8, 0x5a, r3);
    ByteFollows(0x425a, 16, 0x68, r4);
    ByteFollows(0x425a68, 24, 0x30 + level, rest);
  }

  /** A number of 32 bits in four bytes. */
  lemma {:induction false} WordLayout(u: nat, rest: seq<bit>)
    requires u < 0x1_0000_0000
    ensures WordThen(u, rest) == BitsOf(u, 32) + rest
  {
    hide BitsOf, Low, Shr;
    var b3, b2, b1, b0 := Low(Shr(u, 24), 8), Low(Shr(u, 16), 8), Low(Shr(u, 8), 8), Low(u, 8);
    FourBytes(u);
    AddByte(u);
    Pow2Values();
    ByteFollows(b3, 8, b2, BitsOf(b1, 8) + (BitsOf(b0, 8) + rest));
    ByteFollows(256 * b3 + b2, 16, b1, BitsOf(b0, 8) + rest);
    ByteFollows(256 * (256 * b3 + b2) + b1, 24, b0, rest);
  }

  function MarkedBits(crc: nat, origPtr: nat, more: seq<bit>): seq<bit> {
    BitsOf(0x3141_5926_5359, 48) + (BitsOf(crc, 32) + (BitsOf(0, 1) + (BitsOf(origPtr, 24) + more)))
  }

  /** A block begins with its mark, its checksum, a zero bit and the place of the original string. */
  lemma {:induction false} BlockLayout(x: Piece, level: nat)
    requires PieceOk(x, level)
    ensures exists more :: PieceBits(x, level) == MarkedBits(CrcWord(x.plain), x.desc.head.origPtr, more)
  {
    hide BitsOf, WordThen, HeaderThen;
    PieceFits(x, level);
    PieceBitsIs(x, level);
    var more := RowFlags(x.desc.inUse, 0, ByteFlags(x.desc.inUse, 0, PlanBits(x.syms, x.desc.selector, x.len, [])));
    var rest := BitsOf(0, 1) + (BitsOf(x.desc.head.origPtr, 24) + more);
    HeaderLayout(WordThen(x.desc.head.crc, rest));
    WordLayout(x.desc.head.crc, rest);
    assert PieceBits(x, level) == MarkedBits(CrcWord(x.plain), x.desc.head.origPtr, more);
  }

  ghost predicate Pieces(xs: seq<Piece>, level: nat) {
    1 <= level <= 9 && forall i {:trigger xs[i]} :: 0 <= i < |xs| ==> PieceOk(xs[i], level)
  }

  /** The bits of a finished stream. */
  ghost function StreamBits(xs: seq<Piece>, level: nat): seq<bit>
    requires Pieces(xs, level)
  {
    MagicThen(level, []) + PiecesBits(xs, level, |xs|) + TrailerThen(1, WordThen(BlockCrc.Word(Combined(xs, |xs|)), []))
  }

  /** What is in front of the blocks and what is behind them. */
  lemma {:induction false} StreamLayout(xs: seq<Piece>, level: nat)
    requires Pieces(xs, level)
    ensures StreamBits(xs, level) == BitsOf(0x425a_6830 + level, 32) + PiecesBits(xs, level, |xs|)
      + (BitsOf(0x1772_4538_5090, 48) + BitsOf(BlockCrc.Word(Combined(xs, |xs|)), 32))
  {
    hide BitsOf, PieceBits, WordThen, MagicThen, TrailerThen;
    var u := BlockCrc.Word(Combined(xs, |xs|));
    MagicLayout(level, []);
    WordLayout(u, []);
    TrailerLayout(WordThen(u, []));
    assert BitsOf(u, 32) + [] == BitsOf(u, 32);
    assert BitsOf(0x425a_6830 + level, 32) + [] == BitsOf(0x425a_6830 + level, 32);
  }

  // ----- decoding it

  lemma {:induction false} MagicFacts(k: nat, level: nat)
    requires 1 <= k <= 4 && 1 <= level <= 9
    ensures var s := Magic(k); Ok(s) && !Final(s) && Need(s) == 8
    ensures Next(Magic(1), 0x42) == Magic(2) && Next(Magic(2), 0x5a) == Magic(3) && Next(Magic(3), 0x68) == Magic(4)
    ensures Next(Magic(4), 0x30 + level) == BlkHdr(level, 1)
  {
  }

  lemma {:induction false} ExecMagic(level: nat, rest: seq<bit>)
    requires 1 <= level <= 9
    ensures Ok(Magic(1)) && Ok(BlkHdr(level, 1))
    ensures Exec(Magic(1), MagicThen(level, rest)) == Exec(BlkHdr(level, 1), rest)
  {
    hide Exec, Ok, Next, Need, Final, BitsOf;
    MagicFacts(1, level);
    MagicFacts(2, level);
    MagicFacts(3, level);
    MagicFacts(4, level);
    ExecByte(Magic(1), 0x42, ByteThen(0x5a, ByteThen(0x68, ByteThen(0x30 + level, rest))));
    ExecByte(Magic(2), 0x5a, ByteThen(0x68, ByteThen(0x30 + level, rest)));
    ExecByte(Magic(3), 0x68, ByteThen(0x30 + level, rest));
    ExecByte(Magic(4), 0x30 + level, rest);
  }

  lemma {:induction false} EndFacts(level: nat, k: nat)
    requires 2 <= k <= 6
    ensures var s := EndHdr(k);
      Ok(s) && !Final(s) && Need(s) == 8 && Next(s, EndByte(k)) == if k < 6 then EndHdr(k + 1) else CombCrc(1, 0)
    ensures var s := BlkHdr(level, 1); Ok(s) && !Final(s) && Need(s) == 8 && Next(s, EndByte(1)) == EndHdr(2)
    ensures TrailerThen(7, []) == []
  {
  }

  lemma {:induction false} ExecEnd(level: nat, k: nat, rest: seq<bit>)
    requires 2 <= k <= 6
    ensures Ok(EndHdr(k)) && Ok(CombCrc(1, 0))
    ensures Exec(EndHdr(k), TrailerThen(k, rest)) == Exec(CombCrc(1, 0), rest)
    decreases 7 - k
  {
    hide Exec, Ok, Next, Need, Final, EndByte, BitsOf;
    EndFacts(level, k);
    CombFacts(1, 0, 0);
    ExecByte(EndHdr(k), EndByte(k), TrailerThen(k + 1, rest));
    if k < 6 { ExecEnd(level, k + 1, rest); }
  }

  lemma {:induction false} CombFacts(k: nat, crc: nat, v: nat)
    requires 1 <= k <= 4
    ensures var s := CombCrc(k, crc);
      Ok(s) && !Final(s) && Need(s) == 8
        && Next(s, v) == if k < 4 then CombCrc(k + 1, crc * 256 + v) else StreamEnd(crc * 256 + v)
    ensures Ok(StreamEnd(crc)) && Final(StreamEnd(crc))
  {
  }

  lemma {:induction false} ExecCombCrc(crc: nat, rest: seq<bit>)
    requires crc < 0x1_0000_0000
    ensures Ok(CombCrc(1, 0))
    ensures Exec(CombCrc(1, 0), WordThen(crc, rest)) == (StreamEnd(crc), rest)
  {
    hide Exec, Ok, Next, Need, Final, EndByte, Low, Shr, BitsOf;
    FourBytes(crc);
    var b3, b2, b1, b0 := Low(Shr(crc, 24), 8), Low(Shr(crc, 16), 8), Low(Shr(crc, 8), 8), Low(crc, 8);
    CombFacts(1, 0, b3);
    ExecByte(CombCrc(1, 0), b3, BitsOf(b2, 8) + (BitsOf(b1, 8) + (BitsOf(b0, 8) + rest)));
    CombFacts(2, b3, b2);
    ExecByte(CombCrc(2, b3), b2, BitsOf(b1, 8) + (BitsOf(b0, 8) + rest));
    CombFacts(3, Shr(crc, 16), b1);
    ExecByte(CombCrc(3, Shr(crc, 16)), b1, BitsOf(b0, 8) + rest);
    CombFacts(4, Shr(crc, 8), b0);
    ExecByte(CombCrc(4, Shr(crc, 8)), b0, rest);
    CombFacts(1, crc, 0);
    ExecFinal(StreamEnd(crc), rest);
  }

  lemma {:induction false} ExecTrailer(level: nat, crc: nat, rest: seq<bit>)
    requires crc < 0x1_0000_0000
    ensures Ok(BlkHdr(level, 1))
    ensures Exec(BlkHdr(level, 1), TrailerThen(1, WordThen(crc, rest))) == (StreamEnd(crc), rest)
  {
    hide Exec, Ok, Next, Need, Final, EndByte, BitsOf, WordThen;
    var word := WordThen(crc, rest);
    EndFacts(level, 2);
    ExecByte(BlkHdr(level, 1), EndByte(1), TrailerThen(2, word));
    ExecEnd(level, 2, word);
    ExecCombCrc(crc, rest);
  }

  // ----- the bits after a number of blocks

  /** What is still to come when k blocks have been read. */
  ghost function From(xs: seq<Piece>, level: nat, k: nat, rest: seq<bit>): seq<bit>
    requires Pieces(xs, level) && k <= |xs|
    decreases |xs| - k
  {
    if k == |xs| then TrailerThen(1, WordThen(BlockCrc.Word(Combined(xs, |xs|)), rest))
    else PieceBits(xs[k], level) + From(xs, level, k + 1, rest)
  }

  lemma {:induction false} TrailerAppend(k: nat, u: nat, rest: seq<bit>)
    requires 1 <= k <= 7
    ensures TrailerThen(k, WordThen(u, [])) + rest == TrailerThen(k, WordThen(u, rest))
    decreases 7 - k
  {
    hide BitsOf, Low, Shr, EndByte;
    if k < 7 {
      TrailerAppend(k + 1, u, rest);
      BitStream.Assoc(BitsOf(EndByte(k), 8), TrailerThen(k + 1, WordThen(u, [])), rest);
    } else {
      var b3, b2, b1, b0 :=
        BitsOf(Low(Shr(u, 24), 8), 8), BitsOf(Low(Shr(u, 16), 8), 8), BitsOf(Low(Shr(u, 8), 8), 8),
          BitsOf(Low(u, 8), 8);
      assert b3 + (b2 + (b1 + (b0 + []))) + rest == b3 + (b2 + (b1 + (b0 + rest)));
    }
  }

  lemma {:induction false} FromPieces(xs: seq<Piece>, level: nat, k: nat, rest: seq<bit>)
    requires Pieces(xs, level) && k <= |xs|
    ensures PiecesBits(xs, level, k) + From(xs, level, k, rest)
         == PiecesBits(xs, level, |xs|) + TrailerThen(1, WordThen(BlockCrc.Word(Combined(xs, |xs|)), rest))
    decreases |xs| - k
  {
    hide PieceBits, PieceOk, WordThen, TrailerThen, Combined;
    if k < |xs| {
      BitStream.Assoc(PiecesBits(xs, level, k), PieceBits(xs[k], level), From(xs, level, k + 1, rest));
      FromPieces(xs, level, k + 1, rest);
    }
  }

  /** A stream is its magic, then everything from block 0 on. */
  lemma {:induction false} StreamFrom(xs: seq<Piece>, level: nat, rest: seq<bit>)
    requires Pieces(xs, level)
    ensures StreamBits(xs, level) + rest == MagicThen(level, From(xs, level, 0, rest))
  {
    hide PieceBits, PieceOk, WordThen, TrailerThen, Combined, MagicThen, From;
    var t := TrailerThen(1, WordThen(BlockCrc.Word(Combined(xs, |xs|)), []));
    TrailerAppend(1, BlockCrc.Word(Combined(xs, |xs|)), rest);
    FromPieces(xs, level, 0, rest);
    MagicAppend(level, From(xs, level, 0, rest));
    var m, p := MagicThen(level, []), PiecesBits(xs, level, |xs|);
    assert m + p + t + rest == m + (p + (t + rest));
    assert PiecesBits(xs, level, 0) + From(xs, level, 0, rest) == From(xs, level, 0, rest);
  }

  lemma {:induction false} MagicAppend(level: nat, rest: seq<bit>)
    requires 1 <= level <= 9
    ensures MagicThen(level, []) + rest == MagicThen(level, rest)
  {
    hide BitsOf;
    var a, b, c, d := BitsOf(0x42, 8), BitsOf(0x5a, 8), BitsOf(0x68, 8), BitsOf(0x30 + level, 8);
    assert a + (b + (c + (d + []))) + rest == a + (b + (c + (d + rest)));
  }

  lemma {:induction false} FromStep(xs: seq<Piece>, level: nat, k: nat, rest: seq<bit>)
    requires Pieces(xs, level) && k <= |xs|
    ensures k < |xs| ==>
      PieceOk(xs[k], level) && From(xs, level, k, rest) == PieceBits(xs[k], level) + From(xs, level, k + 1, rest)
    ensures k == |xs| ==> From(xs, level, k, rest) == TrailerThen(1, WordThen(BlockCrc.Word(Combined(xs, |xs|)), rest))
    ensures BlockCrc.Word(Combined(xs, |xs|)) < 0x1_0000_0000
  {
  }
}
