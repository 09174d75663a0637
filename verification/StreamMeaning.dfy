/** What any sequence of bits stands for as a bzip2 stream: the bytes that come out of it, and how it ends. */
module StreamMeaning {
  import opened Bytes
  import opened RunLength
  import opened BitStream
  import opened DecodeMachine
  import opened WireFormat
  import opened BlockFormat
  import opened StreamFormat
  import opened BlockOutput

  /** With its trailer, by an error, or before its end. */
  datatype Ending = Complete | Broken | Cut

  datatype Meaning = Meaning(plain: seq<byte>, ending: Ending)

  /** The bytes that a decoded block stands for. */
  ghost function PlainOf(block: Block): seq<byte>
    requires block.head.origPtr < |block.column|
  {
    Expand(BlockOf(block.column, block.head.origPtr))
  }

  /** Its code is whole, and its checksum is that of the bytes. */
  ghost predicate Intact(block: Block) {
    && block.head.origPtr < |block.column| && WellFormed(BlockOf(block.column, block.head.origPtr))
    && block.head.crc == CrcWord(PlainOf(block))
  }

  /** Where the machine gets to, and which bits are left then. */
  lemma {:induction false} Destined(s: State, bits: seq<bit>)
    requires Ok(s) && LevelOk(s)
    ensures var (t, rest) := Exec(s, bits);
      Ok(t) && LevelOk(t) && |rest| <= |bits| && (t.Output? ==> if s.Output? then rest == bits else |rest| < |bits|)
    decreases |bits|
  {
    hide Next, Ok, LevelOk;
    if !Final(s) && |bits| >= Need(s) {
      var n := Need(s);
      NextOk(s, Value(bits[..n]));
      NextLevel(s, Value(bits[..n]));
      Destined(Next(s, Value(bits[..n])), bits[n..]);
    }
  }

  lemma {:induction false} HeaderOk(level: nat)
    requires 1 <= level <= 9
    ensures Ok(BlkHdr(level, 1)) && LevelOk(BlkHdr(level, 1)) && !Final(BlkHdr(level, 1))
  {
  }

  /** What comes of it from state s on; sum is the combined checksum of the blocks before. */
  ghost function MeaningOf(s: State, bits: seq<bit>, sum: bv32): Meaning
    requires Ok(s) && LevelOk(s)
    decreases |bits|, if s.Output? then 3 else 1
  {
    Destined(s, bits);
    After(Exec(s, bits).0, Exec(s, bits).1, sum)
  }

  /** What comes of it when the machine has got as far as it can. */
  ghost function After(t: State, rest: seq<bit>, sum: bv32): Meaning
    requires Ok(t) && LevelOk(t)
    decreases |rest|, if t.Output? then 2 else 0
  {
    match t
    case Output(block) =>
      if !Intact(block) then Meaning([], Broken) else
        HeaderOk(block.head.level);
        var more := MeaningOf(BlkHdr(block.head.level, 1), rest, Rotate(sum) ^ FinalCrc(PlainOf(block)));
        Meaning(PlainOf(block) + more.plain, more.ending)
    case StreamEnd(crc) => Meaning([], if crc == BlockCrc.Word(sum) then Complete else Broken)
    case DataError => Meaning([], Broken)
    case _ => Meaning([], Cut)
  }

  lemma {:induction false} MeaningIs(s: State, bits: seq<bit>, sum: bv32)
    requires Ok(s) && LevelOk(s)
    ensures Ok(Exec(s, bits).0) && LevelOk(Exec(s, bits).0)
    ensures MeaningOf(s, bits, sum) == After(Exec(s, bits).0, Exec(s, bits).1, sum)
  {
    Destined(s, bits);
  }

  /** What the machine has done already makes no difference. */
  lemma {:induction false} MeaningResumes(s: State, a: seq<bit>, b: seq<bit>, sum: bv32)
    requires Ok(s) && LevelOk(s)
    ensures Ok(Exec(s, a).0) && LevelOk(Exec(s, a).0)
    ensures MeaningOf(s, a + b, sum) == MeaningOf(Exec(s, a).0, Exec(s, a).1 + b, sum)
  {
    hide *;
    ExecResumes(s, a, b);
    MeaningIs(s, a, sum);
    MeaningIs(s, a + b, sum);
    MeaningIs(Exec(s, a).0, Exec(s, a).1 + b, sum);
  }

  lemma {:induction false} FinalIs(s: State)
    ensures Final(s) <==> s.Output? || s.StreamEnd? || s.DataError?
  {
  }

  lemma {:induction false} AfterIs(t: State, rest: seq<bit>, sum: bv32)
    requires Ok(t) && LevelOk(t)
    ensures t.StreamEnd? ==>
      After(t, rest, sum) == Meaning([], if t.crc == BlockCrc.Word(sum) then Complete else Broken)
    ensures t.DataError? ==> After(t, rest, sum) == Meaning([], Broken)
    ensures !Final(t) ==> After(t, rest, sum) == Meaning([], Cut)
    ensures t.Output? && !Intact(t.block) ==> After(t, rest, sum) == Meaning([], Broken)
  {
    FinalIs(t);
    hide Intact, MeaningOf, Final;
  }

  lemma {:induction false} AfterBlock(block: Block, rest: seq<bit>, sum: bv32)
    requires Ok(Output(block)) && LevelOk(Output(block)) && Intact(block)
    ensures block.head.origPtr < |block.column| && Ok(BlkHdr(block.head.level, 1))
      && LevelOk(BlkHdr(block.head.level, 1))
    ensures var more := MeaningOf(BlkHdr(block.head.level, 1), rest, Rotate(sum) ^ FinalCrc(PlainOf(block)));
      After(Output(block), rest, sum) == Meaning(PlainOf(block) + more.plain, more.ending)
  {
    HeaderOk(block.head.level);
    hide PlainOf, MeaningOf;
  }

  /** The same behind bytes that are out already. */
  lemma {:induction false} AfterBlockBehind(w: seq<byte>, t: State, rest: seq<bit>, sum: bv32)
    requires t.Output? && Ok(t) && LevelOk(t) && Intact(t.block)
    ensures t.block.head.origPtr < |t.block.column| && Ok(BlkHdr(t.block.head.level, 1))
      && LevelOk(BlkHdr(t.block.head.level, 1))
    ensures var more := MeaningOf(BlkHdr(t.block.head.level, 1), rest, Rotate(sum) ^ FinalCrc(PlainOf(t.block)));
      Meaning(w + After(t, rest, sum).plain, After(t, rest, sum).ending)
        == Meaning(w + PlainOf(t.block) + more.plain, more.ending)
  {
    hide Intact, Rotate, FinalCrc, MeaningOf, After, PlainOf, Ok, LevelOk;
    AfterBlock(t.block, rest, sum);
    var more := MeaningOf(BlkHdr(t.block.head.level, 1), rest, Rotate(sum) ^ FinalCrc(PlainOf(t.block)));
    assert w + (PlainOf(t.block) + more.plain) == w + PlainOf(t.block) + more.plain;
  }

  /** Once the machine stands at an end, or has not enough bits. */
  lemma {:induction false} MeaningHere(s: State, bits: seq<bit>, sum: bv32)
    requires Ok(s) && LevelOk(s) && (Final(s) || |bits| < Need(s))
    ensures MeaningOf(s, bits, sum) == After(s, bits, sum)
  {
    hide After, MeaningOf, Final, Ok, LevelOk, Need;
    MeaningIs(s, bits, sum);
    if Final(s) { ExecFinal(s, bits); } else { ExecShort(s, bits); }
  }

  // ----- the streams of the compressor

  lemma {:induction false} OneMore(xs: seq<Piece>, k: nat)
    requires k < |xs|
    ensures Plains(xs, k + 1) == Plains(xs, k) + xs[k].plain
    ensures Combined(xs, k + 1) == Rotate(Combined(xs, k)) ^ FinalCrc(xs[k].plain)
  {
  }

  ghost predicate AtPiece(s: State, x: Piece, level: nat) {
    PieceOk(x, level) && s == Output(Block(x.desc.head, Column(x)))
  }

  /** Where the machine gets to from the header of block k. */
  lemma {:induction false} Destination(xs: seq<Piece>, level: nat, k: nat, tail: seq<bit>)
    requires Pieces(xs, level) && k <= |xs|
    ensures Ok(BlkHdr(level, 1))
    ensures var (s, r) := Exec(BlkHdr(level, 1), From(xs, level, k, tail));
      if k < |xs| then AtPiece(s, xs[k], level) && r == From(xs, level, k + 1, tail)
      else s == StreamEnd(BlockCrc.Word(Combined(xs, |xs|))) && r == tail
  {
    hide Exec, Ok, PieceOk, PieceBits, Pieces, From, Combined, TrailerThen, WordThen;
    FromStep(xs, level, k, tail);
    if k < |xs| {
      ExecPiece(xs[k], level, From(xs, level, k + 1, tail));
    } else {
      ExecTrailer(level, BlockCrc.Word(Combined(xs, |xs|)), tail);
    }
  }

  /** The block of a piece stands for its plain bytes. */
  lemma {:induction false} PieceHolds(s: State, x: Piece, level: nat)
    requires AtPiece(s, x, level)
    ensures s.Output? && Intact(s.block) && PlainOf(s.block) == x.plain && s.block.head.level == level
  {
    hide Expand, WellFormed, Describes, BlockOf;
    PieceDecodes(x, level);
  }

  lemma {:induction false} PiecesLevel(xs: seq<Piece>, level: nat)
    requires Pieces(xs, level)
    ensures 1 <= level <= 9
  {
  }

  /** The blocks from k on, and before them those up to k. */
  ghost predicate Remaining(m: Meaning, xs: seq<Piece>, k: nat)
    requires k <= |xs|
  {
    m.ending == Complete && Plains(xs, k) + m.plain == Plains(xs, |xs|)
  }

  lemma {:induction false} OneLess(m: Meaning, xs: seq<Piece>, k: nat)
    requires k < |xs| && Remaining(m, xs, k + 1)
    ensures Remaining(Meaning(xs[k].plain + m.plain, m.ending), xs, k)
  {
    OneMore(xs, k);
    assert Plains(xs, k) + (xs[k].plain + m.plain) == (Plains(xs, k) + xs[k].plain) + m.plain;
  }

  lemma {:induction false} MeaningOfPiece(xs: seq<Piece>, level: nat, k: nat, tail: seq<bit>)
    requires Pieces(xs, level) && k < |xs|
    ensures Ok(BlkHdr(level, 1)) && LevelOk(BlkHdr(level, 1))
    ensures var more := MeaningOf(BlkHdr(level, 1), From(xs, level, k + 1, tail), Combined(xs, k + 1));
      MeaningOf(BlkHdr(level, 1), From(xs, level, k, tail), Combined(xs, k))
        == Meaning(xs[k].plain + more.plain, more.ending)
  {
    hide *;
    PiecesLevel(xs, level);
    HeaderOk(level);
    Destination(xs, level, k, tail);
    MeaningIs(BlkHdr(level, 1), From(xs, level, k, tail), Combined(xs, k));
    var (s, r) := Exec(BlkHdr(level, 1), From(xs, level, k, tail));
    PieceHolds(s, xs[k], level);
    AfterBlock(s.block, r, Combined(xs, k));
    OneMore(xs, k);
  }

  lemma {:induction false} MeaningOfEnd(xs: seq<Piece>, level: nat, tail: seq<bit>)
    requires Pieces(xs, level)
    ensures Ok(BlkHdr(level, 1)) && LevelOk(BlkHdr(level, 1))
    ensures MeaningOf(BlkHdr(level, 1), From(xs, level, |xs|, tail), Combined(xs, |xs|)) == Meaning([], Complete)
  {
    hide *;
    PiecesLevel(xs, level);
    HeaderOk(level);
    Destination(xs, level, |xs|, tail);
    MeaningIs(BlkHdr(level, 1), From(xs, level, |xs|, tail), Combined(xs, |xs|));
    AfterIs(Exec(BlkHdr(level, 1), From(xs, level, |xs|, tail)).0, tail, Combined(xs, |xs|));
  }

  lemma {:induction false} MeaningFrom(xs: seq<Piece>, level: nat, k: nat, tail: seq<bit>)
    requires Pieces(xs, level) && k <= |xs|
    ensures Ok(BlkHdr(level, 1)) && LevelOk(BlkHdr(level, 1))
    ensures Remaining(MeaningOf(BlkHdr(level, 1), From(xs, level, k, tail), Combined(xs, k)), xs, k)
    decreases |xs| - k
  {
    hide *;
    if k < |xs| {
      MeaningOfPiece(xs, level, k, tail);
      MeaningFrom(xs, level, k + 1, tail);
      OneLess(MeaningOf(BlkHdr(level, 1), From(xs, level, k + 1, tail), Combined(xs, k + 1)), xs, k);
    } else {
      MeaningOfEnd(xs, level, tail);
      NoneLeft(xs);
    }
  }

  lemma {:induction false} NoneLeft(xs: seq<Piece>)
    ensures Remaining(Meaning([], Complete), xs, |xs|)
  {
  }

  lemma {:induction false} NothingYet(xs: seq<Piece>)
    ensures Plains(xs, 0) == [] && Combined(xs, 0) == 0
  {
  }

  lemma {:induction false} AllLeft(m: Meaning, xs: seq<Piece>)
    requires Remaining(m, xs, 0)
    ensures m == Meaning(Plains(xs, |xs|), Complete)
  {
    NothingYet(xs);
  }

  lemma {:induction false} MagicOk()
    ensures Ok(Magic(1)) && LevelOk(Magic(1))
  {
  }

  /** What any bytes stand for. */
  ghost function MeaningOfBytes(z: seq<byte>): Meaning {
    MagicOk();
    MeaningOf(Magic(1), ByteBits(z), 0)
  }

  /** A stream of the compressor stands for what was compressed, whatever comes behind it. */
  lemma {:induction false} StreamMeans(xs: seq<Piece>, level: nat, tail: seq<bit>)
    requires Pieces(xs, level)
    ensures Ok(Magic(1)) && LevelOk(Magic(1))
    ensures MeaningOf(Magic(1), StreamBits(xs, level) + tail, 0) == Meaning(Plains(xs, |xs|), Complete)
  {
    hide *;
    PiecesLevel(xs, level);
    HeaderOk(level);
    MagicOk();
    StreamFrom(xs, level, tail);
    ExecMagic(level, From(xs, level, 0, tail));
    NothingYet(xs);
    MeaningFrom(xs, level, 0, tail);
    AllLeft(MeaningOf(BlkHdr(level, 1), From(xs, level, 0, tail), 0), xs);
    MeaningIs(Magic(1), StreamBits(xs, level) + tail, 0);
    MeaningIs(BlkHdr(level, 1), From(xs, level, 0, tail), 0);
  }
}
