/** BZ2_bzDecompress: decoding and output stage together. Whatever the input, what comes out is what it means. */
module Decompressor {
  import opened Bytes
  import opened RunLength
  import opened BitStream
  import opened DecodeMachine
  import opened BlockDecoder
  import opened StreamFormat
  import opened StreamMeaning
  import opened BlockOutput
  import opened Protocol

  // ----- bits are used up on the way to a block

  lemma {:induction false} ExecConsumes(s: State, bits: seq<bit>)
    requires Ok(s) && !Final(s) && Final(Exec(s, bits).0)
    ensures |Exec(s, bits).1| < |bits|
    decreases |bits|
  {
    hide Next, Final, Ok;
    var n := Need(s);
    NextOk(s, Value(bits[..n]));
    var s1 := Next(s, Value(bits[..n]));
    if Final(s1) { ExecFinal(s1, bits[n..]); } else { ExecConsumes(s1, bits[n..]); }
  }

  /** What a call may return of a stream that means m, with out as the output so far; nothing comes later if last. */
  ghost predicate Result(status: ReturnCode, m: Meaning, out: seq<byte>, last: bool, room: nat) {
    match status
    case STREAM_END => m == Meaning(out, Complete)
    case DATA_ERROR => m.ending == Broken
    case OK =>
      && (m.ending != Broken ==> out <= m.plain)
      && (m.ending == Complete && last ==> room == 0 && out != m.plain)
      && (last && room > 0 ==> m == Meaning(out, Cut))
    case _ => false
  }

  class BzDecompressor {
    const small: bool
    const decoder: Decoder
    var blk: DState
    var calculatedCombinedCRC: bv32
    var idle: bool
    ghost var r0: Registers
    ghost var emitted: seq<byte>
    ghost var written: seq<byte>

    /** The output stage stands somewhere in its block. */
    ghost predicate BlockOk()
      reads this`blk, this`emitted, this`r0, blk`column, blk`cycle, blk`nblock, blk`origPtr, blk`regs,
            blk.cftab, blk.tt, blk.ll16, blk.ll4
    {
      && blk.Tables() && blk.Progress(blk.regs, emitted, r0) && blk.origPtr < |blk.column| == blk.nblock
      && r0.used == 1 && r0.len == 0 && r0.crc == 0xffff_ffff
    }

    ghost predicate AtBlock()
      reads this`blk, this`emitted, this`r0, blk`column, blk`cycle, blk`nblock, blk`origPtr, blk`regs,
            blk.cftab, blk.tt, blk.ll16, blk.ll4, decoder`state
    {
      decoder.state.Output? ==>
        BlockOk() && blk.column == decoder.state.block.column && blk.origPtr == decoder.state.block.head.origPtr
    }

    ghost predicate Valid()
      reads this`blk, this`emitted, this`r0, blk`column, blk`cycle, blk`nblock, blk`origPtr, blk`regs,
            blk.cftab, blk.tt, blk.ll16, blk.ll4, decoder, decoder.reader, decoder.seqToUnseq,
            decoder.mtf, decoder.mtf.mtfa, decoder.mtf.mtfbase, (set t | t in decoder.tables :: t.limit),
            (set t | t in decoder.tables :: t.base), (set t | t in decoder.tables :: t.perm)
    {
      decoder.Valid() && LevelOk(decoder.state) && AtBlock()
    }

    /** Everything output so far. */
    ghost function Produced(): seq<byte>
      reads this`written, this`emitted, decoder`state
    {
      if decoder.state.Output? then written + emitted else written
    }

    /** What all the input means, future being what is still to come of it: the bytes written, and what is ahead. */
    ghost function Due(future: seq<byte>): Meaning
      reads this`written, this`calculatedCombinedCRC, decoder`state, decoder.reader
    {
      if Ok(decoder.state) && LevelOk(decoder.state) then
        var m := MeaningOf(decoder.state, decoder.reader.Unread() + ByteBits(future), calculatedCombinedCRC);
        Meaning(written + m.plain, m.ending)
      else Meaning(written, Broken)
    }

    constructor (small: bool)
      ensures Valid() && !idle && fresh(decoder) && fresh(decoder.reader) && fresh(blk) && Produced() == []
      ensures fresh(decoder.seqToUnseq) && fresh(decoder.mtf) && fresh(decoder.mtf.mtfa) && fresh(decoder.mtf.mtfbase)
      ensures decoder.state == Magic(1) && decoder.reader.Unread() == [] && written == [] && calculatedCombinedCRC == 0
    {
      this.small := small;
      decoder := new Decoder();
      blk := new DState(1, small);
      calculatedCombinedCRC, idle, written, emitted := 0, false, [], [];
      r0 := Registers(0, 0, 0, 0, 0, 0);
    }

    lemma {:induction false} DueStart(input: seq<byte>)
      requires decoder.state == Magic(1) && decoder.reader.Unread() == [] && written == [] && calculatedCombinedCRC == 0
      ensures Due(input) == MeaningOfBytes(input)
    {
      hide ByteBits, MeaningOf;
      MagicOk();
      assert decoder.reader.Unread() + ByteBits(input) == ByteBits(input);
    }

    lemma {:induction false} DueIs(future: seq<byte>)
      requires Ok(decoder.state) && LevelOk(decoder.state)
      ensures var m := MeaningOf(decoder.state, decoder.reader.Unread() + ByteBits(future), calculatedCombinedCRC);
        Due(future) == Meaning(written + m.plain, m.ending)
    {
      hide ByteBits, MeaningOf;
    }

    lemma {:induction false} DecoderIs()
      requires decoder.Valid()
      ensures Ok(decoder.state) && decoder.reader.Valid() && (decoder.Stopped() <==> Final(decoder.state))
      ensures decoder.Stopped() ==> decoder.point == Early(decoder.state)
    {
      decoder.StoppedIs();
    }

    lemma {:induction false} NotAtBlock()
      requires decoder.Valid() && LevelOk(decoder.state) && !decoder.state.Output?
      ensures Valid()
    {
    }

    // ----- the decoding stage

    /** A block has been decoded: set up its output. */
    method StartBlock()
      requires decoder.Valid() && LevelOk(decoder.state) && decoder.state.Output?
      modifies this`blk, this`r0, this`emitted
      ensures Valid() && emitted == [] && fresh(blk)
    {
      hide *;
      LevelIs(decoder.state);
      DecoderIs();
      FinalIs(decoder.state);
      var b := decoder.point.state.block;
      blk := NewBlock(b.head.level, b.column, b.head.origPtr);
      r0, emitted := blk.regs, [];
      blk.ProgressStart(r0);
      BlockStarts();
    }

    method NewBlock(level: nat, column: seq<byte>, origPtr: nat) returns (d: DState)
      requires 1 <= level <= 9 && origPtr < |column| <= BLOCK_UNIT * level
      ensures fresh(d) && d.Tables() && d.column == column && d.origPtr == origPtr && |d.column| == d.nblock
      ensures d.origPtr < |d.column| && d.Between(d.regs.tPos, d.regs.used, d.regs.k0)
      ensures d.regs.used == 1 && d.regs.len == 0 && d.regs.crc == 0xffff_ffff
    {
      d := new DState(level, small);
      var unzftab := d.Load(column, origPtr);
      d.BeginOutput(unzftab);
    }

    lemma {:induction false} BlockStarts()
      requires decoder.Valid() && LevelOk(decoder.state) && decoder.state.Output? && emitted == []
      requires blk.Tables() && blk.Progress(blk.regs, [], r0) && blk.origPtr < |blk.column| == blk.nblock
      requires r0.used == 1 && r0.len == 0 && r0.crc == 0xffff_ffff
      requires blk.column == decoder.state.block.column && blk.origPtr == decoder.state.block.head.origPtr
      ensures Valid()
    {
    }

    /** Without enough bits, and with none to come, the stream is cut. */
    lemma {:induction false} DueCut(future: seq<byte>)
      requires decoder.Valid() && LevelOk(decoder.state) && !Final(decoder.state)
      requires |decoder.reader.Unread()| < Need(decoder.state) && future == []
      ensures Due(future) == Meaning(written, Cut)
    {
      hide *;
      DecoderIs();
      DueIs(future);
      var bits := decoder.reader.Unread() + ByteBits(future);
      assert bits == decoder.reader.Unread() by { BitsOfNone(future); }
      MeaningHere(decoder.state, bits, calculatedCombinedCRC);
      AfterIs(decoder.state, bits, calculatedCombinedCRC);
    }

    /** One call of BZ2_decompress. */
    method Decode(strm: BzStream, ghost later: seq<byte>)
      requires decoder.Valid() && LevelOk(decoder.state) && !Final(decoder.state) && strm as object != decoder
        && strm as object != decoder.reader
      requires strm as object != this
      modifies strm`input, decoder, decoder.reader, decoder.seqToUnseq, decoder.mtf, decoder.mtf.mtfa,
               decoder.mtf.mtfbase, this`blk, this`r0, this`emitted
      ensures Valid() && (decoder.state.Output? ==> emitted == [])
      ensures Final(decoder.state) ==>
        |decoder.reader.Unread()| + 8 * |strm.input| < old(|decoder.reader.Unread()| + 8 * |strm.input|)
      ensures !Final(decoder.state) ==> strm.input == []
      ensures blk == old(blk) || fresh(blk)
      ensures Due(strm.input + later) == old(Due(strm.input + later))
      ensures !Final(decoder.state) && later == [] ==> Due(strm.input + later) == Meaning(written, Cut)
    {
      hide *;
      ghost var s0, u0, i0 := decoder.state, decoder.reader.Unread(), strm.input;
      DecoderIs();
      DueIs(i0 + later);
      FutureBits(u0, i0, later);
      ExecLevel(s0, u0 + ByteBits(i0));
      MeaningResumes(s0, u0 + ByteBits(i0), ByteBits(later), calculatedCombinedCRC);
      var used := decoder.Decompress(strm.input);
      strm.input := strm.input[used..];
      DecoderIs();
      if Final(decoder.state) { ExecConsumes(s0, u0 + ByteBits(i0)); }
      FinalIs(s0);
      FutureBits(decoder.reader.Unread(), strm.input, later);
      DueIs(strm.input + later);
      if !Final(decoder.state) && later == [] { DueCut(strm.input + later); }
      FinalIs(decoder.state);
      if decoder.Stopped() && decoder.point.state.Output? {
        StartBlock();
      } else {
        NotAtBlock();
      }
      DueIs(strm.input + later);
      ByteBitsSize(i0);
      ByteBitsSize(strm.input);
    }

    // ----- the output stage

    lemma {:induction false} BlockIs()
      requires Valid() && decoder.state.Output?
      ensures BlockOk() && blk.column == decoder.state.block.column && blk.origPtr == decoder.state.block.head.origPtr
      ensures blk.Tables() && blk.Progress(blk.regs, emitted, r0) && blk.origPtr < |blk.column| == blk.nblock
      ensures r0.used == 1 && r0.len == 0 && r0.crc == 0xffff_ffff
      ensures decoder.Valid() && LevelOk(decoder.state)
    {
    }

    /** Where the output stage stands, the meaning of the block ahead. */
    lemma {:induction false} DueAtBlock(future: seq<byte>)
      requires Valid() && decoder.state.Output?
      ensures Ok(decoder.state) && LevelOk(decoder.state)
      ensures var m := After(decoder.state, decoder.reader.Unread() + ByteBits(future), calculatedCombinedCRC);
        Due(future) == Meaning(written + m.plain, m.ending)
    {
      hide *;
      BlockIs();
      DecoderIs();
      FinalIs(decoder.state);
      DueIs(future);
      MeaningHere(decoder.state, decoder.reader.Unread() + ByteBits(future), calculatedCombinedCRC);
    }

    /** The code of the block is whole if and only if the output stage gets to its end. */
    lemma {:induction false} BlockPlain()
      requires Valid() && decoder.state.Output?
      ensures decoder.state.block.head.origPtr < |decoder.state.block.column|
      ensures Intact(decoder.state.block) ==> blk.Sound(r0.used) && emitted <= PlainOf(decoder.state.block)
      ensures blk.Finished() ==>
        emitted == PlainOf(decoder.state.block) && BlockCrc.Final(blk.regs.crc) == FinalCrc(emitted)
      ensures blk.Finished() ==>
        (Intact(decoder.state.block) <==> decoder.state.block.head.crc == CrcWord(emitted))
      ensures Intact(decoder.state.block) && !blk.Finished() ==> emitted != PlainOf(decoder.state.block)
    {
      hide *;
      BlockIs();
      blk.WholeBlock(r0);
      blk.FinishedIs();
      blk.ProgressDone(blk.regs, emitted, r0);
      if blk.Sound(r0.used) && !blk.Finished() { blk.ProgressUnfinished(blk.regs, emitted, r0); }
      IntactIs(decoder.state.block);
      CrcIs(emitted);
    }

    /** As long as the block is not out, output is missing. */
    lemma {:induction false} BlockMissing(future: seq<byte>)
      requires Valid() && decoder.state.Output? && !blk.Finished()
      ensures Due(future).ending != Broken ==> Produced() <= Due(future).plain && Produced() != Due(future).plain
    {
      hide *;
      BlockPlain();
      DueAtBlock(future);
      ProducedIs();
      var b, rest := decoder.state.block, decoder.reader.Unread() + ByteBits(future);
      AfterIs(decoder.state, rest, calculatedCombinedCRC);
      if Intact(b) {
        AfterBlock(b, rest, calculatedCombinedCRC);
        var more := After(decoder.state, rest, calculatedCombinedCRC).plain;
        Shorter(written, emitted, PlainOf(b), more);
      }
    }

    /** A block whose code is not whole, or whose checksum is wrong. */
    lemma {:induction false} BlockBroken(future: seq<byte>)
      requires Valid() && decoder.state.Output? && !Intact(decoder.state.block)
      ensures Due(future).ending == Broken
    {
      hide *;
      DueAtBlock(future);
      AfterIs(decoder.state, decoder.reader.Unread() + ByteBits(future), calculatedCombinedCRC);
    }

    lemma {:induction false} CrcIs(plain: seq<byte>)
      ensures BlockCrc.Final(BlockCrc.UpdateAll(0xffff_ffff, plain)) == FinalCrc(plain)
      ensures BlockCrc.Word(FinalCrc(plain)) == CrcWord(plain)
    {
    }

    lemma {:induction false} BlockContinues()
      requires decoder.Valid() && LevelOk(decoder.state) && decoder.state.Output?
      requires blk.Tables() && blk.Progress(blk.regs, emitted, r0) && blk.origPtr < |blk.column| == blk.nblock
      requires r0.used == 1 && r0.len == 0 && r0.crc == 0xffff_ffff
      requires blk.column == decoder.state.block.column && blk.origPtr == decoder.state.block.head.origPtr
      ensures Valid()
    {
    }

    /** Writes what fits of the block in hand. */
    method WriteOut(strm: BzStream) returns (corrupt: bool)
      requires Valid() && decoder.state.Output?
      requires strm as object != this && strm as object != decoder && strm as object != decoder.reader
        && strm as object != blk
      modifies strm`avail_out, strm`output, blk`regs, this`emitted
      ensures corrupt ==> !blk.Sound(r0.used)
      ensures !corrupt ==> Valid() && (strm.avail_out == 0 || blk.Finished())
      ensures !corrupt ==> Flow(strm.output, emitted, old(strm.output), old(emitted))
      ensures |strm.output| + strm.avail_out == |old(strm.output)| + old(strm.avail_out)
    {
      hide *;
      BlockIs();
      var w;
      ghost var e0, o0 := emitted, strm.output;
      corrupt, w := blk.DrainStep(strm.avail_out, emitted, r0);
      if corrupt { return; }
      strm.output := strm.output + w;
      strm.avail_out := strm.avail_out - |w|;
      emitted := emitted + w;
      FlowIs(strm.output, emitted, o0, e0);
      DecoderIs();
      BlockContinues();
    }

    lemma {:induction false} ProducedIs()
      ensures Produced() == if decoder.state.Output? then written + emitted else written
    {
    }

    /** What is due when the block in hand is intact. */
    lemma {:induction false} DueNext(future: seq<byte>)
      requires Valid() && decoder.state.Output? && Intact(decoder.state.block)
      ensures Ok(BlkHdr(decoder.state.block.head.level, 1)) && LevelOk(BlkHdr(decoder.state.block.head.level, 1))
      ensures decoder.state.block.head.origPtr < |decoder.state.block.column|
      ensures var m := MeaningOf(BlkHdr(decoder.state.block.head.level, 1), decoder.reader.Unread() + ByteBits(future),
                                 Rotate(calculatedCombinedCRC) ^ FinalCrc(PlainOf(decoder.state.block)));
        Due(future) == Meaning(written + PlainOf(decoder.state.block) + m.plain, m.ending)
    {
      hide *;
      DueAtBlock(future);
      AfterBlockBehind(written, decoder.state, decoder.reader.Unread() + ByteBits(future), calculatedCombinedCRC);
    }

    /** The block is out: if its checksum is right, on to the next block header. */
    method NextBlock(ghost future: seq<byte>) returns (corrupt: bool)
      requires Valid() && decoder.state.Output? && blk.Finished()
      modifies this`written, this`calculatedCombinedCRC, decoder`state, decoder`point
      ensures !corrupt ==> Valid() && decoder.state.BlkHdr? && Produced() == old(Produced())
      ensures !corrupt ==> Due(future) == old(Due(future))
      ensures corrupt ==> old(Due(future)).ending == Broken
    {
      hide *;
      BlockIs();
      BlockPlain();
      ProducedIs();
      LevelIs(decoder.state);
      CrcIs(emitted);
      var crc := BlockCrc.Final(blk.regs.crc);
      DecoderIs();
      FinalIs(decoder.state);
      if BlockCrc.Word(crc) != decoder.point.state.block.head.crc {
        BlockBroken(future);
        return true;
      }
      DueNext(future);
      calculatedCombinedCRC := Rotate(calculatedCombinedCRC) ^ crc;
      HeaderOk(decoder.state.block.head.level);
      decoder.NextHeader(decoder.point.state.block.head.level);
      written := written + emitted;
      DecoderIs();
      NotAtBlock();
      DueIs(future);
      ProducedIs();
      corrupt := false;
    }

    /** The first half of the loop in BZ2_bzDecompress. */
    method OutputStage(strm: BzStream, ghost future: seq<byte>) returns (corrupt: bool, done: bool)
      requires Valid() && decoder.state.Output?
      requires strm as object != this && strm as object != decoder && strm as object != decoder.reader
        && strm as object != blk
      modifies strm`avail_out, strm`output, blk`regs, this`emitted, this`written, this`calculatedCombinedCRC,
        decoder`state, decoder`point
      ensures !corrupt ==> Valid() && Flow(strm.output, Produced(), old(strm.output), old(Produced()))
      ensures |strm.output| + strm.avail_out == |old(strm.output)| + old(strm.avail_out)
      ensures !corrupt && !done ==> strm.avail_out == 0 && decoder.state.Output? && !blk.Finished()
      ensures !corrupt && done ==> decoder.state.BlkHdr?
      ensures !corrupt ==> Due(future) == old(Due(future))
      ensures corrupt ==> old(Due(future)).ending == Broken
    {
      hide *;
      ghost var o0, e0 := strm.output, emitted;
      BlockPlain();
      DueAtBlock(future);
      ghost var due := Due(future);
      if !Intact(decoder.state.block) { BlockBroken(future); }
      ProducedIs();
      corrupt := WriteOut(strm);
      done := false;
      if corrupt { return; }
      DueAtBlock(future);
      ProducedIs();
      FlowBehind(written, strm.output, emitted, o0, e0);
      if !blk.Finished() { return; }
      corrupt := NextBlock(future);
      done := true;
    }

    /** One turn of the loop in BZ2_bzDecompress: the status is returned unless the loop goes on. */
    method Turn(strm: BzStream, ghost later: seq<byte>) returns (goOn: bool, status: ReturnCode)
      requires Valid() && !idle && !decoder.state.StreamEnd? && !decoder.state.DataError?
      requires strm as object != this && strm as object != decoder && strm as object != decoder.reader
        && strm as object != blk
      modifies this, strm, blk, decoder, decoder.reader, decoder.seqToUnseq, decoder.mtf, decoder.mtf.mtfa,
        decoder.mtf.mtfbase
      ensures goOn || status == OK || status == STREAM_END || status == DATA_ERROR
      ensures goOn || status != DATA_ERROR ==>
        Valid() && Flow(strm.output, Produced(), old(strm.output), old(Produced())) && (blk == old(blk) || fresh(blk))
      ensures |strm.output| + strm.avail_out == |old(strm.output)| + old(strm.avail_out)
      ensures goOn || status == OK ==> !idle && !decoder.state.StreamEnd? && !decoder.state.DataError?
      ensures !goOn && status == OK ==> strm.avail_out == 0 || strm.input == []
      ensures !goOn && status == STREAM_END ==> idle
      ensures goOn ==> |decoder.reader.Unread()| + 8 * |strm.input| < old(|decoder.reader.Unread()| + 8 * |strm.input|)
      ensures goOn || status != DATA_ERROR ==> Due(strm.input + later) == old(Due(strm.input + later))
      ensures !goOn ==> Result(status, old(Due(strm.input + later)), Produced(), later == [], strm.avail_out)
    {
      hide *;
      FlowNone(strm.output, Produced());
      goOn := false;
      ghost var due := Due(strm.input + later);
      FinalIs(decoder.state);
      ValidIs();
      DecoderIs();
      if decoder.Stopped() && decoder.point.state.Output? {
        var corrupt, done := OutputStage(strm, strm.input + later);
        ResultIs(due, Produced(), later == [], strm.avail_out);
        if corrupt { return false, DATA_ERROR; }
        if !done {
          BlockMissing(strm.input + later);
          return false, OK;
        }
        FinalIs(decoder.state);
      }
      ValidIs();
      ProducedIs();
      Decode(strm, later);
      ProducedIs();
      FinalIs(decoder.state);
      NoneEmitted(written, emitted);
      ValidIs();
      DecoderIs();
      Decoded(strm.input + later);
      ResultIs(due, Produced(), later == [], strm.avail_out);
      if decoder.Stopped() && decoder.point.state.StreamEnd? {
        if BlockCrc.Word(calculatedCombinedCRC) != decoder.point.state.crc { return false, DATA_ERROR; }
        idle := true;
        DueIs(strm.input + later);
        return false, STREAM_END;
      }
      if decoder.Stopped() && decoder.point.state.DataError? { return false, DATA_ERROR; }
      return decoder.Stopped() && decoder.point.state.Output?, OK;
    }

    /** What is due after a call of BZ2_decompress. */
    lemma {:induction false} Decoded(future: seq<byte>)
      requires Valid()
      ensures written <= Due(future).plain
      ensures decoder.state.StreamEnd? && decoder.state.crc == BlockCrc.Word(calculatedCombinedCRC) ==>
        Due(future) == Meaning(written, Complete)
      ensures decoder.state.StreamEnd? && decoder.state.crc != BlockCrc.Word(calculatedCombinedCRC) ==>
        Due(future).ending == Broken
      ensures decoder.state.DataError? ==> Due(future).ending == Broken
    {
      hide *;
      ValidIs();
      DecoderIs();
      FinalIs(decoder.state);
      DueIs(future);
      var bits := decoder.reader.Unread() + ByteBits(future);
      if decoder.state.StreamEnd? || decoder.state.DataError? {
        MeaningHere(decoder.state, bits, calculatedCombinedCRC);
        AfterIs(decoder.state, bits, calculatedCombinedCRC);
      }
    }

    /**
     * BZ2_bzDecompress. Whatever the input means as a stream, the calls put out its bytes: they end with STREAM_END
     * only when all are out, with DATA_ERROR only if it is broken, and without input to come they stop short of the end
     * only for lack of room, or if it is cut.
     */
    method BzDecompress(strm: BzStream, ghost later: seq<byte>) returns (status: ReturnCode)
      requires Valid() && (!idle ==> !decoder.state.StreamEnd? && !decoder.state.DataError?)
      requires strm as object != this && strm as object != decoder && strm as object != decoder.reader
        && strm as object != blk
      modifies this, strm, blk, decoder, decoder.reader, decoder.seqToUnseq, decoder.mtf, decoder.mtf.mtfa,
        decoder.mtf.mtfbase
      ensures old(idle) ==> status == SEQUENCE_ERROR
      ensures status == OK || status == STREAM_END ==>
        Valid() && Flow(strm.output, Produced(), old(strm.output), old(Produced())) && (blk == old(blk) || fresh(blk))
      ensures status == OK ==>
        !idle && !decoder.state.StreamEnd? && !decoder.state.DataError? && (strm.avail_out == 0 || strm.input == [])
      ensures |strm.output| + strm.avail_out == |old(strm.output)| + old(strm.avail_out)
      ensures status == STREAM_END ==> idle
      ensures !old(idle) ==>
        Result(status, old(Due(strm.input + later)), Produced(), later == [], strm.avail_out)
      ensures status == OK || status == STREAM_END ==> Due(strm.input + later) == old(Due(strm.input + later))
    {
      hide *;
      if idle { return SEQUENCE_ERROR; }
      ghost var due := Due(strm.input + later);
      ghost var o0, p0 := strm.output, Produced();
      FlowNone(o0, p0);
      while true
        invariant Valid() && !idle && !decoder.state.StreamEnd? && !decoder.state.DataError?
        invariant strm as object != blk && (blk == old(blk) || fresh(blk))
        invariant Flow(strm.output, Produced(), o0, p0) && |strm.output| + strm.avail_out == |o0| + old(strm.avail_out)
        invariant Due(strm.input + later) == due
        decreases |decoder.reader.Unread()| + 8 * |strm.input|
      {
        ghost var o1, p1 := strm.output, Produced();
        var goOn;
        goOn, status := Turn(strm, later);
        if status == DATA_ERROR && !goOn { return; }
        FlowTrans(strm.output, Produced(), o1, p1, o0, p0);
        if !goOn { return; }
      }
    }

    lemma {:induction false} ValidIs()
      requires Valid()
      ensures decoder.Valid() && LevelOk(decoder.state)
    {
    }
  }

  lemma {:induction false} ResultIs(m: Meaning, out: seq<byte>, last: bool, room: nat)
    ensures Result(STREAM_END, m, out, last, room) <==> m == Meaning(out, Complete)
    ensures Result(DATA_ERROR, m, out, last, room) <==> m.ending == Broken
    ensures Result(OK, m, out, last, room) <==>
      && (m.ending != Broken ==> out <= m.plain)
      && (m.ending == Complete && last ==> room == 0 && out != m.plain)
      && (last && room > 0 ==> m == Meaning(out, Cut))
  {
  }

  lemma {:induction false} ResultCodes(status: ReturnCode, m: Meaning, out: seq<byte>, last: bool, room: nat)
    requires Result(status, m, out, last, room)
    ensures status == OK || status == STREAM_END || status == DATA_ERROR
  {
  }

  lemma {:induction false} IntactIs(block: Block)
    requires block.head.origPtr < |block.column|
    ensures PlainOf(block) == Expand(BlockOf(block.column, block.head.origPtr))
    ensures Intact(block) <==>
      WellFormed(BlockOf(block.column, block.head.origPtr)) && block.head.crc == CrcWord(PlainOf(block))
  {
  }

  lemma {:induction false} Shorter(w: seq<byte>, e: seq<byte>, p: seq<byte>, more: seq<byte>)
    requires e <= p && e != p && p <= more
    ensures w + e <= w + more && w + e != w + more
  {
    assert |w + e| < |w + more|;
  }

  lemma {:induction false} BitsOfNone(z: seq<byte>)
    requires z == []
    ensures ByteBits(z) == []
  {
  }

  lemma {:induction false} NoneEmitted(w: seq<byte>, e: seq<byte>)
    ensures e == [] ==> w + e == w
  {
  }

  lemma {:induction false} FlowBehind(w: seq<byte>, o: seq<byte>, e: seq<byte>, o0: seq<byte>, e0: seq<byte>)
    requires Flow(o, e, o0, e0)
    ensures Flow(o, w + e, o0, w + e0)
  {
    assert (w + e)[..|w + e0|] == w + e[..|e0|];
    assert (w + e)[|w + e0|..] == e[|e0|..];
  }

  lemma {:induction false} FutureBits(unread: seq<bit>, input: seq<byte>, later: seq<byte>)
    ensures unread + ByteBits(input + later) == unread + ByteBits(input) + ByteBits(later)
  {
    hide ByteBits;
    ByteBitsConcat(input, later);
  }

  lemma {:induction false} ByteBitsSize(z: seq<byte>)
    ensures |ByteBits(z)| == 8 * |z|
  {
  }

  lemma {:induction false} LevelIs(s: State)
    requires LevelOk(s) && s.Output?
    ensures 1 <= s.block.head.level <= 9 && s.block.head.origPtr < |s.block.column| <= BLOCK_UNIT * s.block.head.level
  {
  }
}
