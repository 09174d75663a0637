/** The calling protocol of BZ2_bzCompress: modes, buffers of any size, and what has been consumed and delivered. */
module Protocol {
  import opened Bytes
  import opened Powers
  import opened RunLength
  import opened BitStream
  import opened StreamFormat
  import opened WireFormat
  import opened BlockBuffer
  import opened Compressor
  import opened StreamSize

  /** The caller's side: input still to be read, room for output, output written. */
  class BzStream {
    var input: seq<byte>
    var avail_out: nat
    var output: seq<byte>

    constructor () {
      input, avail_out, output := [], 0, [];
    }
  }

  datatype Mode = IDLE | RUNNING | FLUSHING | FINISHING
  datatype Phase = INPUT | OUTPUT
  datatype Action = RUN | FLUSH | FINISH
  datatype ReturnCode =
    | OK | RUN_OK | FLUSH_OK | FINISH_OK | STREAM_END | SEQUENCE_ERROR | PARAM_ERROR
    | DATA_ERROR | UNEXPECTED_EOF | OUTBUFF_FULL

  /** What has been consumed is what the blocks and the rest in hand stand for. */
  ghost predicate Accounted(consumed: seq<byte>, xs: seq<Piece>, level: nat, rest: seq<byte>) {
    Pieces(xs, level) && consumed == Plains(xs, |xs|) + rest
  }

  lemma {:induction false} AccountedAdd(consumed: seq<byte>, xs: seq<Piece>, level: nat, rest: seq<byte>, c: byte)
    requires Accounted(consumed, xs, level, rest)
    ensures Accounted(consumed + [c], xs, level, rest + [c])
  {
    hide Plains, Pieces;
    assert Plains(xs, |xs|) + rest + [c] == Plains(xs, |xs|) + (rest + [c]);
  }

  /** A block of the runs rs becomes a piece; the run in hand stays. */
  lemma {:induction false} AccountedPiece(consumed: seq<byte>, xs: seq<Piece>, level: nat, rs: seq<Run>, ch: nat,
                                          len: nat, x: Piece)
    requires Accounted(consumed, xs, level, Plain(rs) + Pending(ch, len)) && PieceOk(x, level) && x.plain == Plain(rs)
    ensures Accounted(consumed, xs + [x], level, Pending(ch, len))
    ensures Combined(xs + [x], |xs + [x]|) == Rotate(Combined(xs, |xs|)) ^ FinalCrc(Plain(rs))
  {
    hide *;
    AccountedIs(consumed, xs, level, Plain(rs) + Pending(ch, len));
    PiecesAppend(xs, x, level);
    assert |xs + [x]| == |xs| + 1;
    assert Plains(xs, |xs|) + (Plain(rs) + Pending(ch, len)) == Plains(xs, |xs|) + Plain(rs) + Pending(ch, len);
    AccountedIs(consumed, xs + [x], level, Pending(ch, len));
  }

  /** One more block, of n bytes of run-length code. */
  ghost predicate OneBlockMore(xs: seq<Piece>, ys: seq<Piece>, n: nat) {
    |ys| == |xs| + 1 && ys[..|xs|] == xs && |ys[|xs|].code| == n
  }

  lemma {:induction false} StillFull(xs: seq<Piece>, ys: seq<Piece>, n: nat, full: nat)
    requires OneBlockMore(xs, ys, n) && AllFull(xs, full)
    ensures FullButLast(ys, full) && (n >= full ==> AllFull(ys, full))
  {
    assert forall i {:trigger ys[i]} :: 0 <= i < |xs| ==> ys[i] == ys[..|xs|][i];
  }

  lemma {:induction false} AccountedIs(consumed: seq<byte>, xs: seq<Piece>, level: nat, rest: seq<byte>)
    ensures Accounted(consumed, xs, level, rest) <==> Pieces(xs, level) && consumed == Plains(xs, |xs|) + rest
  {
  }

  /** Delivered output: everything from before, and the first pos bytes of zbits. */
  ghost predicate Delivered(delivered: seq<byte>, before: seq<byte>, zbits: seq<byte>, pos: nat) {
    pos <= |zbits| && delivered == before + zbits[..pos]
  }

  lemma {:induction false} DeliveredNext(delivered: seq<byte>, before: seq<byte>, zbits: seq<byte>, pos: nat)
    requires Delivered(delivered, before, zbits, pos) && pos < |zbits|
    ensures Delivered(delivered + [zbits[pos]], before, zbits, pos + 1)
  {
    assert zbits[..pos + 1] == zbits[..pos] + [zbits[pos]];
  }

  class EState {
    const blockSize100k: nat
    const nblockMAX: nat
    const workFactor: int
    const buf: Buffer
    const w: BitWriter
    var mode: Mode
    var state: Phase
    var avail_in_expect: nat
    var state_out_pos: nat
    var blockNo: nat
    var combinedCRC: bv32
    ghost var pieces: seq<Piece>
    ghost var consumed: seq<byte>
    ghost var delivered: seq<byte>
    ghost var before: seq<byte>
    ghost var closed: bool

    ghost predicate Shape()
    {
      && 1 <= blockSize100k <= 9 && nblockMAX == BLOCK_UNIT * blockSize100k - 19
      && buf.block.Length == BLOCK_UNIT * blockSize100k + N_OVERSHOOT && 0 <= workFactor <= 250
         && buf.inUse.Length == 256
      && buf.block as object != buf.inUse && buf as object != w && buf as object != this && w as object != this
      && buf.block as object != this && buf.inUse as object != this && buf.block as object != w
         && buf.inUse as object != w
      && buf.block as object != buf && buf.inUse as object != buf
    }

    /** The bits written so far belong to the pieces. */
    ghost predicate BitsWritten()
      reads this`before, this`closed, this`pieces, this`blockNo, this`state, w
    {
      if closed then Closed(ByteBits(before + w.zbits), pieces, blockSize100k)
      else w.Valid() && Emitted(ByteBits(before) + w.Stream(), pieces, blockSize100k, blockNo >= 2 || state == OUTPUT)
    }

    ghost predicate BitsOk()
      reads this`delivered, this`state_out_pos, this`before, this`closed, this`pieces, this`blockNo, this`state, w
    {
      Delivered(delivered, before, w.zbits, state_out_pos) && BitsWritten()
    }

    /** The input consumed so far is in the pieces, the block, and the run in hand. */
    ghost predicate InputOk()
      reads this`consumed, this`pieces, this`state, this`combinedCRC, buf, buf.block, buf.inUse
    {
      && buf.Valid() && buf.nblock <= BLOCK_UNIT * blockSize100k - 10
      && Accounted(consumed, pieces, blockSize100k,
                   if state == INPUT then buf.Taken() else Pending(buf.state_in_ch, buf.state_in_len))
      && combinedCRC == Combined(pieces, |pieces|)
    }

    ghost predicate ModesOk()
      reads this`blockNo, this`state, this`closed, this`mode, this`avail_in_expect, buf`nblock, buf`state_in_ch,
        buf`runs
    {
      && blockNo >= 1
      && (state == INPUT ==> buf.nblock < nblockMAX && !closed && (buf.state_in_ch == NO_CHAR ==> buf.runs == []))
      && (closed ==> buf.state_in_ch == NO_CHAR && avail_in_expect == 0 && (mode == FINISHING || mode == IDLE))
      && (mode == IDLE ==> closed)
      && (state == OUTPUT && !closed && buf.state_in_ch == NO_CHAR ==> mode == FLUSHING && avail_in_expect == 0)
    }

    /** Nothing has been written for a block that is being collected; what is written fits behind the block in arr2. */
    ghost predicate FreshOutput()
      reads this`state, this`state_out_pos, w`zbits, buf`nblock
    {
      && (state == INPUT ==> w.zbits == [] && state_out_pos == 0)
      && (state == OUTPUT ==> |w.zbits| + buf.nblock <= 4 * (BLOCK_UNIT * blockSize100k + N_OVERSHOOT))
    }

    /** As long as nothing is flushed, only the last block is not full. */
    ghost predicate Tight()
      reads this`pieces, this`closed
    {
      FullButLast(pieces, nblockMAX) && (closed || AllFull(pieces, nblockMAX))
    }

    ghost predicate Inv()
      reads this, buf, buf.block, buf.inUse, w
    {
      Shape() && BitsOk() && InputOk() && ModesOk() && FreshOutput()
    }

    /** BZ2_bzCompressInit, up to allocation. */
    constructor (level: nat, work: int)
      requires 1 <= level <= 9 && 0 <= work <= 250
      ensures Inv() && Tight() && fresh(buf) && fresh(w) && fresh(buf.block) && fresh(buf.inUse)
      ensures mode == RUNNING && state == INPUT && !closed && pieces == [] && consumed == [] && delivered == []
      ensures blockSize100k == level
    {
      blockSize100k, nblockMAX := level, BLOCK_UNIT * level - 19;
      workFactor := if work == 0 then 30 else work;
      buf := new Buffer(level);
      w := new BitWriter();
      mode, state, avail_in_expect, state_out_pos, blockNo, combinedCRC := RUNNING, INPUT, 0, 0, 1, 0;
      pieces, consumed, delivered, before, closed := [], [], [], [], false;
      new;
      StartOk(level, w.Stream());
    }

    // ----- copy_output_until_stop

    method CopyOutput(strm: BzStream) returns (progress_out: bool)
      requires Shape() && Delivered(delivered, before, w.zbits, state_out_pos)
      requires strm as object != this && strm as object != w && strm as object != buf
      modifies strm`avail_out, strm`output, this`state_out_pos, this`delivered
      ensures Delivered(delivered, before, w.zbits, state_out_pos)
      ensures |old(delivered)| <= |delivered| && delivered[..|old(delivered)|] == old(delivered)
      ensures strm.output == old(strm.output) + delivered[|old(delivered)|..]
      ensures state_out_pos == |w.zbits| || strm.avail_out == 0
      ensures progress_out <==> |delivered| > |old(delivered)|
      ensures |strm.output| + strm.avail_out == |old(strm.output)| + old(strm.avail_out)
    {
      hide Delivered;
      progress_out := false;
      ghost var d0, o0, a0, p0 := delivered, strm.output, strm.avail_out, state_out_pos;
      ghost var z := w.zbits;
      DeliveredSize(delivered, before, z, state_out_pos);
      while strm.avail_out != 0 && state_out_pos < |w.zbits|
        invariant Delivered(delivered, before, z, state_out_pos) && p0 <= state_out_pos <= |z|
        invariant |delivered| >= |d0| && delivered[..|d0|] == d0 && strm.output == o0 + delivered[|d0|..]
        invariant |strm.output| + strm.avail_out == |o0| + a0
        invariant progress_out <==> |delivered| > |d0|
        decreases strm.avail_out
      {
        progress_out := true;
        DeliveredNext(delivered, before, z, state_out_pos);
        DeliveredSize(delivered + [z[state_out_pos]], before, z, state_out_pos + 1);
        strm.output := strm.output + [w.zbits[state_out_pos]];
        delivered := delivered + [w.zbits[state_out_pos]];
        state_out_pos := state_out_pos + 1;
        strm.avail_out := strm.avail_out - 1;
      }
    }

    // ----- copy_input_until_stop

    ghost predicate Collecting()
      reads this, buf, buf.block, buf.inUse
    {
      && Shape() && buf.Valid() && buf.nblock <= nblockMAX + 4 && (buf.state_in_ch == NO_CHAR ==> buf.runs == [])
      && Accounted(consumed, pieces, blockSize100k, buf.Taken())
    }

    /** One byte of input. */
    method TakeByte(strm: BzStream)
      requires Collecting() && buf.nblock < nblockMAX && strm.input != []
        && (mode != RUNNING ==> avail_in_expect == |strm.input|)
      requires strm as object != this && strm as object != buf && strm as object != buf.block
        && strm as object != buf.inUse
      modifies strm`input, this`consumed, this`avail_in_expect, buf, buf.block, buf.inUse
      ensures Collecting() && (mode != RUNNING ==> avail_in_expect == |strm.input|)
      ensures consumed + strm.input == old(consumed) + old(strm.input) && |strm.input| == |old(strm.input)| - 1
      ensures buf.state_in_ch != NO_CHAR
    {
      hide Accounted, Collected, Follows, Plain, Pending;
      var c := strm.input[0];
      AccountedAdd(consumed, pieces, blockSize100k, buf.Taken(), c);
      buf.AddChar(c);
      consumed := consumed + [c];
      assert strm.input == [c] + strm.input[1..];
      strm.input := strm.input[1..];
      if mode != RUNNING { avail_in_expect := avail_in_expect - 1; }
    }

    method CopyInput(strm: BzStream) returns (progress_in: bool)
      requires Collecting() && buf.nblock < nblockMAX && (mode != RUNNING ==> avail_in_expect == |strm.input|)
      requires strm as object != this && strm as object != buf && strm as object != buf.block
        && strm as object != buf.inUse
      modifies strm`input, this`consumed, this`avail_in_expect, buf, buf.block, buf.inUse
      ensures Collecting() && (mode != RUNNING ==> avail_in_expect == |strm.input|)
      ensures consumed + strm.input == old(consumed) + old(strm.input) && |strm.input| <= |old(strm.input)|
      ensures buf.nblock >= nblockMAX || strm.input == []
      ensures progress_in <==> |strm.input| < |old(strm.input)|
      ensures progress_in ==> buf.state_in_ch != NO_CHAR
      ensures !progress_in ==> buf.nblock == old(buf.nblock) && buf.state_in_ch == old(buf.state_in_ch)
    {
      hide *;
      progress_in := false;
      while buf.nblock < nblockMAX && strm.input != [] && (mode == RUNNING || avail_in_expect != 0)
        invariant Collecting() && (mode != RUNNING ==> avail_in_expect == |strm.input|)
        invariant consumed + strm.input == old(consumed) + old(strm.input)
        invariant |strm.input| <= |old(strm.input)| && (progress_in <==> |strm.input| < |old(strm.input)|)
        invariant progress_in ==> buf.state_in_ch != NO_CHAR
        invariant !progress_in ==> buf.nblock == old(buf.nblock) && buf.state_in_ch == old(buf.state_in_ch)
        decreases |strm.input|
      {
        progress_in := true;
        TakeByte(strm);
      }
    }
  
    // ----- BZ2_compressBlock

    /** The stream header, in front of the first block. */
    method WriteMagic()
      requires Shape() && w.Valid() && blockNo >= 1
      requires Emitted(ByteBits(before) + w.Stream(), pieces, blockSize100k, blockNo >= 2)
      modifies w
      ensures w.Valid() && Emitted(ByteBits(before) + w.Stream(), pieces, blockSize100k, true)
      ensures |old(w.Stream())| <= |w.Stream()| <= |old(w.Stream())| + 32
    {
      hide *;
      ShapeIs();
      if blockNo == 1 {
        ghost var s0 := w.Stream();
        EmittedMagic(ByteBits(before) + s0, pieces, blockSize100k);
        SendMagic(w, blockSize100k);
        BitStream.Assoc(ByteBits(before), s0, MagicThen(blockSize100k, []));
        MagicLength(blockSize100k);
      }
    }

    lemma {:induction false} ShapeIs()
      requires Shape()
      ensures 1 <= blockSize100k <= 9 && nblockMAX == 100000 * blockSize100k - 19 && BLOCK_UNIT == 100000
      ensures buf.inUse.Length == 256 && buf.block.Length == 100000 * blockSize100k + 34 && N_OVERSHOOT == 34
      ensures buf.block as object != buf.inUse && buf as object != w && buf as object != this && w as object != this
      ensures buf.block as object != this && buf.inUse as object != this && buf.block as object != w
        && buf.inUse as object != w
      ensures buf.block as object != buf && buf.inUse as object != buf
    {
    }

    lemma {:induction false} BufferIs()
      requires Shape() && buf.Valid()
      ensures Collected(buf.runs, buf.block[..], buf.nblock, buf.inUse[..], buf.blockCRC)
      ensures buf.Taken() == Plain(buf.runs) + Pending(buf.state_in_ch, buf.state_in_len)
      ensures Follows(buf.runs, buf.state_in_ch, buf.state_in_len)
    {
    }

    lemma {:induction false} BufferAgain()
      requires buf.inUse.Length == 256 && Collected(buf.runs, buf.block[..], buf.nblock, buf.inUse[..], buf.blockCRC)
      requires Follows(buf.runs, buf.state_in_ch, buf.state_in_len)
      ensures buf.Valid()
    {
    }

    /** One more piece, behind the header. */
    method WritePiece()
      requires Shape() && w.Valid() && Emitted(ByteBits(before) + w.Stream(), pieces, blockSize100k, true)
      requires buf.Valid() && 0 < buf.nblock <= BLOCK_UNIT * blockSize100k
      requires Accounted(consumed, pieces, blockSize100k, buf.Taken()) && combinedCRC == Combined(pieces, |pieces|)
      modifies this`combinedCRC, this`pieces, w, buf.block
      ensures w.Valid() && Emitted(ByteBits(before) + w.Stream(), pieces, blockSize100k, true)
      ensures buf.Valid() && OneBlockMore(old(pieces), pieces, buf.nblock)
      ensures |w.Stream()| <= |old(w.Stream())| + PieceBound(buf.nblock)
      ensures Accounted(consumed, pieces, blockSize100k, Pending(buf.state_in_ch, buf.state_in_len))
      ensures combinedCRC == Combined(pieces, |pieces|)
    {
      hide *;
      ShapeIs();
      BufferIs();
      ghost var s0 := w.Stream();
      CrcOf(buf.runs, buf.block[..], buf.nblock, buf.inUse[..], buf.blockCRC);
      var blockCRC := BlockCrc.Final(buf.blockCRC);
      combinedCRC := Rotate(combinedCRC) ^ blockCRC;
      ghost var block0 := buf.block[..];
      var x := SendPiece(w, buf, BlockCrc.Word(blockCRC), blockSize100k, workFactor);
      BitStream.Assoc(ByteBits(before), s0, PieceBits(x, blockSize100k));
      EmittedPiece(ByteBits(before) + s0, pieces, blockSize100k, x);
      AccountedPiece(consumed, pieces, blockSize100k, buf.runs, buf.state_in_ch, buf.state_in_len, x);
      PieceSize(x, blockSize100k);
      OneMoreIs(pieces, x);
      pieces := pieces + [x];
      CollectedSame(buf.runs, block0, buf.block[..], buf.nblock, buf.inUse[..], buf.blockCRC);
      BufferAgain();
    }

    /** The stream trailer, padded to a whole byte. */
    method WriteTrailer()
      requires Shape() && w.Valid() && Emitted(ByteBits(before) + w.Stream(), pieces, blockSize100k, true)
      requires combinedCRC == Combined(pieces, |pieces|)
      modifies w
      ensures Closed(ByteBits(before + w.zbits), pieces, blockSize100k) && |w.zbits| > 0
      ensures 8 * |w.zbits| <= |old(w.Stream())| + 88
    {
      hide *;
      ghost var s0, b := w.Stream(), ByteBits(before);
      ghost var t := TrailerThen(1, WordThen(BlockCrc.Word(combinedCRC), []));
      WordBound(combinedCRC);
      SendTrailer(w, BlockCrc.Word(combinedCRC));
      var pad := w.Finish();
      BitStream.Assoc(b, s0, t);
      BitStream.Assoc(b, s0 + t, BitsOf(0, pad));
      ByteBitsConcat(before, w.zbits);
      TrailerLength(BlockCrc.Word(combinedCRC));
      NotEmpty(w.zbits, s0 + t + BitsOf(0, pad));
      EmittedClosed(b + s0, pieces, blockSize100k, ByteBits(before + w.zbits), pad);
    }

    /** BZ2_compressBlock, and the change to the output state that follows it. */
    method CompressBlock(isLast: bool)
      requires Shape() && state == INPUT && !closed && blockNo >= 1 && InputOk() && BitsOk()
      requires w.zbits == [] && state_out_pos == 0
      modifies this`state, this`combinedCRC, this`pieces, this`closed, w, buf.block
      ensures state == OUTPUT && closed == isLast && InputOk() && BitsOk() && FreshOutput()
      ensures isLast ==> |w.zbits| > 0
      ensures old(Tight()) && (isLast || buf.nblock >= nblockMAX) ==> Tight()
    {
      hide *;
      CompressOpen();
      ShapeIs();
      StreamRoom();
      TightIs();
      ghost var xs := pieces;
      WriteMagic();
      if buf.nblock > 0 {
        UnitGrows();
        WritePiece();
        if AllFull(xs, nblockMAX) { StillFull(xs, pieces, buf.nblock, nblockMAX); }
      } else {
        NothingCollected();
        PieceBoundIs(0);
      }
      StreamRoom();
      PieceBoundIs(buf.nblock);
      if isLast { WriteTrailer(); }
      state, closed := OUTPUT, isLast;
      CompressClose();
      TightIs();
      RoomIs();
    }

    lemma {:induction false} OneMoreIs(xs: seq<Piece>, x: Piece)
      ensures OneBlockMore(xs, xs + [x], |x.code|)
    {
    }

    lemma {:induction false} TightIs()
      ensures Tight() <==> FullButLast(pieces, nblockMAX) && (closed || AllFull(pieces, nblockMAX))
      ensures AllFull(pieces, nblockMAX) ==> FullButLast(pieces, nblockMAX)
    {
    }

    lemma {:induction false} RoomIs()
      ensures FreshOutput() <==>
        && (state == INPUT ==> w.zbits == [] && state_out_pos == 0)
        && (state == OUTPUT ==> |w.zbits| + buf.nblock <= 400_000 * blockSize100k + 136)
    {
    }

    /** Only whole bytes leave the bit buffer. */
    lemma {:induction false} StreamRoom()
      requires w.Valid()
      ensures 8 * |w.zbits| <= |w.Stream()| <= 8 * |w.zbits| + 32
    {
      hide BitsOf, Shl;
    }

    lemma {:induction false} UnitGrows()
      requires Shape() && buf.nblock <= BLOCK_UNIT * blockSize100k - 10
      ensures buf.nblock <= BLOCK_UNIT * blockSize100k
    {
    }

    lemma {:induction false} CompressOpen()
      requires Shape() && state == INPUT && !closed && InputOk() && BitsOk() && w.zbits == [] && state_out_pos == 0
      ensures w.Valid() && Emitted(ByteBits(before) + w.Stream(), pieces, blockSize100k, blockNo >= 2)
      ensures buf.Valid() && buf.nblock <= BLOCK_UNIT * blockSize100k - 10
      ensures Accounted(consumed, pieces, blockSize100k, buf.Taken()) && combinedCRC == Combined(pieces, |pieces|)
      ensures delivered == before
    {
      hide Accounted, Emitted, Combined;
      assert w.zbits[..0] == [] && before + [] == before;
    }

    /** An empty block codes no runs. */
    lemma {:induction false} NothingCollected()
      requires Shape() && buf.Valid() && buf.nblock == 0
      requires Accounted(consumed, pieces, blockSize100k, buf.Taken())
      ensures Accounted(consumed, pieces, blockSize100k, Pending(buf.state_in_ch, buf.state_in_len))
    {
      hide Accounted, Marks, BlockCrc.UpdateAll;
      if buf.runs != [] { CodeHead(buf.runs); }
      assert Plain([]) + Pending(buf.state_in_ch, buf.state_in_len) == Pending(buf.state_in_ch, buf.state_in_len);
    }

    lemma {:induction false} CompressClose()
      requires Shape() && state == OUTPUT && delivered == before && state_out_pos == 0
      requires buf.Valid() && buf.nblock <= BLOCK_UNIT * blockSize100k - 10
      requires Accounted(consumed, pieces, blockSize100k, Pending(buf.state_in_ch, buf.state_in_len))
      requires combinedCRC == Combined(pieces, |pieces|)
      requires if closed then Closed(ByteBits(before + w.zbits), pieces, blockSize100k)
               else w.Valid() && Emitted(ByteBits(before) + w.Stream(), pieces, blockSize100k, true)
      ensures InputOk() && BitsOk()
    {
      hide Accounted, Emitted, Combined, Closed;
      assert w.zbits[..0] == [] && before + [] == before;
    }

    // ----- prepare_new_block

    method PrepareNewBlock()
      requires Shape() && state == OUTPUT && !closed && blockNo >= 1 && InputOk() && BitsOk()
        && state_out_pos == |w.zbits|
      modifies this`state, this`before, this`state_out_pos, this`blockNo, w`zbits, buf`nblock, buf`blockCRC, buf`runs,
        buf.inUse
      ensures state == INPUT && InputOk() && BitsOk() && blockNo >= 2 && w.zbits == [] && state_out_pos == 0
      ensures buf.nblock == 0 && buf.runs == []
    {
      hide *;
      PrepareOpen();
      ShapeIs();
      ghost var s0, z := w.Stream(), w.zbits;
      w.Clear();
      ByteBitsConcat(before, z);
      BitStream.Assoc(ByteBits(before), ByteBits(z), w.Stream());
      before := before + z;
      buf.PrepareNewBlock();
      state_out_pos, blockNo, state := 0, blockNo + 1, INPUT;
      PrepareClose();
    }

    lemma {:induction false} PrepareOpen()
      requires Shape() && state == OUTPUT && !closed && InputOk() && BitsOk() && state_out_pos == |w.zbits|
      ensures w.Valid() && Emitted(ByteBits(before) + w.Stream(), pieces, blockSize100k, true)
      ensures buf.Valid() && combinedCRC == Combined(pieces, |pieces|)
      ensures Accounted(consumed, pieces, blockSize100k, Pending(buf.state_in_ch, buf.state_in_len))
      ensures delivered == before + w.zbits
    {
      hide Accounted, Emitted, Combined;
      assert w.zbits[..|w.zbits|] == w.zbits;
    }

    lemma {:induction false} PrepareClose()
      requires Shape() && state == INPUT && !closed && blockNo >= 2 && w.zbits == [] && state_out_pos == 0
        && delivered == before
      requires w.Valid() && Emitted(ByteBits(before) + w.Stream(), pieces, blockSize100k, true)
      requires buf.Valid() && buf.nblock == 0 && buf.runs == [] && combinedCRC == Combined(pieces, |pieces|)
      requires Accounted(consumed, pieces, blockSize100k, Pending(buf.state_in_ch, buf.state_in_len))
      ensures InputOk() && BitsOk()
    {
      hide Accounted, Emitted, Combined;
      assert before + [][..0] == before;
      assert Plain([]) + Pending(buf.state_in_ch, buf.state_in_len) == Pending(buf.state_in_ch, buf.state_in_len);
    }

    // ----- handle_compress

    ghost predicate Apart(strm: BzStream) {
      && strm as object != this && strm as object != w && strm as object != buf
      && strm as object != buf.block && strm as object != buf.inUse
    }

    /** How the announced input and the actual one go together. */
    ghost predicate Announced(strm: BzStream)
      reads this`mode, this`avail_in_expect, strm`input
    {
      mode != IDLE && (mode != RUNNING ==> avail_in_expect == |strm.input|)
    }

    /** The states in which handle_compress returns. */
    ghost predicate Stopped(strm: BzStream)
      reads this, buf`state_in_ch, w`zbits, strm
    {
      || (state == OUTPUT && state_out_pos < |w.zbits| && strm.avail_out == 0)
      || (state == OUTPUT && closed && state_out_pos == |w.zbits|)
      || (state == INPUT && mode == FLUSHING && avail_in_expect == 0 && buf.state_in_ch == NO_CHAR)
      || (state == INPUT && mode == RUNNING && strm.input == [])
    }

    /** Right after the run in hand has been flushed. */
    ghost predicate Flushed()
      reads this, buf`state_in_ch
    {
      state == OUTPUT && mode != RUNNING && avail_in_expect == 0 && buf.state_in_ch == NO_CHAR
    }

    lemma {:induction false} InvIs()
      ensures Inv() <==> Shape() && BitsOk() && InputOk() && ModesOk() && FreshOutput()
      ensures BitsOk() <==> Delivered(delivered, before, w.zbits, state_out_pos) && BitsWritten()
    {
    }

    lemma {:induction false} ModesIs()
      ensures ModesOk() <==>
        && blockNo >= 1
        && (state == INPUT ==> buf.nblock < nblockMAX && !closed && (buf.state_in_ch == NO_CHAR ==> buf.runs == []))
        && (closed ==> buf.state_in_ch == NO_CHAR && avail_in_expect == 0 && (mode == FINISHING || mode == IDLE))
        && (mode == IDLE ==> closed)
        && (state == OUTPUT && !closed && buf.state_in_ch == NO_CHAR ==> mode == FLUSHING && avail_in_expect == 0)
      ensures FreshOutput() <==>
        && (state == INPUT ==> w.zbits == [] && state_out_pos == 0)
        && (state == OUTPUT ==> |w.zbits| + buf.nblock <= 400_000 * blockSize100k + 136)
    {
    }

    lemma {:induction false} StoppedIs(strm: BzStream)
      ensures Stopped(strm) <==>
        || (state == OUTPUT && state_out_pos < |w.zbits| && strm.avail_out == 0)
        || (state == OUTPUT && closed && state_out_pos == |w.zbits|)
        || (state == INPUT && mode == FLUSHING && avail_in_expect == 0 && buf.state_in_ch == NO_CHAR)
        || (state == INPUT && mode == RUNNING && strm.input == [])
      ensures Announced(strm) <==> mode != IDLE && (mode != RUNNING ==> avail_in_expect == |strm.input|)
      ensures Flushed() <==> state == OUTPUT && mode != RUNNING && avail_in_expect == 0 && buf.state_in_ch == NO_CHAR
      ensures Apart(strm) <==>
        && strm as object != this && strm as object != w && strm as object != buf
        && strm as object != buf.block && strm as object != buf.inUse
    {
    }

    lemma {:induction false} RunInHand()
      requires InputOk()
      ensures buf.Valid() && (Pending(buf.state_in_ch, buf.state_in_len) == [] <==> buf.state_in_ch == NO_CHAR)
    {
      hide Collected, Accounted, Combined;
    }

    /** The part of the loop for BZ_S_OUTPUT. */
    method OutputPart(strm: BzStream) returns (stop: bool, progress_out: bool)
      requires Inv() && state == OUTPUT && Apart(strm) && Announced(strm)
      modifies strm`avail_out, strm`output, this`state_out_pos, this`delivered,
               this`state, this`before, this`blockNo, w`zbits, buf`nblock, buf`blockCRC, buf`runs, buf.inUse
      ensures Inv() && Announced(strm) && buf.state_in_ch == old(buf.state_in_ch)
      ensures Flow(strm.output, delivered, old(strm.output), old(delivered))
      ensures |strm.output| + strm.avail_out == |old(strm.output)| + old(strm.avail_out)
      ensures progress_out <==> |delivered| > |old(delivered)|
      ensures stop ==> Stopped(strm)
      ensures !stop ==> state == INPUT && !old(Flushed())
      ensures old(closed && state_out_pos < |w.zbits|) ==> progress_out || state_out_pos < |w.zbits|
    {
      hide *;
      InvIs();
      ModesIs();
      StoppedIs(strm);
      ShapeIs();
      stop := true;
      ghost var d0 := delivered;
      DeliveredSize(delivered, before, w.zbits, state_out_pos);
      progress_out := CopyOutput(strm);
      FlowIs(strm.output, delivered, old(strm.output), d0);
      InvIs();
      ModesIs();
      StoppedIs(strm);
      RunInHand();
      var empty := buf.IsEmptyRL();
      DeliveredSize(delivered, before, w.zbits, state_out_pos);
      if state_out_pos < |w.zbits| { return; }
      if mode == FINISHING && avail_in_expect == 0 && empty { return; }
      PrepareNewBlock();
      InvIs();
      ModesIs();
      StoppedIs(strm);
      BlockRoom();
      if mode == FLUSHING && avail_in_expect == 0 && empty { return; }
      stop := false;
    }

    lemma {:induction false} BlockRoom()
      requires Shape()
      ensures 0 < nblockMAX
    {
    }

    lemma {:induction false} InputIs()
      ensures InputOk() <==>
        && buf.Valid() && buf.nblock <= BLOCK_UNIT * blockSize100k - 10
        && Accounted(consumed, pieces, blockSize100k,
                     if state == INPUT then buf.Taken() else Pending(buf.state_in_ch, buf.state_in_len))
        && combinedCRC == Combined(pieces, |pieces|)
      ensures Collecting() <==>
        && Shape() && buf.Valid() && buf.nblock <= nblockMAX + 4 && (buf.state_in_ch == NO_CHAR ==> buf.runs == [])
        && Accounted(consumed, pieces, blockSize100k, buf.Taken())
    {
    }

    /** The part of the loop for BZ_S_INPUT. */
    method InputPart(strm: BzStream) returns (stop: bool, progress_in: bool)
      requires Inv() && state == INPUT && Apart(strm) && Announced(strm)
      modifies strm`input, this`consumed, this`avail_in_expect, this`state, this`combinedCRC, this`pieces, this`closed,
               w, buf, buf.block, buf.inUse
      ensures Inv() && Announced(strm)
      ensures consumed + strm.input == old(consumed) + old(strm.input) && |strm.input| <= |old(strm.input)|
      ensures progress_in <==> |strm.input| < |old(strm.input)|
      ensures stop ==> Stopped(strm) && state == INPUT
      ensures !stop ==> state == OUTPUT && (|strm.input| < |old(strm.input)| || Flushed())
      ensures closed ==> state_out_pos < |w.zbits|
      ensures old(strm.input) != [] ==> progress_in
      ensures old(Tight()) && mode != FLUSHING ==> Tight()
    {
      hide *;
      InvIs();
      InputIs();
      ModesIs();
      StoppedIs(strm);
      ShapeIs();
      stop := false;
      progress_in := CopyInput(strm);
      InputIs();
      StoppedIs(strm);
      if mode != RUNNING && avail_in_expect == 0 {
        buf.FlushRL();
        InputIs();
        CompressBlock(mode == FINISHING);
      } else if buf.nblock >= nblockMAX {
        CompressBlock(false);
      } else if strm.input == [] {
        stop := true;
      }
      InvIs();
      ModesIs();
      StoppedIs(strm);
    }

    method HandleCompress(strm: BzStream) returns (progress: bool)
      requires Inv() && Apart(strm) && Announced(strm) && (closed ==> state_out_pos < |w.zbits|)
      modifies strm, this`consumed, this`avail_in_expect, this`state, this`combinedCRC, this`pieces, this`closed,
               this`state_out_pos, this`delivered, this`before, this`blockNo, w, buf, buf.block, buf.inUse
      ensures Inv() && Announced(strm) && Stopped(strm)
      ensures consumed + strm.input == old(consumed) + old(strm.input) && |strm.input| <= |old(strm.input)|
      ensures Flow(strm.output, delivered, old(strm.output), old(delivered))
      ensures |strm.output| + strm.avail_out == |old(strm.output)| + old(strm.avail_out)
      ensures progress <==> |strm.input| < |old(strm.input)| || |delivered| > |old(delivered)|
      ensures closed ==> progress || state_out_pos < |w.zbits|
      ensures old(state) == INPUT && old(strm.input) != [] ==> progress
      ensures old(Tight()) && mode != FLUSHING ==> Tight()
    {
      hide *;
      var progress_in, progress_out := false, false;
      ghost var d0, o0 := delivered, strm.output;
      FlowNone(o0, d0);
      while true
        invariant Inv() && Announced(strm)
        invariant consumed + strm.input == old(consumed) + old(strm.input) && |strm.input| <= |old(strm.input)|
        invariant Flow(strm.output, delivered, o0, d0)
        invariant |strm.output| + strm.avail_out == |o0| + old(strm.avail_out)
        invariant progress_in <==> |strm.input| < |old(strm.input)|
        invariant progress_out <==> |delivered| > |d0|
        invariant closed ==> progress_out || state_out_pos < |w.zbits|
        invariant old(state) == INPUT && old(strm.input) != [] ==> progress_in || (state == INPUT && strm.input != [])
        invariant old(Tight()) && mode != FLUSHING ==> Tight()
        decreases |strm.input|, if Flushed() then 0 else 1
      {
        StoppedIs(strm);
        if state == OUTPUT {
          ghost var d1, o1 := delivered, strm.output;
          var stop, p := OutputPart(strm);
          FlowTrans(strm.output, delivered, o1, d1, o0, d0);
          progress_out := progress_out || p;
          if stop { break; }
        }
        var stop, p := InputPart(strm);
        StoppedIs(strm);
        progress_in := progress_in || p;
        if stop { break; }
      }
      progress := progress_in || progress_out;
    }

    /** The output so far, and that still to be copied, is within the bound for the input consumed. */
    lemma {:induction false} OutputBound()
      requires Inv() && Tight()
      ensures |before| + |w.zbits| <= Bound(|consumed|, blockSize100k)
    {
      hide *;
      InvIs();
      ShapeIs();
      InputIs();
      TightIs();
      BitsWrittenIs();
      ghost var rest := if state == INPUT then buf.Taken() else Pending(buf.state_in_ch, buf.state_in_len);
      AccountedIs(consumed, pieces, blockSize100k, rest);
      BoundIs(|consumed|, blockSize100k);
      if closed {
        ClosedLength(ByteBits(before + w.zbits), pieces, blockSize100k, nblockMAX, |consumed|);
      } else {
        EmittedLength(ByteBits(before) + w.Stream(), pieces, blockSize100k, blockNo >= 2
                      || state == OUTPUT, nblockMAX, |consumed|);
        StreamRoom();
      }
    }

    lemma {:induction false} BitsWrittenIs()
      ensures BitsWritten() <==>
        if closed then Closed(ByteBits(before + w.zbits), pieces, blockSize100k)
        else w.Valid() && Emitted(ByteBits(before) + w.Stream(), pieces, blockSize100k, blockNo >= 2 || state == OUTPUT)
    {
    }

    /** The whole input is in the pieces, and the finished stream has been delivered. */
    ghost predicate Complete()
      reads this`consumed, this`pieces, this`delivered
    {
      && Pieces(pieces, blockSize100k) && consumed == Plains(pieces, |pieces|)
      && Closed(ByteBits(delivered), pieces, blockSize100k)
    }

    /** Everything consumed is in the pieces, and all of it has been delivered but what the bit buffer still holds. */
    ghost predicate FlushedOut()
      reads this`consumed, this`pieces, this`delivered, this`blockNo, this`state, w
    {
      && Pieces(pieces, blockSize100k) && consumed == Plains(pieces, |pieces|)
      && w.Valid() && 0 <= w.bsLive <= 32
      && Emitted(ByteBits(delivered) + BitsOf(w.pending, w.bsLive), pieces, blockSize100k, blockNo >= 2
                 || state == OUTPUT)
    }

    lemma {:induction false} EndsComplete()
      requires Inv() && closed && state_out_pos == |w.zbits|
      ensures Complete()
    {
      hide Combined, Collected, Closed;
      assert w.zbits[..|w.zbits|] == w.zbits;
    }

    lemma {:induction false} EndsFlushed()
      requires Inv() && !closed && state == INPUT && buf.state_in_ch == NO_CHAR
      ensures FlushedOut()
    {
      hide Combined, Collected, Emitted, BitsOf;
      assert w.zbits[..0] == w.zbits && before + [] == before;
      assert ByteBits([]) + BitsOf(w.pending, w.bsLive) == BitsOf(w.pending, w.bsLive);
      EndsPlain();
    }

    lemma {:induction false} EndsPlain()
      requires Inv() && !closed && state == INPUT && buf.state_in_ch == NO_CHAR
      ensures Pieces(pieces, blockSize100k) && consumed == Plains(pieces, |pieces|)
    {
      hide Combined, Collected, Emitted;
      assert Plain([]) + [] == [];
      assert Plains(pieces, |pieces|) + [] == Plains(pieces, |pieces|);
    }

    /** BZ2_bzCompress. */
    method BzCompress(strm: BzStream, action: Action) returns (code: ReturnCode)
      requires Inv() && Apart(strm) && (closed && mode != IDLE ==> state_out_pos < |w.zbits|)
      modifies strm, this`mode, this`consumed, this`avail_in_expect, this`state, this`combinedCRC, this`pieces,
               this`closed, this`state_out_pos, this`delivered, this`before, this`blockNo, w, buf, buf.block, buf.inUse
      ensures Inv() && (closed && mode != IDLE ==> state_out_pos < |w.zbits|)
      ensures consumed + strm.input == old(consumed) + old(strm.input)
      ensures Flow(strm.output, delivered, old(strm.output), old(delivered))
      ensures |strm.output| + strm.avail_out == |old(strm.output)| + old(strm.avail_out)
      ensures code == STREAM_END ==> Complete() && mode == IDLE && strm.input == []
      ensures code == RUN_OK && action == FLUSH ==> FlushedOut() && mode == RUNNING && strm.input == []
      ensures code == RUN_OK && action == RUN ==> mode == RUNNING
      ensures old(mode) == RUNNING && action == RUN ==>
        code == if |strm.input| < |old(strm.input)| || |strm.output| > |old(strm.output)| then RUN_OK else PARAM_ERROR
      ensures old(mode) == RUNNING && action == FLUSH ==> code == RUN_OK || code == FLUSH_OK
      ensures code == FINISH_OK ==> mode == FINISHING && strm.avail_out == 0 && state_out_pos < |w.zbits|
      ensures code == FLUSH_OK ==> mode == FLUSHING && strm.avail_out == 0
      ensures old(Tight()) && old(mode) != FLUSHING && action != FLUSH ==> Tight()
      ensures old(mode) == RUNNING && old(state) == INPUT && action == FINISH ==>
        (code == SEQUENCE_ERROR <==> old(strm.input) == [] && old(strm.avail_out) == 0)
      ensures action == FINISH && strm.avail_out > 0 && old(mode) == RUNNING ==> code == STREAM_END
      ensures action == FINISH && strm.avail_out > 0 && old(mode) == FINISHING ==>
        old(avail_in_expect) == |old(strm.input)| ==> code == STREAM_END
      ensures action == FINISH ==> code == SEQUENCE_ERROR || code == FINISH_OK || code == STREAM_END
      ensures old(mode) == RUNNING && action == FINISH && code == SEQUENCE_ERROR ==> strm.output == old(strm.output)
      ensures old(mode) == IDLE ==> code == SEQUENCE_ERROR
      ensures old(mode) == FLUSHING && (action != FLUSH || old(avail_in_expect) != |old(strm.input)|) ==>
        code == SEQUENCE_ERROR
      ensures old(mode) == FINISHING && (action != FINISH || old(avail_in_expect) != |old(strm.input)|) ==>
        code == SEQUENCE_ERROR
    {
      hide *;
      InvIs();
      ModesIs();
      StoppedIs(strm);
      FlowNone(strm.output, delivered);
      if mode == IDLE { return SEQUENCE_ERROR; }
      if mode == RUNNING {
        if action == RUN {
          var progress := HandleCompress(strm);
          StoppedIs(strm);
          InvIs();
          ModesIs();
          FlowLength(strm.output, delivered, old(strm.output), old(delivered));
          return if progress then RUN_OK else PARAM_ERROR;
        }
        avail_in_expect := |strm.input|;
        mode := if action == FLUSH then FLUSHING else FINISHING;
        InvIs();
        ModesIs();
        StoppedIs(strm);
      }
      if mode == FLUSHING {
        code := Flushing(strm, action);
      } else {
        code := Finishing(strm, action);
      }
    }

    method Flushing(strm: BzStream, action: Action) returns (code: ReturnCode)
      requires Inv() && Apart(strm) && mode == FLUSHING && !closed
      modifies strm, this`mode, this`consumed, this`avail_in_expect, this`state, this`combinedCRC, this`pieces,
               this`closed, this`state_out_pos, this`delivered, this`before, this`blockNo, w, buf, buf.block, buf.inUse
      ensures Inv() && !closed && consumed + strm.input == old(consumed) + old(strm.input)
      ensures Flow(strm.output, delivered, old(strm.output), old(delivered))
      ensures |strm.output| + strm.avail_out == |old(strm.output)| + old(strm.avail_out)
      ensures action != FLUSH || old(avail_in_expect) != |old(strm.input)| <==> code == SEQUENCE_ERROR
      ensures code == SEQUENCE_ERROR || code == FLUSH_OK || code == RUN_OK
      ensures code == RUN_OK ==> FlushedOut() && mode == RUNNING && strm.input == []
      ensures code == FLUSH_OK ==> mode == FLUSHING && strm.avail_out == 0
    {
      hide *;
      StoppedIs(strm);
      FlowNone(strm.output, delivered);
      if action != FLUSH || avail_in_expect != |strm.input| { return SEQUENCE_ERROR; }
      InvIs();
      ModesIs();
      var progress := HandleCompress(strm);
      StoppedIs(strm);
      InvIs();
      ModesIs();
      RunInHand();
      DeliveredSize(delivered, before, w.zbits, state_out_pos);
      var empty := buf.IsEmptyRL();
      if avail_in_expect > 0 || !empty || state_out_pos < |w.zbits| { return FLUSH_OK; }
      EndsFlushed();
      mode := RUNNING;
      InvIs();
      ModesIs();
      return RUN_OK;
    }

    method Finishing(strm: BzStream, action: Action) returns (code: ReturnCode)
      requires Inv() && Apart(strm) && mode == FINISHING && (closed ==> state_out_pos < |w.zbits|)
      modifies strm, this`mode, this`consumed, this`avail_in_expect, this`state, this`combinedCRC, this`pieces,
               this`closed, this`state_out_pos, this`delivered, this`before, this`blockNo, w, buf, buf.block, buf.inUse
      ensures Inv() && consumed + strm.input == old(consumed) + old(strm.input)
      ensures closed && mode != IDLE ==> state_out_pos < |w.zbits|
      ensures Flow(strm.output, delivered, old(strm.output), old(delivered))
      ensures |strm.output| + strm.avail_out == |old(strm.output)| + old(strm.avail_out)
      ensures action != FINISH || old(avail_in_expect) != |old(strm.input)| ==> code == SEQUENCE_ERROR
      ensures code == SEQUENCE_ERROR || code == FINISH_OK || code == STREAM_END
      ensures code == SEQUENCE_ERROR ==> strm.output == old(strm.output)
      ensures code == STREAM_END ==> Complete() && mode == IDLE && strm.input == []
      ensures code == FINISH_OK ==> mode == FINISHING && strm.avail_out == 0 && state_out_pos < |w.zbits|
      ensures action == FINISH && old(avail_in_expect) == |old(strm.input)| && strm.avail_out > 0 ==> code == STREAM_END
      ensures action == FINISH && old(avail_in_expect) == |old(strm.input)| && old(state) == INPUT ==>
        (code == SEQUENCE_ERROR <==> old(strm.input) == [] && old(strm.avail_out) == 0)
      ensures old(Tight()) ==> Tight()
    {
      hide *;
      StoppedIs(strm);
      FlowNone(strm.output, delivered);
      if action != FINISH || avail_in_expect != |strm.input| { return SEQUENCE_ERROR; }
      var progress := HandleCompress(strm);
      StoppedIs(strm);
      InvIs();
      ModesIs();
      RunInHand();
      DeliveredSize(delivered, before, w.zbits, state_out_pos);
      FlowLength(strm.output, delivered, old(strm.output), old(delivered));
      if !progress {
        FlowSame(strm.output, delivered, old(strm.output), old(delivered));
        return SEQUENCE_ERROR;
      }
      var empty := buf.IsEmptyRL();
      if avail_in_expect > 0 || !empty || state_out_pos < |w.zbits| { return FINISH_OK; }
      EndsComplete();
      mode := IDLE;
      InvIs();
      ModesIs();
      return STREAM_END;
    }
  }

  /** What was delivered is what was written to the output. */
  ghost predicate Flow(output: seq<byte>, delivered: seq<byte>, o0: seq<byte>, d0: seq<byte>) {
    |d0| <= |delivered| && delivered[..|d0|] == d0 && output == o0 + delivered[|d0|..]
  }

  lemma {:induction false} FlowIs(output: seq<byte>, delivered: seq<byte>, o0: seq<byte>, d0: seq<byte>)
    ensures Flow(output, delivered, o0, d0) <==>
      |d0| <= |delivered| && delivered[..|d0|] == d0 && output == o0 + delivered[|d0|..]
  {
  }

  lemma {:induction false} FlowNone(o: seq<byte>, d: seq<byte>)
    ensures Flow(o, d, o, d)
  {
    assert d[|d|..] == [] && o + [] == o;
  }

  lemma {:induction false} FlowSame(o: seq<byte>, d: seq<byte>, o0: seq<byte>, d0: seq<byte>)
    requires Flow(o, d, o0, d0) && |d| <= |d0|
    ensures o == o0
  {
  }

  lemma {:induction false} FlowLength(o: seq<byte>, d: seq<byte>, o0: seq<byte>, d0: seq<byte>)
    requires Flow(o, d, o0, d0)
    ensures |o| - |o0| == |d| - |d0|
  {
  }

  /** Two stretches of output in a row. */
  lemma {:induction false} FlowTrans(o2: seq<byte>, d2: seq<byte>, o1: seq<byte>, d1: seq<byte>, o0: seq<byte>,
                                     d0: seq<byte>)
    requires Flow(o2, d2, o1, d1) && Flow(o1, d1, o0, d0)
    ensures Flow(o2, d2, o0, d0) && |d0| <= |d1| <= |d2|
  {
    assert d2[..|d0|] == d2[..|d1|][..|d0|];
    assert d2[|d0|..] == d2[..|d1|][|d0|..] + d2[|d1|..];
  }

  lemma {:induction false} MagicLength(level: nat)
    requires 1 <= level <= 9
    ensures |MagicThen(level, [])| == 32
  {
    hide BitsOf;
  }

  lemma {:induction false} WordBound(crc: bv32)
    ensures BlockCrc.Word(crc) < 0x1_0000_0000
  {
  }

  lemma {:induction false} TrailerLength(u: nat)
    ensures |TrailerThen(1, WordThen(u, []))| == 80
  {
    hide *;
    TrailerSize(1, WordThen(u, []));
    WordLength(u, []);
  }

  lemma {:induction false} NotEmpty(z: seq<byte>, s: seq<bit>)
    requires ByteBits(z) == s && |s| >= 8
    ensures |z| > 0
  {
  }

  lemma {:induction false} CrcOf(rs: seq<Run>, block: seq<byte>, n: nat, inUse: seq<bool>, crc: bv32)
    requires Collected(rs, block, n, inUse, crc)
    ensures BlockCrc.Final(crc) == FinalCrc(Plain(rs)) && BlockCrc.Word(BlockCrc.Final(crc)) == CrcWord(Plain(rs))
  {
    hide Runs, Marks, BlockCrc.UpdateAll, Plain, Code;
  }

  lemma {:induction false} StartOk(level: nat, s: seq<bit>)
    requires 1 <= level <= 9 && s == []
    ensures Emitted(ByteBits([]) + s, [], level, false) && Delivered([], [], [], 0)
    ensures Accounted([], [], level, Plain([]) + Pending(NO_CHAR, 0)) && Combined([], 0) == 0
  {
  }

  lemma {:induction false} DeliveredSize(delivered: seq<byte>, before: seq<byte>, zbits: seq<byte>, pos: nat)
    requires Delivered(delivered, before, zbits, pos)
    ensures pos <= |zbits| && |delivered| == |before| + pos
  {
  }
}
