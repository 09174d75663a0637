/** BZ2_bzBuffToBuffCompress and BZ2_bzBuffToBuffDecompress: the library's round trip. */
module Buffers {
  import opened Bytes
  import opened Powers
  import opened BitStream
  import opened BlockFormat
  import opened StreamFormat
  import opened Compressor
  import opened StreamSize
  import opened StreamMeaning
  import opened Protocol
  import opened Decompressor

  /** z is a complete compressed form of source. */
  ghost predicate Archive(z: seq<byte>, source: seq<byte>) {
    exists xs, level :: Archives(z, source, xs, level)
  }

  ghost predicate Archives(z: seq<byte>, source: seq<byte>, xs: seq<Piece>, level: nat) {
    Pieces(xs, level) && Closed(ByteBits(z), xs, level) && source == Plains(xs, |xs|)
  }

  lemma {:induction false} ArchiveBits(z: seq<byte>, source: seq<byte>, xs: seq<Piece>, level: nat)
    returns (tail: seq<bit>)
    requires Archives(z, source, xs, level)
    ensures Pieces(xs, level) && source == Plains(xs, |xs|) && ByteBits(z) == StreamBits(xs, level) + tail
  {
    hide StreamBits, Pieces, Plains, BitsOf;
    var pad :| 0 <= pad < 8 && ByteBits(z) == StreamBits(xs, level) + BitsOf(0, pad);
    tail := BitsOf(0, pad);
  }

  // ----- the archive of nothing

  function EmptyArchive(level: nat): seq<byte>
    requires 1 <= level <= 9
  {
    [0x42, 0x5a, 0x68, 0x30 + level, 0x17, 0x72, 0x45, 0x38, 0x50, 0x90, 0, 0, 0, 0]
  }

  lemma {:induction false} ExpandSomething(s: seq<byte>)
    requires s != []
    ensures RunLength.Expand(s) != []
  {
  }

  /** Only the stream without a block stands for nothing. */
  lemma {:induction false} NoBlocks(xs: seq<Piece>, level: nat, k: nat)
    requires Pieces(xs, level) && k <= |xs| && Plains(xs, k) == []
    ensures k == 0
  {
    hide RunLength.Expand;
    if k > 0 {
      assert PieceOk(xs[k - 1], level);
      ExpandSomething(xs[k - 1].code);
    }
  }

  lemma {:induction false} BytesOf(v: nat, n: nat, b: byte)
    ensures BitsOf(256 * v + b, 8 * n + 8) == BitsOf(v, 8 * n) + BitsOf(b, 8)
  {
    hide BitsOf;
    ByteFollows(v, 8 * n, b, []);
    assert BitsOf(256 * v + b, 8 * n + 8) + [] == BitsOf(256 * v + b, 8 * n + 8);
    assert BitsOf(b, 8) + [] == BitsOf(b, 8);
  }

  /** The bits of the empty stream are those of fourteen bytes. */
  lemma {:induction false} EmptyBits(level: nat)
    requires 1 <= level <= 9
    ensures ByteBits(EmptyArchive(level))
      == BitsOf(0x425a_6830 + level, 32) + (BitsOf(0x1772_4538_5090, 48) + BitsOf(0, 32))
  {
    hide BitsOf, ByteBits, EmptyArchive;
    var a: seq<byte> := [0x42, 0x5a, 0x68, 0x30 + level];
    var b: seq<byte> := [0x17, 0x72, 0x45, 0x38, 0x50, 0x90];
    var c: seq<byte> := [0, 0, 0, 0];
    assert EmptyArchive(level) == a + (b + c) by { EmptyIs(level); }
    ByteBitsConcat(a, b + c);
    ByteBitsConcat(b, c);
    NumberBits(a, 4);
    NumberBits(b, 6);
    NumberBits(c, 4);
    assert a[..4] == a && b[..6] == b && c[..4] == c;
    assert Number(a, 1) == 0x42 && Number(a, 2) == 0x425a && Number(a, 3) == 0x425a68;
    assert Number(a, 4) == 0x425a_6830 + level;
    assert Number(b, 2) == 0x1772 && Number(b, 4) == 0x1772_4538 && Number(b, 6) == 0x1772_4538_5090;
    assert Number(c, 2) == 0 && Number(c, 4) == 0;
  }

  /** The number that the first k bytes make up, the first the highest. */
  function Number(z: seq<byte>, k: nat): nat
    requires k <= |z|
  {
    if k == 0 then 0 else 256 * Number(z, k - 1) + z[k - 1] as nat
  }

  lemma {:induction false} NumberBits(z: seq<byte>, k: nat)
    requires k <= |z|
    ensures ByteBits(z[..k]) == BitsOf(Number(z, k), 8 * k)
  {
    hide BitsOf;
    if k == 0 {
      NoBits();
    } else {
      NumberBits(z, k - 1);
      assert z[..k] == z[..k - 1] + [z[k - 1]];
      ByteBitsAppend(z[..k - 1], z[k - 1]);
      BytesOf(Number(z, k - 1), k - 1, z[k - 1]);
    }
  }

  lemma {:induction false} NoBits()
    ensures BitsOf(0, 0) == []
  {
  }

  lemma {:induction false} SameBytes(y: seq<byte>, z: seq<byte>)
    requires ByteBits(y) == ByteBits(z)
    ensures y == z
    decreases |y|
  {
    hide BitsOf;
    if y != [] {
      var m := |y| - 1;
      assert |y| == |z|;
      var p, q := ByteBits(y[..m]), ByteBits(z[..m]);
      assert p == ByteBits(y)[..8 * m] && q == ByteBits(z)[..8 * m];
      SameBytes(y[..m], z[..m]);
      assert BitsOf(y[m], 8) == ByteBits(y)[8 * m..] && BitsOf(z[m], 8) == ByteBits(z)[8 * m..];
      Pow2Values();
      ValueOfBits(y[m], 8);
      ValueOfBits(z[m], 8);
      assert y == y[..m] + [y[m]] && z == z[..m] + [z[m]];
    }
  }

  /** Nothing has one archive at each level, and these are its bytes. */
  lemma {:induction false} ArchiveOfNothing(z: seq<byte>, xs: seq<Piece>, level: nat)
    requires Archives(z, [], xs, level)
    ensures 1 <= level <= 9 && z == EmptyArchive(level)
  {
    hide BitsOf, ByteBits, StreamBits, EmptyArchive;
    NoBlocks(xs, level, |xs|);
    StreamLayout(xs, level);
    EmptyBits(level);
    var pad :| 0 <= pad < 8 && ByteBits(z) == StreamBits(xs, level) + BitsOf(0, pad);
    assert StreamBits(xs, level) == ByteBits(EmptyArchive(level));
    assert |ByteBits(z)| == 8 * |z| && |EmptyArchive(level)| == 14 by { EmptySize(level); }
    assert BitsOf(0, pad) == [];
    SameBytes(z, EmptyArchive(level));
  }

  /** And they are one: what either decoder makes of them is nothing. */
  lemma {:induction false} NothingArchived(level: nat)
    requires 1 <= level <= 9
    ensures Archive(EmptyArchive(level), [])
  {
    hide BitsOf, ByteBits, StreamBits, EmptyArchive;
    StreamLayout([], level);
    EmptyBits(level);
    NoBits();
    assert ByteBits(EmptyArchive(level)) == StreamBits([], level) + BitsOf(0, 0);
    assert Archives(EmptyArchive(level), [], [], level);
  }

  lemma {:induction false} EmptyIs(level: nat)
    requires 1 <= level <= 9
    ensures EmptyArchive(level)
      == [0x42, 0x5a, 0x68, 0x30 + level] + ([0x17, 0x72, 0x45, 0x38, 0x50, 0x90] + [0, 0, 0, 0])
  {
  }

  lemma {:induction false} EmptySize(level: nat)
    requires 1 <= level <= 9
    ensures |EmptyArchive(level)| == 14
  {
  }

  // ----- an archive determines its source

  /** What the decoder makes of a compressed form is what was compressed. */
  lemma {:induction false} ArchiveMeans(z: seq<byte>, source: seq<byte>)
    requires Archive(z, source)
    ensures MeaningOfBytes(z) == Meaning(source, Complete)
  {
    hide Archives, Pieces, StreamBits, Plains, MeaningOf, ByteBits;
    var xs, level :| Archives(z, source, xs, level);
    var tail := ArchiveBits(z, source, xs, level);
    StreamMeans(xs, level, tail);
  }

  /** No two inputs have the same compressed form. */
  lemma {:induction false} ArchiveUnique(z: seq<byte>, a: seq<byte>, b: seq<byte>)
    requires Archive(z, a) && Archive(z, b)
    ensures a == b
  {
    hide Archive, MeaningOfBytes;
    ArchiveMeans(z, a);
    ArchiveMeans(z, b);
  }

  // ----- the two calls

  method NewStream(source: seq<byte>, destLen: nat) returns (strm: BzStream)
    ensures fresh(strm) && strm.input == source && strm.avail_out == destLen && strm.output == []
  {
    strm := new BzStream();
    strm.input, strm.avail_out, strm.output := source, destLen, [];
  }

  method NewCompressor(level: nat, workFactor: int, strm: BzStream) returns (s: EState)
    requires 1 <= level <= 9 && 0 <= workFactor <= 250
    ensures fresh(s) && fresh(s.buf) && fresh(s.w) && fresh(s.buf.block) && fresh(s.buf.inUse)
    ensures s.Inv() && s.Tight() && s.Apart(strm) && s.mode == RUNNING && s.state == INPUT && !s.closed
    ensures s.consumed == [] && s.delivered == [] && s.blockSize100k == level
  {
    hide *;
    s := new EState(level, workFactor);
    s.StoppedIs(strm);
  }

  /**
   * The source is compressed whenever there is room for the largest output it can have; an output buffer that is
   * called too small has been filled.
   */
  method BuffToBuffCompress(source: seq<byte>, destLen: nat, blockSize100k: int, workFactor: int)
    returns (ret: ReturnCode, dest: seq<byte>)
    ensures ret == OK || ret == PARAM_ERROR || ret == OUTBUFF_FULL || ret == SEQUENCE_ERROR
    ensures ret == PARAM_ERROR <==> !(1 <= blockSize100k <= 9 && 0 <= workFactor <= 250)
    ensures ret != PARAM_ERROR ==> (ret == SEQUENCE_ERROR <==> source == [] && destLen == 0)
    ensures ret == OK ==> |dest| <= destLen && Archive(dest, source)
    ensures ret == OK ==> exists xs :: Archives(dest, source, xs, blockSize100k)
    ensures ret == OK && source == [] ==> 1 <= blockSize100k <= 9 && dest == EmptyArchive(blockSize100k)
    ensures ret == OUTBUFF_FULL ==> |dest| == destLen
    ensures ret == OUTBUFF_FULL ==> 1 <= blockSize100k <= 9 && destLen < Bound(|source|, blockSize100k)
  {
    hide *;
    if !(1 <= blockSize100k <= 9 && 0 <= workFactor <= 250) { return PARAM_ERROR, []; }
    var strm := NewStream(source, destLen);
    var s := NewCompressor(blockSize100k, workFactor, strm);
    var code := s.BzCompress(strm, FINISH);
    FlowIs(strm.output, s.delivered, [], []);
    if code == FINISH_OK {
      s.OutputBound();
      s.InvIs();
      DeliveredSize(s.delivered, s.before, s.w.zbits, s.state_out_pos);
      BoundGrows(|s.consumed|, |source|, blockSize100k);
      return OUTBUFF_FULL, strm.output;
    }
    if code != STREAM_END { return SEQUENCE_ERROR, []; }
    dest := strm.output;
    assert [] + source == source && s.consumed + [] == s.consumed;
    Archived(s, dest, source);
    if source == [] { ArchiveOfNothing(dest, s.pieces, blockSize100k); }
    ret := OK;
  }

  lemma {:induction false} Archived(s: EState, dest: seq<byte>, source: seq<byte>)
    requires s.Complete() && dest == s.delivered && source == s.consumed
    ensures Archive(dest, source) && Archives(dest, source, s.pieces, s.blockSize100k)
  {
    hide Closed, Pieces, Plains;
    assert Archives(dest, source, s.pieces, s.blockSize100k);
  }

  method NewDecompressor(small: bool, source: seq<byte>) returns (s: BzDecompressor)
    ensures fresh(s) && fresh(s.decoder) && fresh(s.decoder.reader) && fresh(s.blk)
    ensures fresh(s.decoder.seqToUnseq) && fresh(s.decoder.mtf) && fresh(s.decoder.mtf.mtfa)
      && fresh(s.decoder.mtf.mtfbase)
    ensures s.Valid() && !s.idle && !s.decoder.state.StreamEnd? && !s.decoder.state.DataError?
    ensures s.Produced() == [] && s.Due(source) == MeaningOfBytes(source)
  {
    hide *;
    s := new BzDecompressor(small);
    s.DueStart(source);
  }

  /** What the call returns for a stream that means m. */
  ghost predicate Returned(m: Meaning, destLen: nat, ret: ReturnCode, dest: seq<byte>) {
    match m.ending
    case Complete => if |m.plain| <= destLen then ret == OK && dest == m.plain else ret == OUTBUFF_FULL
    case Cut => if |m.plain| < destLen then ret == UNEXPECTED_EOF && dest == m.plain else ret == OUTBUFF_FULL
    case Broken => ret == DATA_ERROR || (ret == OUTBUFF_FULL && |dest| == destLen)
  }

  lemma {:induction false} ReturnedIs(m: Meaning, destLen: nat, status: ReturnCode, out: seq<byte>, dest: seq<byte>,
                                      room: nat)
    requires Result(status, m, out, true, room) && |dest| + room == destLen && (status != DATA_ERROR ==> out == dest)
    ensures status == OK && room > 0 ==> Returned(m, destLen, UNEXPECTED_EOF, dest)
    ensures status == OK && room == 0 ==> Returned(m, destLen, OUTBUFF_FULL, dest)
    ensures status == STREAM_END ==> Returned(m, destLen, OK, dest)
    ensures status == DATA_ERROR ==> Returned(m, destLen, DATA_ERROR, dest)
    ensures status == OK || status == STREAM_END || status == DATA_ERROR
  {
  }

  /**
   * For any source the return code and the bytes are those of what it means as a stream; so whatever an archive was
   * made from is what comes back, given room for it.
   */
  method BuffToBuffDecompress(source: seq<byte>, destLen: nat, small: bool) returns (ret: ReturnCode, dest: seq<byte>)
    ensures Returned(MeaningOfBytes(source), destLen, ret, dest) && |dest| <= destLen
    ensures forall plain {:trigger Archive(source, plain)} :: Archive(source, plain) ==>
      if |plain| <= destLen then ret == OK && dest == plain else ret == OUTBUFF_FULL
  {
    hide *;
    var strm := NewStream(source, destLen);
    var s := NewDecompressor(small, source);
    assert source + [] == source;
    var status := s.BzDecompress(strm, []);
    dest := strm.output;
    forall plain | Archive(source, plain) ensures MeaningOfBytes(source) == Meaning(plain, Complete) {
      ArchiveMeans(source, plain);
    }
    FlowIs(dest, s.Produced(), [], []);
    ResultCodes(status, MeaningOfBytes(source), s.Produced(), true, strm.avail_out);
    assert [] + s.Produced()[0..] == s.Produced();
    ReturnedIs(MeaningOfBytes(source), destLen, status, s.Produced(), dest, strm.avail_out);
    ReturnedOnly(MeaningOfBytes(source), destLen);
    if status == OK { return if strm.avail_out > 0 then UNEXPECTED_EOF else OUTBUFF_FULL, dest; }
    if status != STREAM_END { return status, dest; }
    ret := OK;
  }

  lemma {:induction false} ReturnedOnly(m: Meaning, destLen: nat)
    ensures forall ret, dest {:trigger Returned(m, destLen, ret, dest)} ::
      Returned(m, destLen, ret, dest) && m.ending == Complete ==>
        if |m.plain| <= destLen then ret == OK && dest == m.plain else ret == OUTBUFF_FULL
  {
  }
}
