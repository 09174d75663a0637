/** The part of the compressor's state that collects input into a run-length coded block. */
module BlockBuffer {
  import opened Bytes
  import opened RunLength
  import BlockCrc

  const NO_CHAR := 256

  /** A run that may follow the runs of a block. */
  predicate Follows(rs: seq<Run>, ch: nat, len: nat) {
    if ch >= NO_CHAR then ch == NO_CHAR && len == 0
    else 1 <= len <= 255 && (rs != [] && rs[|rs|-1].ch == ch ==> rs[|rs|-1].len == 255)
  }

  function Pending(ch: nat, len: nat): seq<byte> {
    if ch < NO_CHAR then Rep(ch, len) else []
  }

  /** Exactly the bytes of b are marked. */
  ghost predicate Marks(inUse: seq<bool>, b: seq<byte>) {
    |inUse| == 256 && forall v: byte {:trigger inUse[v]} :: inUse[v] <==> v in b
  }

  /** block[..n] codes the runs, with the marks and the checksum that belong to it. */
  ghost predicate Collected(rs: seq<Run>, block: seq<byte>, n: nat, inUse: seq<bool>, crc: bv32) {
    && Runs(rs) && n <= |block| && block[..n] == Code(rs) && Marks(inUse, Code(rs))
    && crc == BlockCrc.UpdateAll(0xffff_ffff, Plain(rs))
  }

  lemma {:induction false} RunsAppend(rs: seq<Run>, ch: byte, len: nat)
    requires Runs(rs) && Follows(rs, ch, len)
    ensures Runs(rs + [Run(ch, len)])
    ensures Code(rs + [Run(ch, len)]) == Code(rs) + PairCode(ch, len)
    ensures Plain(rs + [Run(ch, len)]) == Plain(rs) + Rep(ch, len)
  {
    CodeAppend(rs, Run(ch, len));
  }

  lemma {:induction false} MarksAppend(inUse: seq<bool>, b: seq<byte>, ch: byte, len: nat)
    requires Marks(inUse, b) && 1 <= len <= 255
    ensures len < 4 ==> Marks(inUse[ch := true], b + PairCode(ch, len))
    ensures len >= 4 ==> Marks(inUse[ch := true][len - 4 := true], b + PairCode(ch, len))
  {
    var p := PairCode(ch, len);
    assert p[0] == ch;
    forall v: byte ensures v in b + p <==> v in b || v == ch || (len >= 4 && v == len - 4) {
      assert v in b + p <==> v in b || v in p;
      if len >= 4 {
        assert p[4] == len - 4;
        assert v in p ==> v == ch || v == len - 4;
      }
    }
  }

  lemma {:induction false} CollectedAppend(rs: seq<Run>, block: seq<byte>, n: nat, inUse: seq<bool>, crc: bv32,
                                           block': seq<byte>, inUse': seq<bool>, ch: byte, len: nat)
    requires Collected(rs, block, n, inUse, crc) && Follows(rs, ch, len)
    requires n + |PairCode(ch, len)| <= |block'| && block'[..n + |PairCode(ch, len)|] == block[..n] + PairCode(ch, len)
    requires inUse' == if len < 4 then inUse[ch := true] else inUse[ch := true][len - 4 := true]
    ensures Collected(rs + [Run(ch, len)], block', n + |PairCode(ch, len)|, inUse',
                      BlockCrc.UpdateAll(crc, Rep(ch, len)))
  {
    RunsAppend(rs, ch, len);
    MarksAppend(inUse, Code(rs), ch, len);
    hide Runs, Marks, BlockCrc.UpdateAll, BlockCrc.Update, PairCode, Rep, Code, Plain;
    BlockCrc.UpdateAllConcat(0xffff_ffff, Plain(rs), Rep(ch, len));
  }

  /** Only the block itself matters, not what lies behind it. */
  lemma {:induction false} CollectedSame(rs: seq<Run>, block: seq<byte>, block': seq<byte>, n: nat, inUse: seq<bool>,
                                         crc: bv32)
    requires Collected(rs, block, n, inUse, crc) && |block'| == |block| && n <= |block| && block'[..n] == block[..n]
    ensures Collected(rs, block', n, inUse, crc)
  {
    hide Runs, Marks, BlockCrc.UpdateAll, Plain, Code;
  }

  lemma {:induction false} CollectedStart(block: seq<byte>, inUse: seq<bool>)
    requires |inUse| == 256 && forall v :: 0 <= v < 256 ==> !inUse[v]
    ensures Collected([], block, 0, inUse, 0xffff_ffff)
  {
    assert forall v: byte :: v !in Code([]);
  }

  lemma {:induction false} FollowsEmpty(rs: seq<Run>, ch: nat, len: nat)
    requires Follows(rs, ch, len)
    ensures Follows([], ch, len)
  {
  }

  lemma {:induction false} FollowsNext(rs: seq<Run>, ch: nat, len: nat, c: byte)
    requires Follows(rs, ch, len)
    ensures ch < NO_CHAR && (c != ch || len == 255) ==> Follows(rs + [Run(ch, len)], c, 1)
    ensures ch == NO_CHAR && rs == [] ==> Follows(rs, c, 1)
    ensures c == ch && len < 255 ==> Follows(rs, c, len + 1)
    ensures ch <= NO_CHAR && (ch < NO_CHAR ==> 1 <= len <= 255) && (len > 0 ==> ch < NO_CHAR)
  {
  }

  lemma {:induction false} PairLength(ch: byte, len: nat)
    requires 1 <= len <= 255
    ensures |PairCode(ch, len)| == if len < 4 then len else 5
  {
  }

  class Buffer {
    const block: array<byte>
    const inUse: array<bool>
    var nblock: nat
    var blockCRC: bv32
    var state_in_ch: nat
    var state_in_len: nat
    ghost var runs: seq<Run>

    ghost predicate Valid()
      reads this, block, inUse
    {
      && inUse.Length == 256
      && Collected(runs, block[..], nblock, inUse[..], blockCRC)
      && Follows(runs, state_in_ch, state_in_len)
    }

    /** The input that the block and the run in hand stand for. */
    ghost function Taken(): seq<byte>
      reads this
    {
      Plain(runs) + Pending(state_in_ch, state_in_len)
    }

    constructor (blockSize100k: nat)
      ensures Valid() && runs == [] && state_in_ch == NO_CHAR && nblock == 0
      ensures block.Length == BLOCK_UNIT * blockSize100k + N_OVERSHOOT && fresh(block) && fresh(inUse)
    {
      block := new byte[BLOCK_UNIT * blockSize100k + N_OVERSHOOT];
      inUse := new bool[256](i => false);
      nblock, blockCRC, state_in_ch, state_in_len, runs := 0, 0xffff_ffff, NO_CHAR, 0, [];
      new;
      CollectedStart(block[..], inUse[..]);
    }

    /** The part of prepare_new_block that concerns the block; the run in hand is kept. */
    method PrepareNewBlock()
      requires Valid()
      modifies this`nblock, this`blockCRC, this`runs, inUse
      ensures Valid() && runs == [] && nblock == 0
    {
      hide Collected, Follows, Runs, Code, Plain;
      FollowsEmpty(runs, state_in_ch, state_in_len);
      nblock, blockCRC, runs := 0, 0xffff_ffff, [];
      var i := 0;
      while i < 256
        invariant 0 <= i <= 256 && forall v :: 0 <= v < i ==> !inUse[v]
        modifies inUse
      {
        inUse[i] := false;
        i := i + 1;
      }
      CollectedStart(block[..], inUse[..]);
    }

    /** init_RL. */
    method InitRL()
      requires inUse.Length == 256 && Collected(runs, block[..], nblock, inUse[..], blockCRC)
      modifies this`state_in_ch, this`state_in_len
      ensures Valid() && state_in_ch == NO_CHAR && Pending(state_in_ch, state_in_len) == []
    {
      hide BlockCrc.Update, BlockCrc.TableEntry, Collected;
      state_in_ch, state_in_len := NO_CHAR, 0;
    }

    /** isempty_RL. */
    method IsEmptyRL() returns (empty: bool)
      requires Valid()
      ensures empty <==> Pending(state_in_ch, state_in_len) == []
    {
      empty := !(state_in_ch < 256 && state_in_len > 0);
    }

    method UpdateCrc(ch: byte, len: nat)
      modifies this`blockCRC
      ensures blockCRC == BlockCrc.UpdateAll(old(blockCRC), Rep(ch, len))
    {
      hide BlockCrc.Update;
      var i := 0;
      assert Rep(ch, 0) == [];
      while i < len
        invariant 0 <= i <= len && blockCRC == BlockCrc.UpdateAll(old(blockCRC), Rep(ch, i))
      {
        assert Rep(ch, i + 1)[..i] == Rep(ch, i);
        blockCRC := BlockCrc.Update(blockCRC, ch);
        i := i + 1;
      }
    }

    method Put(c: byte)
      requires nblock < block.Length
      modifies this`nblock, block
      ensures nblock == old(nblock) + 1 && block[..nblock] == old(block[..nblock]) + [c]
    {
      block[nblock] := c;
      nblock := nblock + 1;
    }

    /** The switch of add_pair_to_block. */
    method PutPair(ch: byte, len: nat)
      requires 1 <= len <= 255 && nblock + 5 <= block.Length && block as object != inUse && inUse.Length == 256
      modifies this`nblock, block, inUse
      ensures nblock == old(nblock) + |PairCode(ch, len)|
      ensures nblock <= block.Length && block[..nblock] == old(block[..nblock]) + PairCode(ch, len)
      ensures inUse[..] == if len < 4 then old(inUse[..]) else old(inUse[..])[len - 4 := true]
    {
      ghost var b := block[..nblock];
      match len
      case 1 => Put(ch);
      case 2 => Put(ch); Put(ch);
      case 3 => Put(ch); Put(ch); Put(ch);
      case _ =>
        inUse[len - 4] := true;
        Put(ch); Put(ch); Put(ch); Put(ch); Put(len - 4);
    }

    /** add_pair_to_block. */
    method AddPair()
      requires Valid() && state_in_ch < NO_CHAR && nblock + 5 <= block.Length && block as object != inUse
      modifies this`nblock, this`blockCRC, this`runs, block, inUse
      ensures inUse.Length == 256 && Collected(runs, block[..], nblock, inUse[..], blockCRC)
      ensures runs == old(runs) + [Run(state_in_ch, state_in_len)] && nblock <= old(nblock) + 5
    {
      hide Collected, Runs, Code, Plain, Follows, PairCode, Rep, BlockCrc.UpdateAll, BlockCrc.Update,
        BlockCrc.TableEntry;
      var ch: byte := state_in_ch;
      ghost var b0, u0, n0, crc0 := block[..], inUse[..], nblock, blockCRC;
      FollowsNext(runs, state_in_ch, state_in_len, ch);
      PairLength(ch, state_in_len);
      CollectedSize(runs, b0, n0, u0, crc0);
      UpdateCrc(ch, state_in_len);
      inUse[state_in_ch] := true;
      PutPair(ch, state_in_len);
      assert block[..][..nblock] == block[..nblock];
      CollectedAppend(runs, b0, n0, u0, crc0, block[..], inUse[..], ch, state_in_len);
      runs := runs + [Run(ch, state_in_len)];
    }

    /** flush_RL. */
    method FlushRL()
      requires Valid() && nblock + 5 <= block.Length && block as object != inUse
      modifies this, block, inUse
      ensures Valid() && state_in_ch == NO_CHAR && Taken() == old(Taken()) == Plain(runs)
      ensures nblock <= old(nblock) + 5
    {
      hide Collected;
      if state_in_ch < 256 {
        RunsOf(runs, block[..], nblock, inUse[..], blockCRC);
        RunsAppend(runs, state_in_ch, state_in_len);
        AddPair();
      }
      InitRL();
      assert Plain(runs) + [] == Plain(runs);
    }

    lemma {:induction false} RunsOf(rs: seq<Run>, b: seq<byte>, n: nat, u: seq<bool>, crc: bv32)
      requires Collected(rs, b, n, u, crc)
      ensures Runs(rs)
    {
    }

    /** ADD_CHAR_TO_BLOCK. */
    method AddChar(zchh: byte)
      requires Valid() && (state_in_ch == NO_CHAR ==> runs == []) && nblock + 5 <= block.Length
        && block as object != inUse
      modifies this, block, inUse
      ensures Valid() && state_in_ch < NO_CHAR && Taken() == old(Taken()) + [zchh]
      ensures nblock <= old(nblock) + 5
    {
      hide Collected, Runs, Code, Plain, Follows, Pending, Rep;
      ghost var r0, c0, l0 := runs, state_in_ch, state_in_len;
      FollowsNext(r0, c0, l0, zchh);
      RunsOf(runs, block[..], nblock, inUse[..], blockCRC);
      if zchh != state_in_ch && state_in_len == 1 {
        RunsAppend(runs, state_in_ch, state_in_len);
        AddSingle();
        state_in_ch := zchh;
      } else if zchh != state_in_ch || state_in_len == 255 {
        if state_in_ch < 256 {
          RunsAppend(runs, state_in_ch, state_in_len);
          AddPair();
        }
        state_in_ch := zchh;
        state_in_len := 1;
      } else {
        state_in_len := state_in_len + 1;
      }
      TakenNext(Plain(r0), c0, l0, zchh);
    }

    lemma {:induction false} TakenNext(plain: seq<byte>, ch: nat, len: nat, c: byte)
      ensures plain + Pending(ch, len) + Pending(c, 1) == (plain + Pending(ch, len)) + [c]
      ensures ch < NO_CHAR ==> Pending(ch, len) == Rep(ch, len)
      ensures ch >= NO_CHAR ==> plain + Pending(c, 1) == (plain + Pending(ch, len)) + [c]
      ensures ch == c ==> plain + Pending(ch, len + 1) == (plain + Pending(ch, len)) + [c]
    {
    }

    lemma {:induction false} PairOne(c: byte, crc: bv32)
      ensures PairCode(c, 1) == [c] && BlockCrc.UpdateAll(crc, Rep(c, 1)) == BlockCrc.Update(crc, c)
    {
      hide BlockCrc.Update;
      assert Rep(c, 1)[..0] == [];
    }

    lemma {:induction false} CollectedSize(rs: seq<Run>, b: seq<byte>, n: nat, u: seq<bool>, crc: bv32)
      requires Collected(rs, b, n, u, crc)
      ensures n <= |b| && |u| == 256
    {
    }

    /** The fast track: a run of one byte. */
    method AddSingle()
      requires Valid() && state_in_len == 1 && state_in_ch < NO_CHAR && nblock < block.Length
        && block as object != inUse
      modifies this`nblock, this`blockCRC, this`runs, block, inUse
      ensures inUse.Length == 256 && Collected(runs, block[..], nblock, inUse[..], blockCRC)
      ensures runs == old(runs) + [Run(state_in_ch, 1)] && nblock == old(nblock) + 1
    {
      hide Collected, Runs, Code, Plain, Follows, PairCode, Rep, BlockCrc.UpdateAll, BlockCrc.Update,
        BlockCrc.TableEntry;
      var ch: byte := state_in_ch;
      ghost var b0, u0, n0, crc0 := block[..], inUse[..], nblock, blockCRC;
      PairLength(ch, 1);
      PairOne(ch, blockCRC);
      CollectedSize(runs, b0, n0, u0, crc0);
      blockCRC := BlockCrc.Update(blockCRC, ch);
      inUse[state_in_ch] := true;
      Put(ch);
      assert block[..][..nblock] == block[..nblock];
      CollectedAppend(runs, b0, n0, u0, crc0, block[..], inUse[..], ch, 1);
      runs := runs + [Run(ch, 1)];
    }
  }
}
