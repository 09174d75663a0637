/** The part of the decompressor that turns a decoded last column into output bytes. */
module BlockOutput {
  import opened Bytes
  import opened LastToFirst
  import opened WalkTables
  import opened RunLength
  import BlockCrc

  /** The run-length coded block that the walk from row orig reads off the last column l. */
  ghost function BlockOf(l: seq<byte>, orig: nat): (s: seq<byte>)
    requires orig < |l|
    ensures |s| == |l|
    ensures forall k :: 0 <= k < |l| ==> s[k] == Decoded(l, orig, k)
  {
    seq(|l|, k requires 0 <= k < |l| => Decoded(l, orig, k))
  }

  /** Binary search: the byte whose run of first-column rows contains indx. */
  method IndexIntoF(indx: nat, cftab: array<nat>, ghost l: seq<byte>) returns (nb: byte)
    requires indx < |l|
    requires cftab.Length == 257 && IsCftab(cftab[..], l)
    ensures nb == l[InvT(l, indx)]
  {
    var lo, hi := 0, 256;
    StartTotal(l);
    assert cftab[..][0] == Start(l, 0) && cftab[..][256] == Start(l, 256);
    while hi - lo != 1
      invariant 0 <= lo < hi <= 256
      invariant Start(l, lo) <= indx < Start(l, hi)
      decreases hi - lo
    {
      var mid := (lo + hi) / 2;
      assert cftab[..][mid] == Start(l, mid);
      if indx >= cftab[mid] { lo := mid; } else { hi := mid; }
    }
    nb := lo;
    FirstColumnIs(l, indx, nb);
  }

  lemma {:induction false} FirstColumnIs(l: seq<byte>, r: nat, c: byte)
    requires r < |l| && Start(l, c) <= r < End(l, c)
    ensures l[InvT(l, r)] == c
  {
    var d := l[InvT(l, r)];
    FirstColumn(l, r);
    if c < d { EndBelow(l, c, d); }
    if d < c { EndBelow(l, d, c); }
  }

  /** The bytes of the block from number u-1 on. */
  ghost function RestFrom(l: seq<byte>, orig: nat, u: nat): (s: seq<byte>)
    requires orig < |l|
    ensures |s| == if 1 <= u <= |l| then |l| + 1 - u else 0
    ensures forall j :: 0 <= j < |s| ==> s[j] == Decoded(l, orig, u - 1 + j)
  {
    if 1 <= u <= |l| then BlockOf(l, orig)[u - 1..] else []
  }

  lemma {:induction false} RestDrop(l: seq<byte>, orig: nat, u: nat, m: nat)
    requires orig < |l| && 1 <= u && m <= |RestFrom(l, orig, u)|
    ensures RestFrom(l, orig, u + m) == RestFrom(l, orig, u)[m..]
  {
  }

  /** How a run that was read off the bytes s, in m steps, shows up in s. */
  ghost predicate RunRead(s: seq<byte>, ch: byte, len: nat, m: nat) {
    m <= |s| && Expand(s) == Rep(ch, len) + Expand(s[m..]) && WellFormed(s) == WellFormed(s[m..])
  }

  lemma {:induction false} ShortRunRead(s: seq<byte>, r: nat)
    requires 1 <= r <= 3 && r <= |s|
    requires forall i :: 0 <= i < r ==> s[i] == s[0]
    requires r == |s| || s[r] != s[0]
    ensures RunRead(s, s[0], r, r)
  {
    ExpandShortRun(s, r);
  }

  lemma {:induction false} LongRunRead(s: seq<byte>)
    requires |s| >= 4 && s[0] == s[1] == s[2] == s[3]
    ensures |s| > 4 ==> RunRead(s, s[0], s[4] as int + 4, 5)
    ensures |s| == 4 ==> !WellFormed(s)
  {
    ExpandLongRun(s);
  }

  /** The fields that the output loop works on; the fast decoder keeps them in locals during a call. */
  datatype Registers = Registers(tPos: nat, used: nat, k0: byte, ch: byte, len: nat, crc: bv32)

  lemma {:induction false} RepSplit(ch: byte, len: nat, n: nat, out: seq<byte>, e: seq<byte>)
    requires n <= len
    ensures out + (Rep(ch, len) + e) == (out + Rep(ch, n)) + (Rep(ch, len - n) + e)
  {
    assert Rep(ch, len) == Rep(ch, n) + Rep(ch, len - n);
  }

  lemma {:induction false} ExpandNonempty(s: seq<byte>)
    requires s != []
    ensures Expand(s) != []
  {
  }

  class DState {
    const blockSize100k: nat
    const smallDecompress: bool
    const cftab: array<nat>
    const tt: array<nat>
    const ll16: array<u16>
    const ll4: array<byte>
    const cftabCopy: array<nat>
    var origPtr: nat
    var nblock: nat
    var regs: Registers
    ghost var column: seq<byte>
    ghost var cycle: seq<nat>

    constructor (size: nat, small: bool)
      requires 1 <= size <= 9
      ensures blockSize100k == size && smallDecompress == small
      ensures cftab.Length == 257 && fresh(cftab) && cftabCopy.Length == 257 && fresh(cftabCopy) && cftab != cftabCopy
      ensures tt.Length == (if small then 0 else BLOCK_UNIT * size) && fresh(tt)
      ensures ll16.Length == (if small then BLOCK_UNIT * size else 0) && fresh(ll16)
      ensures ll4.Length == (if small then (1 + BLOCK_UNIT * size) / 2 else 0) && fresh(ll4)
    {
      blockSize100k, smallDecompress := size, small;
      cftab := new nat[257];
      cftabCopy := new nat[257];
      tt := new nat[if small then 0 else BLOCK_UNIT * size];
      ll16 := new u16[if small then BLOCK_UNIT * size else 0];
      ll4 := new byte[if small then (1 + BLOCK_UNIT * size) / 2 else 0];
      origPtr, nblock, regs, column, cycle := 0, 0, Registers(0, 0, 0, 0, 0, 0), [], [];
    }

    /** The walk tables belong to the column. */
    ghost predicate Tables()
      reads this`column, this`cycle, this`nblock, this`origPtr, cftab, tt, ll16, ll4
    {
      && |column| == nblock <= BLOCK_UNIT * blockSize100k
      && origPtr < nblock && cftab.Length == 257
      && (if smallDecompress then
            && nblock <= ll16.Length && nblock <= 2 * ll4.Length
            && IsCftab(cftab[..], column)
            && SmallTable(column, origPtr, cycle, Unpacked(ll16[..], ll4[..], nblock))
          else
            && nblock <= tt.Length
            && Scattered(column, tt[..nblock], nblock))
    }

    /** Position p is where byte number u is read next. */
    ghost predicate At(p: nat, u: nat)
      reads this`column, this`nblock, this`origPtr
    {
      origPtr < |column| && p == Row(column, origPtr, if smallDecompress then u else u + 1)
    }

    /** BZ_GET_FAST: the result says whether the position is out of range. */
    method GetFast(p: nat, ghost u: nat) returns (corrupt: bool, p': nat, c: byte)
      requires Tables() && At(p, u) && !smallDecompress
      ensures !corrupt && At(p', u + 1) && c == Decoded(column, origPtr, u)
    {
      p', c := p, 0;
      if p >= BLOCK_UNIT * blockSize100k { return true, p', c; }
      assert tt[..nblock][p] == tt[p];
      p' := tt[p];
      c := p' % 256;
      p' := p' / 256;
      corrupt := false;
    }

    /** BZ_GET_SMALL. */
    method GetSmall(p: nat, ghost u: nat) returns (corrupt: bool, p': nat, c: byte)
      requires Tables() && At(p, u) && smallDecompress
      ensures !corrupt && At(p', u + 1) && c == Decoded(column, origPtr, u)
    {
      p', c := p, 0;
      if p >= BLOCK_UNIT * blockSize100k { return true, p', c; }
      c := IndexIntoF(p, cftab, column);
      RowOnCycle(column, origPtr, cycle, Unpacked(ll16[..], ll4[..], nblock), u);
      p' := GetLL(ll16[..], ll4[..], p);
      corrupt := false;
    }

    /** BZ_GET_FAST or BZ_GET_SMALL, as the state was set up. */
    method Get(p: nat, ghost u: nat) returns (corrupt: bool, p': nat, c: byte)
      requires Tables() && At(p, u)
      ensures !corrupt && At(p', u + 1) && c == Decoded(column, origPtr, u)
    {
      hide *;
      if smallDecompress {
        corrupt, p', c := GetSmall(p, u);
      } else {
        corrupt, p', c := GetFast(p, u);
      }
    }

    /** c is byte number u - 1, and the walk stands at number u; one byte past the end may have been read. */
    ghost predicate Holds(p: nat, u: nat, c: byte)
      reads this`column, this`nblock, this`origPtr
    {
      && At(p, u) && |column| == nblock && 1 <= u <= nblock + 1
      && (u <= nblock ==> c == Decoded(column, origPtr, u - 1))
    }

    /** Reading a run: r is its length, ch its byte, u' the position reached. */
    ghost predicate NewRun(u: nat, r: nat, ch: byte, p': nat, u': nat, c': byte)
      reads this`column, this`nblock, this`origPtr
      requires origPtr < |column| && u >= 1
    {
      var s := RestFrom(column, origPtr, u);
      if u' > nblock + 1 then !WellFormed(s)
      else Holds(p', u', c') && u' > u && r > 0 && RunRead(s, ch, r, u' - u)
    }

    /** r equal bytes have been read since position u; the walk stands behind them. */
    ghost predicate Partial(u: nat, r: nat, ch: byte, p': nat, u': nat)
      reads this`column, this`nblock, this`origPtr
      requires origPtr < |column|
    {
      var s := RestFrom(column, origPtr, u);
      && 1 <= r <= |s| && u' == u + r - 1 && u >= 1 && |column| == nblock
      && (forall i :: 0 <= i < r ==> s[i] == ch)
      && At(p', u')
    }

    /** One look at the byte after r equal ones: done says that the run ends here. */
    method Look(r: nat, ch: byte, p: nat, u: nat, ghost u0: nat)
      returns (corrupt: bool, done: bool, p': nat, u': nat, k1: byte)
      requires Tables() && r <= 3 && origPtr < |column| && Partial(u0, r, ch, p, u)
      ensures !corrupt && u' == u + 1 && At(p', u')
      ensures u0 >= 1 && (done ==> NewRun(u0, r, ch, p', u', k1))
      ensures !done ==> k1 == ch && Partial(u0, r + 1, ch, p', u')
    {
      hide *;
      PartialAt(u0, r, ch, p, u);
      corrupt, p', k1 := Get(p, u);
      u' := u + 1;
      done := u' == nblock + 1 || k1 != ch;
      RunLooked(u0, r, ch, p, u, p', k1);
    }

    /** What one more byte means for a run of r equal ones. */
    lemma {:induction false} RunLooked(u0: nat, r: nat, ch: byte, p: nat, u: nat, p': nat, k1: byte)
      requires origPtr < |column| && r <= 3 && Partial(u0, r, ch, p, u)
      requires At(p', u + 1) && k1 == Decoded(column, origPtr, u)
      ensures u0 >= 1
      ensures u == nblock || k1 != ch ==> NewRun(u0, r, ch, p', u + 1, k1)
      ensures u != nblock && k1 == ch ==> Partial(u0, r + 1, ch, p', u + 1)
    {
      hide At, RunRead, Decoded, WellFormed;
      if u == nblock || k1 != ch { ShortRunRead(RestFrom(column, origPtr, u0), r); }
    }

    /** Reads the next run off the block. */
    method ReadRun(p: nat, u: nat, c: byte)
      returns (corrupt: bool, len: nat, ch: byte, p': nat, u': nat, c': byte)
      requires Tables() && origPtr < |column| && Holds(p, u, c) && u <= nblock
      ensures !corrupt && NewRun(u, len, ch, p', u', c')
    {
      hide *;
      var done: bool;
      StartPartial(p, u, c);
      len, ch, c' := 1, c, c;
      corrupt, done, p', u', c' := Look(1, ch, p, u, u);
      if corrupt || done { return; }
      len := 2;
      corrupt, done, p', u', c' := Look(2, ch, p', u', u);
      if corrupt || done { return; }
      len := 3;
      corrupt, done, p', u', c' := Look(3, ch, p', u', u);
      if corrupt || done { return; }
      corrupt, len, p', u', c' := ReadCount(ch, p', u', u);
    }

    lemma {:induction false} StartPartial(p: nat, u: nat, c: byte)
      requires Holds(p, u, c) && u <= nblock
      ensures Partial(u, 1, c, p, u)
    {
    }

    /** The count after four equal bytes, and the byte after that. */
    method ReadCount(ch: byte, p: nat, u: nat, ghost u0: nat)
      returns (corrupt: bool, len: nat, p': nat, u': nat, c': byte)
      requires Tables() && origPtr < |column| && Partial(u0, 4, ch, p, u)
      ensures !corrupt && NewRun(u0, len, ch, p', u', c')
    {
      hide *;
      PartialAt(u0, 4, ch, p, u);
      var k1: byte;
      corrupt, p', k1 := Get(p, u);
      len := k1 as int + 4;
      corrupt, p', c' := Get(p', u + 1);
      u' := u + 2;
      CountRead(u0, ch, k1, p, u, p', c');
    }

    lemma {:induction false} PartialAt(u0: nat, r: nat, ch: byte, p: nat, u: nat)
      requires origPtr < |column| && Partial(u0, r, ch, p, u)
      ensures At(p, u) && u <= nblock && |column| == nblock
    {
    }

    lemma {:induction false} CountRead(u0: nat, ch: byte, k1: byte, p: nat, u: nat, p': nat, c': byte)
      requires origPtr < |column| && Partial(u0, 4, ch, p, u)
      requires k1 == Decoded(column, origPtr, u)
      requires At(p', u + 2) && c' == Decoded(column, origPtr, u + 1)
      ensures NewRun(u0, k1 as int + 4, ch, p', u + 2, c')
    {
      hide At, RunRead, Decoded, WellFormed;
      var s := RestFrom(column, origPtr, u0);
      LongRunRead(s);
      if |s| > 4 {
        assert s[4] == k1;
      }
    }

    /** The block is not missing a run count at its end. */
    ghost predicate Sound(u: nat)
      reads this`column, this`nblock, this`origPtr
    {
      origPtr < |column| && u <= nblock + 1 && WellFormed(RestFrom(column, origPtr, u))
    }

    /** A run in hand, followed by what is left of the block. */
    ghost function Pending(ch: byte, len: nat, u: nat): seq<byte>
      reads this`column, this`nblock, this`origPtr
      requires origPtr < |column|
    {
      Rep(ch, len) + Expand(RestFrom(column, origPtr, u))
    }

    /** The fields between two calls: len bytes ch are in hand, the walk stands at number u. */
    ghost predicate Between(p: nat, u: nat, c: byte)
      reads this`column, this`nblock, this`origPtr
    {
      origPtr < |column| && u >= 1 && (u <= nblock + 1 ==> Holds(p, u, c))
    }

    lemma {:induction false} RunStarts(u: nat, r: nat, ch0: byte, ch: byte, p': nat, u': nat, c': byte, out: seq<byte>)
      requires origPtr < |column| && u >= 1 && NewRun(u, r, ch, p', u', c')
      requires u <= nblock + 1
      ensures Between(p', u', c') && (u' > u || !Sound(u)) && Sound(u') == Sound(u)
      ensures Sound(u) ==> out + Pending(ch, r, u') == out + Pending(ch0, 0, u)
    {
      hide WellFormed, Expand, Decoded, At, StartsWithFour;
      if u' <= nblock + 1 {
        RestDrop(column, origPtr, u, u' - u);
        assert Rep(ch0, 0) == [];
        assert Pending(ch0, 0, u) == Expand(RestFrom(column, origPtr, u));
      }
    }

    /** One turn of the output loop: n bytes of the run in hand have been written. */
    lemma {:induction false} Emitted(ch: byte, len: nat, n: nat, u: nat, out: seq<byte>)
      requires origPtr < |column| && n <= len
      ensures out + Pending(ch, len, u) == (out + Rep(ch, n)) + Pending(ch, len - n, u)
    {
      hide Expand, RestFrom;
      RepSplit(ch, len, n, out, Expand(RestFrom(column, origPtr, u)));
    }

    /** Writes what fits of the run in hand: the fast decoder treats the last byte of a run apart. */
    method FinishRunFast(ch: byte, len0: nat, room: nat, crc0: bv32)
      returns (w: seq<byte>, len: nat, crc: bv32)
      requires len0 > 0
      ensures |w| <= room && len + |w| == len0 && w == Rep(ch, |w|)
      ensures len > 0 ==> |w| == room
      ensures crc == BlockCrc.UpdateAll(crc0, w)
    {
      hide BlockCrc.Update;
      w, len, crc := [], len0, crc0;
      while true
        invariant |w| <= room && len + |w| == len0 && len > 0
        invariant w == Rep(ch, |w|) && crc == BlockCrc.UpdateAll(crc0, w)
        decreases len
      {
        if |w| == room { return; }
        if len == 1 { break; }
        crc := BlockCrc.Update(crc, ch);
        w := w + [ch];
        len := len - 1;
      }
      crc := BlockCrc.Update(crc, ch);
      w := w + [ch];
      len := 0;
    }

    /** Writes what fits of the run in hand. */
    method FinishRunSmall(ch: byte, len0: nat, room: nat, crc0: bv32)
      returns (w: seq<byte>, len: nat, crc: bv32)
      ensures |w| <= room && len + |w| == len0 && w == Rep(ch, |w|)
      ensures len > 0 ==> |w| == room
      ensures crc == BlockCrc.UpdateAll(crc0, w)
    {
      hide BlockCrc.Update;
      w, len, crc := [], len0, crc0;
      while true
        invariant |w| <= room && len + |w| == len0
        invariant w == Rep(ch, |w|) && crc == BlockCrc.UpdateAll(crc0, w)
        decreases len
      {
        if |w| == room { return; }
        if len == 0 { break; }
        crc := BlockCrc.Update(crc, ch);
        w := w + [ch];
        len := len - 1;
      }
    }

    /** What a call of the output loop has achieved when it stops with the fields r, having started with r0. */
    ghost predicate Progress(r: Registers, out: seq<byte>, r0: Registers)
      reads this`column, this`nblock, this`origPtr
    {
      && origPtr < |column|
      && Between(r.tPos, r.used, r.k0) && Sound(r.used) == Sound(r0.used)
      && (Sound(r0.used) ==> out + Pending(r.ch, r.len, r.used) == Pending(r0.ch, r0.len, r0.used))
      && r.crc == BlockCrc.UpdateAll(r0.crc, out)
    }

    lemma {:induction false} ProgressStart(r: Registers)
      requires origPtr < |column| && Between(r.tPos, r.used, r.k0)
      ensures Progress(r, [], r)
    {
    }

    lemma {:induction false} ProgressWritten(r: Registers, out: seq<byte>, r0: Registers, w: seq<byte>, r': Registers)
      requires Progress(r, out, r0) && |w| <= r.len && w == Rep(r.ch, |w|)
      requires r' == r.(len := r.len - |w|, crc := BlockCrc.UpdateAll(r.crc, w))
      ensures Progress(r', out + w, r0)
    {
      hide Pending, Sound, Between, BlockCrc.UpdateAll;
      Emitted(r.ch, r.len, |w|, r.used, out);
      BlockCrc.UpdateAllConcat(r0.crc, out, w);
    }

    lemma {:induction false} ProgressRun(r: Registers, out: seq<byte>, r0: Registers, r': Registers)
      requires Progress(r, out, r0) && r.len == 0 && r.used <= nblock + 1
      requires origPtr < |column| && r.used >= 1
      requires NewRun(r.used, r'.len, r'.ch, r'.tPos, r'.used, r'.k0) && r'.crc == r.crc
      ensures Progress(r', out, r0)
      ensures r'.used > r.used
    {
      hide Pending, Sound, Between;
      RunStarts(r.used, r'.len, r.ch, r'.ch, r'.tPos, r'.used, r'.k0, out);
    }

    lemma {:induction false} ProgressHolds(r: Registers, out: seq<byte>, r0: Registers)
      requires Progress(r, out, r0)
      ensures origPtr < |column|
      ensures r.used > nblock + 1 ==> !Sound(r0.used)
      ensures r.used <= nblock + 1 ==> Holds(r.tPos, r.used, r.k0) && r.used >= 1
    {
    }

    lemma {:induction false} ProgressBetween(r: Registers, out: seq<byte>, r0: Registers)
      requires Progress(r, out, r0)
      ensures origPtr < |column| && Between(r.tPos, r.used, r.k0) && Sound(r.used) == Sound(r0.used)
    {
    }

    /** Two calls in a row achieve what one call with both buffers would. */
    lemma {:induction false} ProgressCompose(r: Registers, w: seq<byte>, r1: Registers, out: seq<byte>, r0: Registers)
      requires Progress(r1, out, r0) && Progress(r, w, r1)
      ensures Progress(r, out + w, r0)
    {
      hide Pending, Sound, Between, BlockCrc.Update;
      BlockCrc.UpdateAllConcat(r0.crc, out, w);
      if Sound(r0.used) {
        assert (out + w) + Pending(r.ch, r.len, r.used) == out + (w + Pending(r.ch, r.len, r.used));
      }
    }

    lemma {:induction false} TablesSize()
      requires Tables()
      ensures |column| == nblock && origPtr < |column|
    {
    }

    lemma {:induction false} WholeBlock(r0: Registers)
      requires origPtr < |column| && r0.used == 1 && r0.len == 0 && |column| == nblock
      ensures Pending(r0.ch, r0.len, r0.used) == Expand(BlockOf(column, origPtr))
      ensures Sound(r0.used) == WellFormed(BlockOf(column, origPtr))
    {
      assert RestFrom(column, origPtr, 1) == BlockOf(column, origPtr);
    }

    lemma {:induction false} ProgressDone(r: Registers, out: seq<byte>, r0: Registers)
      requires Progress(r, out, r0) && |column| == nblock
      ensures origPtr < |column| && r.crc == BlockCrc.UpdateAll(r0.crc, out)
      ensures Sound(r0.used) ==> out <= Pending(r0.ch, r0.len, r0.used)
      ensures r.used == nblock + 1 && r.len == 0 ==>
        Sound(r0.used) && out == Pending(r0.ch, r0.len, r0.used)
    {
      if r.used == nblock + 1 {
        assert RestFrom(column, origPtr, r.used) == [];
      }
    }

    /** All of the block has been written only when the stage is at its end. */
    lemma {:induction false} ProgressUnfinished(r: Registers, out: seq<byte>, r0: Registers)
      requires Progress(r, out, r0) && |column| == nblock && Sound(r0.used) && !(r.used == nblock + 1 && r.len == 0)
      ensures origPtr < |column| && |out| < |Pending(r0.ch, r0.len, r0.used)|
    {
      assert |out| + |Pending(r.ch, r.len, r.used)| == |Pending(r0.ch, r0.len, r0.used)|;
      var rest := RestFrom(column, origPtr, r.used);
      if r.len == 0 && rest != [] { ExpandNonempty(rest); }
    }

    /** unRLE_obuf_to_output_FAST, for one call with room for avail bytes. */
    method UnRleFast(avail: nat, r0: Registers) returns (corrupt: bool, out: seq<byte>, r: Registers)
      requires Tables() && !smallDecompress && Between(r0.tPos, r0.used, r0.k0) && origPtr < |column|
      ensures |out| <= avail
      ensures corrupt ==> !Sound(r0.used)
      ensures !corrupt ==> Progress(r, out, r0)
      ensures !corrupt ==> |out| == avail || (r.used == nblock + 1 && r.len == 0)
    {
      hide *;
      r, out := r0, [];
      ProgressStart(r0);
      while true
        invariant |out| <= avail && Progress(r, out, r0)
        decreases nblock + 6 - r.used
      {
        if r.len > 0 {
          var w, len, crc := FinishRunFast(r.ch, r.len, avail - |out|, r.crc);
          ProgressWritten(r, out, r0, w, r.(len := len, crc := crc));
          r, out := r.(len := len, crc := crc), out + w;
          if r.len > 0 { return false, out, r; }
        }
        ProgressHolds(r, out, r0);
        if r.used > nblock + 1 { return true, out, r; }
        if r.used == nblock + 1 { return false, out, r; }
        var c, len, ch, p, u, k := ReadRun(r.tPos, r.used, r.k0);
        if c { return true, out, r; }
        ghost var r1 := r;
        r := Registers(p, u, k, ch, len, r.crc);
        ProgressRun(r1, out, r0, r);
      }
    }

    /** unRLE_obuf_to_output_SMALL, for one call with room for avail bytes. */
    method UnRleSmall(avail: nat, r0: Registers) returns (corrupt: bool, out: seq<byte>, r: Registers)
      requires Tables() && smallDecompress && Between(r0.tPos, r0.used, r0.k0) && origPtr < |column|
      ensures |out| <= avail
      ensures corrupt ==> !Sound(r0.used)
      ensures !corrupt ==> Progress(r, out, r0)
      ensures !corrupt ==> |out| == avail || (r.used == nblock + 1 && r.len == 0)
    {
      hide *;
      r, out := r0, [];
      ProgressStart(r0);
      while true
        invariant |out| <= avail && Progress(r, out, r0)
        decreases nblock + 6 - r.used
      {
        var w, len, crc := FinishRunSmall(r.ch, r.len, avail - |out|, r.crc);
        ProgressWritten(r, out, r0, w, r.(len := len, crc := crc));
        r, out := r.(len := len, crc := crc), out + w;
        if |out| == avail { return false, out, r; }
        ProgressHolds(r, out, r0);
        if r.used == nblock + 1 { return false, out, r; }
        if r.used > nblock + 1 { return true, out, r; }
        var c, len', ch, p, u, k := ReadRun(r.tPos, r.used, r.k0);
        if c { return true, out, r; }
        ghost var r1 := r;
        r := Registers(p, u, k, ch, len', r.crc);
        ProgressRun(r1, out, r0, r);
      }
    }

    /** A block has been decoded into tt or ll16, and origPtr is a row of it. */
    ghost predicate HoldsColumn(unzftab: array<nat>)
      reads this, cftab, cftabCopy, tt, ll16, ll4, unzftab
    {
      && 1 <= blockSize100k <= 9
      && |column| == nblock <= BLOCK_UNIT * blockSize100k && origPtr < nblock
      && cftab.Length == cftabCopy.Length == 257 && cftab != cftabCopy
      && unzftab.Length == 256 && unzftab != cftab && unzftab != cftabCopy
      && unzftab != tt && tt != cftab && tt != cftabCopy
      && IsUnzftab(unzftab[..], column)
      && if smallDecompress
         then nblock <= ll16.Length && nblock <= 2 * ll4.Length && ll16[..nblock] == column
         else nblock <= tt.Length && tt[..nblock] == column
    }

    /** A column as the decoder leaves it in tt or ll16, with the counts of its bytes. */
    method Load(col: seq<byte>, orig: nat) returns (unzftab: array<nat>)
      requires 1 <= blockSize100k <= 9 && orig < |col| <= BLOCK_UNIT * blockSize100k
      requires cftab.Length == cftabCopy.Length == 257 && cftab != cftabCopy && tt != cftab && tt != cftabCopy
      requires if smallDecompress then |col| <= ll16.Length && |col| <= 2 * ll4.Length else |col| <= tt.Length
      modifies this`nblock, this`origPtr, this`column, tt, ll16
      ensures HoldsColumn(unzftab) && fresh(unzftab) && column == col && origPtr == orig
    {
      unzftab := new nat[256](i => 0);
      nblock, origPtr, column := 0, orig, col;
      while nblock < |col|
        invariant nblock <= |col| && unzftab != tt && fresh(unzftab)
        invariant forall c :: 0 <= c < 256 ==> unzftab[c] == Count(col, c, nblock)
        invariant if smallDecompress then ll16[..nblock] == col[..nblock] else tt[..nblock] == col[..nblock]
        modifies this`nblock, unzftab, tt, ll16
      {
        var uc := col[nblock];
        unzftab[uc] := unzftab[uc] + 1;
        if smallDecompress { ll16[nblock] := uc; } else { tt[nblock] := uc; }
        nblock := nblock + 1;
      }
      assert col[..|col|] == col;
    }

    method BuildTables(unzftab: array<nat>)
      requires HoldsColumn(unzftab)
      modifies this`cycle, cftab, cftabCopy, tt, ll16, ll4
      ensures Tables() && origPtr < |column|
    {
      GenerateCftab(unzftab, cftab, column);
      if smallDecompress {
        CopyTable(cftab, cftabCopy);
        BuildT(ll16, ll4, cftabCopy, nblock, column);
        cycle := ReversePointers(ll16, ll4, nblock, origPtr, column);
      } else {
        ScatterFast(tt, cftab, nblock, column);
      }
    }

    /** After the last symbol: build the walk tables and fetch the first byte. */
    method BeginOutput(unzftab: array<nat>)
      requires HoldsColumn(unzftab)
      modifies this`regs, this`cycle, cftab, cftabCopy, tt, ll16, ll4
      ensures Tables() && Between(regs.tPos, regs.used, regs.k0)
      ensures origPtr < |column| && regs == Registers(regs.tPos, 1, regs.k0, 0, 0, 0xffff_ffff)
    {
      hide *;
      BuildTables(unzftab);
      WalkStarts();
      var c, p, k;
      if smallDecompress {
        c, p, k := GetSmall(origPtr, 0);
      } else {
        c, p, k := GetFast(tt[origPtr] / 256, 0);
      }
      FirstByte(p, k);
      regs := Registers(p, 1, k, 0, 0, 0xffff_ffff);
    }

    lemma {:induction false} WalkStarts()
      requires Tables()
      ensures origPtr < |column|
      ensures smallDecompress ==> At(origPtr, 0)
      ensures !smallDecompress ==> origPtr < tt.Length && At(tt[origPtr] / 256, 0)
    {
      if !smallDecompress {
        assert tt[..nblock][origPtr] == tt[origPtr];
      }
    }

    lemma {:induction false} FirstByte(p: nat, c: byte)
      requires Tables() && At(p, 1) && c == Decoded(column, origPtr, 0)
      ensures origPtr < |column| && Between(p, 1, c)
    {
    }

    /** One call of the output stage with room for avail bytes. */
    method Output(avail: nat) returns (corrupt: bool, out: seq<byte>)
      requires Tables() && Between(regs.tPos, regs.used, regs.k0)
      modifies this`regs
      ensures |out| <= avail
      ensures corrupt ==> !Sound(old(regs.used))
      ensures !corrupt ==> Progress(regs, out, old(regs))
      ensures !corrupt ==> |out| == avail || (regs.used == nblock + 1 && regs.len == 0)
    {
      var r;
      if smallDecompress {
        corrupt, out, r := UnRleSmall(avail, regs);
      } else {
        corrupt, out, r := UnRleFast(avail, regs);
      }
      if !corrupt { regs := r; }
    }

    predicate Finished()
      reads this`regs, this`nblock
    {
      regs.used == nblock + 1 && regs.len == 0
    }

    /** One more buffer. */
    method DrainStep(room: nat, ghost out: seq<byte>, ghost r0: Registers) returns (corrupt: bool, w: seq<byte>)
      requires Tables() && Progress(regs, out, r0)
      modifies this`regs
      ensures corrupt ==> !Sound(r0.used)
      ensures !corrupt ==> Progress(regs, out + w, r0) && |w| <= room && (|w| == room || Finished())
    {
      hide *;
      ghost var r1 := regs;
      ProgressBetween(r1, out, r0);
      corrupt, w := Output(room);
      if !corrupt { ProgressCompose(regs, w, r1, out, r0); }
      FinishedIs();
    }

    method DrainLoop(rooms: seq<nat>) returns (corrupt: bool, out: seq<byte>)
      requires Tables() && Between(regs.tPos, regs.used, regs.k0) && origPtr < |column|
      modifies this`regs
      ensures corrupt ==> !Sound(old(regs.used))
      ensures !corrupt ==> Progress(regs, out, old(regs)) && (Finished() || |out| == Total(rooms, |rooms|))
    {
      hide *;
      ProgressStart(regs);
      TotalNone(rooms);
      ghost var r0 := regs;
      out := [];
      var i: nat := 0;
      while i < |rooms| && !Finished()
        invariant i <= |rooms| && Progress(regs, out, r0)
        invariant Finished() || |out| == Total(rooms, i)
      {
        var w;
        corrupt, w := DrainStep(rooms[i], out, r0);
        if corrupt { return; }
        out := out + w;
        TotalStep(rooms, i);
        i := i + 1;
      }
      corrupt := false;
    }

    lemma {:induction false} FinishedIs()
      ensures Finished() <==> regs.used == nblock + 1 && regs.len == 0
    {
    }
  }

  /** A single-block run of the output stage: one call for each output buffer offered, until the block is out. */
  method Drain(s: DState, unzftab: array<nat>, rooms: seq<nat>) returns (corrupt: bool, out: seq<byte>)
    requires s.HoldsColumn(unzftab)
    modifies s`regs, s`cycle, s.cftab, s.cftabCopy, s.tt, s.ll16, s.ll4
    ensures s.origPtr < |s.column|
    ensures corrupt ==> !WellFormed(BlockOf(s.column, s.origPtr))
    ensures !corrupt ==> s.regs.crc == BlockCrc.UpdateAll(0xffff_ffff, out)
    ensures !corrupt && WellFormed(BlockOf(s.column, s.origPtr)) ==> out <= Expand(BlockOf(s.column, s.origPtr))
    ensures !corrupt && s.Finished() ==>
      WellFormed(BlockOf(s.column, s.origPtr)) && out == Expand(BlockOf(s.column, s.origPtr))
    ensures !corrupt && !s.Finished() ==> |out| == Total(rooms, |rooms|)
  {
    hide *;
    s.BeginOutput(unzftab);
    ghost var r0 := s.regs;
    s.TablesSize();
    s.WholeBlock(r0);
    corrupt, out := s.DrainLoop(rooms);
    s.FinishedIs();
    if !corrupt { s.ProgressDone(s.regs, out, r0); }
  }

  /** The space in the first k buffers. */
  function Total(rooms: seq<nat>, k: nat): nat
    requires k <= |rooms|
  {
    if k == 0 then 0 else Total(rooms, k - 1) + rooms[k - 1]
  }

  lemma {:induction false} TotalNone(rooms: seq<nat>)
    ensures Total(rooms, 0) == 0
  {
  }

  lemma {:induction false} TotalStep(rooms: seq<nat>, i: nat)
    requires i < |rooms|
    ensures Total(rooms, 0) == 0 && Total(rooms, i + 1) == Total(rooms, i) + rooms[i]
  {
  }

  method CopyTable(a: array<nat>, b: array<nat>)
    requires a.Length == b.Length == 257 && a != b
    modifies b
    ensures b[..] == a[..]
  {
    for i := 0 to 257
      invariant b[..i] == a[..i]
    {
      b[i] := a[i];
    }
  }
}
