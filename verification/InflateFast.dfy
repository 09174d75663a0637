/** inflate_fast: decoding without checks for input or room, while there is plenty of both. */
module InflateFast {
  import opened Bytes
  import opened Powers
  import opened CodeTables
  import opened InflateElements
  import opened InflateWindow
  import opened Lz77

  datatype Mode = TYPE | LEN | BAD

  /** The part of inflate_state that decoding uses. */
  class InflateState {
    const window: array<byte>
    var ring: Ring
    var codes: Tables
    var hold: nat
    var bits: nat
    var mode: Mode

    constructor (window: array<byte>, codes: Tables)
      ensures this.window == window && ring == Ring(window.Length, 0, 0) && this.codes == codes && hold == 0
        && bits == 0 && mode == LEN
    {
      this.window, this.codes := window, codes;
      ring, hold, bits, mode := Ring(window.Length, 0, 0), 0, 0, LEN;
    }
  }

  /** z_stream: input from next_in on, output room from next_out on. */
  class InflateStream {
    const out: array<byte>
    var input: seq<byte>
    var next_in: nat
    var avail_in: nat
    var next_out: nat
    var avail_out: nat

    constructor (out: array<byte>, input: seq<byte>)
      ensures this.out == out && this.input == input && next_in == 0 && avail_in == |input| && next_out == 0
        && avail_out == out.Length
    {
      this.out, this.input := out, input;
      next_in, avail_in, next_out, avail_out := 0, |input|, 0, out.Length;
    }
  }

  // ----- one code

  lemma {:induction false} LookupParts(t: seq<Entry>, root: nat, kind: CodeType, v: nat)
    requires Proper(t, root, kind) && kind != CODES
    ensures Low(v, root) < |t| && 1 <= Lookup(t, root, v).bits <= 15
    ensures var e := t[Low(v, root)];
      if IsLink(e) then
        e.bits == root && e.op != 0 && !IsBase(e.op) && e.op / 64 % 2 == 0 && e.val + Low(Shr(v, e.bits), e.op) < |t|
        && Lookup(t, root, v)
           == t[e.val + Low(Shr(v, e.bits), e.op)].(bits := e.bits + t[e.val + Low(Shr(v, e.bits), e.op)].bits)
      else
        Lookup(t, root, v) == e && (e.op == 0 || IsBase(e.op) || e.op / 64 % 2 == 1)
  {
    hide Low, Shr, Pow2;
    ProperAt(t, root, kind, v);
  }

  /** Looking up what is in the buffer finds what the stream starts with, if the bits used are there. */
  lemma {:induction false} HoldLookup(t: seq<Entry>, root: nat, kind: CodeType, hold: nat, bits: nat, input: seq<byte>,
                                      i: nat, v: nat)
    requires Proper(t, root, kind) && Reads(hold, bits, input, i, v) && Lookup(t, root, hold).bits <= bits
    ensures Lookup(t, root, v) == Lookup(t, root, hold)
  {
    hide Lookup, ProperEntry, Val, Shr, Low;
    LowReads(hold, bits, input, i, v, Lookup(t, root, hold).bits);
  }

  /** Takes a code of at most 15 bits, all of which are in the buffer. */
  method TakeCode(t: seq<Entry>, root: nat, hold: nat, bits: nat, ghost kind: CodeType, ghost input: seq<byte>,
                  ghost i: nat, ghost v: nat)
    returns (op: nat, val: nat, hold': nat, bits': nat)
    requires Proper(t, root, kind) && kind != CODES && Reads(hold, bits, input, i, v) && bits >= 15
    ensures var e := Lookup(t, root, v);
      op == e.op && val == e.val && e.bits <= 15 && bits' == bits - e.bits
        && Reads(hold', bits', input, i, Shr(v, e.bits))
  {
    hide *;
    LookupParts(t, root, kind, hold);
    HoldLookup(t, root, kind, hold, bits, input, i, v);
    var here := t[Low(hold, root)];
    hold', bits', op := Shr(hold, here.bits), bits - here.bits, here.op;
    LinkIs(here);
    if op != 0 && !IsBase(op) && op / 64 % 2 == 0 {
      here := t[here.val + Low(hold', op)];
      ShrShr(hold, bits - bits', here.bits);
      hold', bits', op := Shr(hold', here.bits), bits' - here.bits, here.op;
    }
    val := here.val;
    DropReads(hold, bits, input, i, v, Lookup(t, root, v).bits);
  }

  lemma {:induction false} LinkIs(e: Entry)
    ensures IsLink(e) <==> 1 <= e.op < 16
  {
  }

  /** Two more bytes if there are fewer than 15 bits. */
  method Fill15(hold: nat, bits: nat, input: seq<byte>, i: nat, ghost v: nat) returns (hold': nat, bits': nat, i': nat)
    requires Reads(hold, bits, input, i, v) && (bits < 15 ==> i + 2 <= |input|)
    ensures Reads(hold', bits', input, i', v) && bits' >= 15 && i <= i' <= i + 2 && bits' == bits + 8 * (i' - i)
    ensures bits <= 30 ==> bits' <= 30
  {
    hide *;
    hold', bits', i' := hold, bits, i;
    if bits' < 15 {
      PullReads(hold', bits', input, i', v);
      hold', bits', i' := hold' + Shl(input[i'], bits'), bits' + 8, i' + 1;
      PullReads(hold', bits', input, i', v);
      hold', bits', i' := hold' + Shl(input[i'], bits'), bits' + 8, i' + 1;
    }
  }

  lemma {:induction false} ReadsIs(hold: nat, bits: nat, input: seq<byte>, i: nat, v: nat)
    requires Reads(hold, bits, input, i, v)
    ensures i <= |input|
  {
  }

  /** One more byte if there are fewer than n bits. */
  method FillOne(n: nat, hold: nat, bits: nat, input: seq<byte>, i: nat, ghost v: nat)
    returns (hold': nat, bits': nat, i': nat)
    requires Reads(hold, bits, input, i, v) && (bits < n ==> i < |input|)
    ensures Reads(hold', bits', input, i', v) && bits' == bits + 8 * (i' - i) && i' == if bits < n then i + 1 else i
  {
    hide *;
    hold', bits', i' := hold, bits, i;
    if bits' < n {
      PullReads(hold', bits', input, i', v);
      hold', bits', i' := hold' + Shl(input[i'], bits'), bits' + 8, i' + 1;
    }
  }

  /** The distance that follows a length. */
  method FastDistance(c: Tables, hold: nat, bits: nat, input: seq<byte>, i: nat, ghost v: nat)
    returns (found: bool, dist: nat, hold': nat, bits': nat, i': nat)
    requires ProperTables(c) && Reads(hold, bits, input, i, v) && i <= |input| && bits + 8 * (|input| - i) >= 28
    ensures var d := Lookup(c.distcode, c.distbits, v);
      var used := d.bits + if IsBase(d.op) then d.op % 16 else 0;
      && (found <==> IsBase(d.op)) && used <= 28 && (found ==> dist == d.val + Low(Shr(v, d.bits), d.op % 16))
      && Reads(hold', bits', input, i', Shr(v, used)) && used + bits' == bits + 8 * (i' - i)
    ensures i <= i' <= i + 4 && (i' > i + 2 ==> bits' < 8) && (bits <= 30 ==> bits' <= 30)
  {
    hide *;
    ProperTablesIs(c);
    hold', bits', i' := Fill15(hold, bits, input, i, v);
    ghost var d := Lookup(c.distcode, c.distbits, v);
    ProperAt(c.distcode, c.distbits, DISTS, v);
    ProperDistance(d);
    var op, val;
    op, val, hold', bits' := TakeCode(c.distcode, c.distbits, hold', bits', DISTS, input, i', v);
    if !IsBase(op) { return false, 0, hold', bits', i'; }
    ghost var v1 := Shr(v, d.bits);
    op := op % 16;
    hold', bits', i' := FillOne(op, hold', bits', input, i', v1);
    hold', bits', i' := FillOne(op, hold', bits', input, i', v1);
    found, dist := true, val + Low(hold', op);
    LowReads(hold', bits', input, i', v1, op);
    DropReads(hold', bits', input, i', v1, op);
    ShrShr(v, d.bits, op);
    hold', bits' := Shr(hold', op), bits' - op;
  }

  lemma {:induction false} ProperTablesIs(c: Tables)
    requires ProperTables(c)
    ensures Proper(c.lencode, c.lenbits, LENS) && Proper(c.distcode, c.distbits, DISTS)
  {
  }

  lemma {:induction false} NextIs(c: Tables, v: nat)
    ensures var e := Lookup(c.lencode, c.lenbits, v);
      if e.op == 0 then Next(c, v) == (Emit(Literal(e.val % 256)), e.bits)
      else if IsBase(e.op) then
        var used := e.bits + e.op % 16;
        var d := Lookup(c.distcode, c.distbits, Shr(v, used));
        if IsBase(d.op) then
          Next(c, v)
            == (Emit(Copy(d.val + Low(Shr(v, used + d.bits), d.op % 16), e.val + Low(Shr(v, e.bits), e.op % 16))),
                used + d.bits + d.op % 16)
        else Next(c, v) == (BAD_DISTANCE, used + d.bits)
      else if IsEnd(e.op) then Next(c, v) == (END_OF_BLOCK, e.bits) else Next(c, v) == (BAD_CODE, e.bits)
  {
    hide Lookup, Low, Shr, IsBase, IsEnd;
  }

  /** One element, of at most 48 bits; six bytes are enough for it, and the buffer never holds more than 30 bits. */
  method FastElement(c: Tables, hold: nat, bits: nat, input: seq<byte>, i: nat, ghost v: nat)
    returns (e: Element, hold': nat, bits': nat, i': nat)
    requires ProperTables(c) && Reads(hold, bits, input, i, v) && i + 6 <= |input|
    ensures e == Next(c, v).0 && Reads(hold', bits', input, i', Shr(v, Next(c, v).1))
    ensures i <= i' <= i + 6 && Next(c, v).1 + bits' == bits + 8 * (i' - i) && (bits <= 30 ==> bits' <= 30)
  {
    hide *;
    ProperTablesIs(c);
    hold', bits', i' := Fill15(hold, bits, input, i, v);
    ghost var le := Lookup(c.lencode, c.lenbits, v);
    ProperAt(c.lencode, c.lenbits, LENS, v);
    ProperLength(le);
    NextIs(c, v);
    NextFits(c, v);
    var op, val;
    op, val, hold', bits' := TakeCode(c.lencode, c.lenbits, hold', bits', LENS, input, i', v);
    if op == 0 { return Emit(Literal(val % 256)), hold', bits', i'; }
    if !IsBase(op) {
      e := if IsEnd(op) then END_OF_BLOCK else BAD_CODE;
      return;
    }
    ghost var v1 := Shr(v, le.bits);
    var len := val;
    op := op % 16;
    hold', bits', i' := FillOne(op, hold', bits', input, i', v1);
    LowReads(hold', bits', input, i', v1, op);
    DropReads(hold', bits', input, i', v1, op);
    len := len + Low(hold', op);
    hold', bits' := Shr(hold', op), bits' - op;
    ShrShr(v, le.bits, op);
    ghost var used := le.bits + op;
    ghost var d := Lookup(c.distcode, c.distbits, Shr(v, used));
    ShrShr(v, used, d.bits);
    ShrShr(v, used, d.bits + if IsBase(d.op) then d.op % 16 else 0);
    var found, dist;
    found, dist, hold', bits', i' := FastDistance(c, hold', bits', input, i', Shr(v, used));
    e := if found then Emit(Copy(dist, len)) else BAD_DISTANCE;
  }

  // ----- the loop

  /** How the limit on distances, the history and the place of the output belong together. */
  ghost predicate Limits(alias: bool, wrapped: bool, beg: nat, o: nat, r: Ring, n: nat, limit: nat) {
    && beg <= o && (alias ==> beg == 0)
    && if !alias then n == o - beg + r.whave && limit == 32768
       else limit == r.wsize && o <= r.wsize && if wrapped then n >= r.wsize == r.whave else r.whave <= n == o
  }

  /** The distances that inflate_fast refuses, op bytes into the output. */
  predicate FastRefuses(op: int, whave: nat, dist: nat) {
    dist > op && dist - op > whave
  }

  /** How far the history reaches back. */
  function Depth(n: nat, limit: nat): nat {
    if n < limit then n else limit
  }

  /**
   * A distance beyond the history, but not beyond twice its depth: inflate_fast may take bytes that were never put
   * out.
   */
  predicate Doubtful(t: Token, n: nat, limit: nat) {
    t.Copy? && Depth(n, limit) < t.dist <= 2 * Depth(n, limit)
  }

  /** The distances that the code accepts are those that can be carried out, or doubtful. */
  lemma {:induction false} Accepts(alias: bool, wrapped: bool, beg: nat, o: nat, r: Ring, n: nat, limit: nat, dist: nat)
    requires Limits(alias, wrapped, beg, o, r, n, limit) && 1 <= dist <= 32768
    ensures dist <= n && dist <= limit ==> dist <= Span(alias, wrapped, beg, o, r) && dist - (o - beg) <= r.whave
    ensures dist - (o - beg) <= r.whave && (alias ==> !(Depth(n, limit) < dist <= 2 * Depth(n, limit))) ==>
      dist <= n && dist <= limit
  {
  }

  lemma {:induction false} LimitsMove(alias: bool, wrapped: bool, beg: nat, o: nat, r: Ring, n: nat, limit: nat, k: nat)
    requires Limits(alias, wrapped, beg, o, r, n, limit) && (alias ==> o + k <= r.wsize)
    ensures Limits(alias, wrapped, beg, o + k, r, n + k, limit)
  {
  }

  /** No match in the stream has a doubtful distance. */
  ghost predicate Sound(c: Tables, v: nat, hist: seq<byte>, limit: nat) {
    forall k: nat {:trigger Run(c, v, hist, limit, k)} :: Runs(c, v, hist, limit, k) ==>
      var (v', h) := Run(c, v, hist, limit, k); Next(c, v').0.Emit? ==> !Doubtful(Next(c, v').0.token, |h|, limit)
  }

  /** The loop has come this far: k elements, u bits. */
  ghost predicate Progress(c: Tables, v0: nat, hist0: seq<byte>, limit: nat, k: nat, v: nat, hist: seq<byte>, u: nat) {
    Runs(c, v0, hist0, limit, k) && Run(c, v0, hist0, limit, k) == (v, hist) && v == Shr(v0, u)
  }

  lemma {:induction false} ProgressStep(c: Tables, v0: nat, hist0: seq<byte>, limit: nat, k: nat, v: nat,
                                        hist: seq<byte>, u: nat)
    requires Progress(c, v0, hist0, limit, k, v, hist, u) && Next(c, v).0.Emit?
      && CanApply(Next(c, v).0.token, hist, limit)
    ensures Progress(c, v0, hist0, limit, k + 1, Shr(v, Next(c, v).1), Apply(hist, Next(c, v).0.token),
                     u + Next(c, v).1)
  {
    hide Runs, Run, Next, CanApply, Apply, Shr;
    RunsStep(c, v0, hist0, limit, k, v, hist);
    ShrShr(v0, u, Next(c, v).1);
  }

  lemma {:induction false} ProgressStart(c: Tables, v0: nat, hist0: seq<byte>, limit: nat)
    ensures Progress(c, v0, hist0, limit, 0, v0, hist0, 0)
  {
    RunsNone(c, v0, hist0, limit);
    NoShift(v0);
  }

  lemma {:induction false} SoundAt(c: Tables, v0: nat, hist0: seq<byte>, limit: nat, k: nat, v: nat, hist: seq<byte>,
                                   u: nat)
    requires Progress(c, v0, hist0, limit, k, v, hist, u) && Sound(c, v0, hist0, limit) && Next(c, v).0.Emit?
    ensures !Doubtful(Next(c, v).0.token, |hist|, limit)
  {
    hide Runs, Next, Doubtful;
    assert Run(c, v0, hist0, limit, k) == (v, hist);
  }

  /** Puts out one token. Tells whether its distance is acceptable. */
  method PutToken(state: InflateState, out: array<byte>, beg: nat, o: nat, t: Token,
                  ghost wrapped: bool, ghost hist: seq<byte>, ghost limit: nat)
    returns (ok: bool, o': nat)
    requires Layout(out, beg, state.window, state.ring) && o + 258 <= out.Length
    requires Limits(out == state.window, wrapped, beg, o, state.ring, |hist|, limit)
    requires t.Copy? ==> 3 <= t.len <= 258 && 1 <= t.dist <= 32768
    requires out == state.window ==> !Doubtful(t, |hist|, limit)
    requires Held(hist, out[..], beg, o, state.window[..], state.ring,
                  Span(out == state.window, wrapped, beg, o, state.ring))
    modifies out
    ensures ok <==> CanApply(t, hist, limit)
    ensures ok ==> o <= o' <= o + 258 && |Apply(hist, t)| == |hist| + o' - o
    ensures ok ==> Limits(out == state.window, wrapped, beg, o', state.ring, |Apply(hist, t)|, limit)
    ensures ok ==>
      Held(Apply(hist, t), out[..], beg, o', state.window[..], state.ring,
           Span(out == state.window, wrapped, beg, o', state.ring))
    ensures !ok ==> o' == o && out[..] == old(out[..])
    ensures (forall x {:trigger out[x]} :: 0 <= x < o ==> out[x] == old(out[x]))
      && (out != state.window ==> state.window[..] == old(state.window[..]))
  {
    hide *;
    var r := state.ring;
    LayoutIs(out, beg, state.window, r);
    LimitsIs(out == state.window, wrapped, beg, o, r, |hist|, limit);
    match t
    case Literal(c) =>
      ghost var s, w := out[..], state.window[..];
      SpanNext(out == state.window, wrapped, beg, o, r);
      LiteralApplies(hist, c, limit);
      out[o] := c;
      assert out[..] == s[o := c];
      HeldByte(hist, s, beg, o, w, state.window[..], r, Span(out == state.window, wrapped, beg, o, r),
               Span(out == state.window, wrapped, beg, o + 1, r), c);
      LimitsMove(out == state.window, wrapped, beg, o, r, |hist|, limit, 1);
      ok, o' := true, o + 1;
    case Copy(dist, len) =>
      Accepts(out == state.window, wrapped, beg, o, r, |hist|, limit, dist);
      CopyApplies(hist, dist, len, limit);
      RefusesIs(o - beg, r.whave, dist);
      DoubtfulIs(dist, len, |hist|, limit);
      if FastRefuses(o - beg, r.whave, dist) { return false, o; }
      CopyMatch(out, beg, o, state.window, r, dist, len, wrapped, hist);
      LimitsMove(out == state.window, wrapped, beg, o, r, |hist|, limit, len);
      ok, o' := true, o + len;
  }

  lemma {:induction false} RefusesIs(op: int, whave: nat, dist: nat)
    requires op >= 0
    ensures FastRefuses(op, whave, dist) <==> dist - op > whave
  {
  }

  lemma {:induction false} DoubtfulIs(dist: nat, len: nat, n: nat, limit: nat)
    ensures Doubtful(Copy(dist, len), n, limit) <==> Depth(n, limit) < dist <= 2 * Depth(n, limit)
  {
  }

  lemma {:induction false} LiteralApplies(hist: seq<byte>, c: byte, limit: nat)
    ensures CanApply(Literal(c), hist, limit) && Apply(hist, Literal(c)) == hist + [c]
  {
  }

  lemma {:induction false} CopyApplies(hist: seq<byte>, dist: nat, len: nat, limit: nat)
    requires 1 <= dist
    ensures CanApply(Copy(dist, len), hist, limit) <==> dist <= |hist| && dist <= limit
    ensures Apply(hist, Copy(dist, len)) == CopyBack(hist, dist, len)
    ensures dist <= |hist| ==> |CopyBack(hist, dist, len)| == |hist| + len
  {
  }

  lemma {:induction false} LayoutIs(out: array<byte>, beg: nat, window: array<byte>, r: Ring)
    requires Layout(out, beg, window, r)
    ensures out == window ==> beg == 0 && r.wnext == 0 && r.wsize == out.Length
  {
  }

  lemma {:induction false} LimitsIs(alias: bool, wrapped: bool, beg: nat, o: nat, r: Ring, n: nat, limit: nat)
    requires Limits(alias, wrapped, beg, o, r, n, limit)
    ensures beg <= o && Span(alias, wrapped, beg, o, r) <= n
  {
  }

  lemma {:induction false} SpanNext(alias: bool, wrapped: bool, beg: nat, o: nat, r: Ring)
    requires beg <= o
    ensures Span(alias, wrapped, beg, o + 1, r) <= Span(alias, wrapped, beg, o, r) + 1
    ensures alias && wrapped ==> Span(alias, wrapped, beg, o + 1, r) == r.wsize
    ensures alias && !wrapped ==> Span(alias, wrapped, beg, o + 1, r) == o + 1
  {
  }

  /** What stands when inflate_fast returns: where the stream is, and why it stopped there. */
  ghost predicate Stopped(mode: Mode, c: Tables, v: nat, hist: seq<byte>, limit: nat, rest: nat) {
    match mode
    case LEN => rest == v
    case TYPE => Next(c, v).0 == END_OF_BLOCK && rest == Shr(v, Next(c, v).1)
    case BAD =>
      || Next(c, v).0 == BAD_CODE || Next(c, v).0 == BAD_DISTANCE
      || (Next(c, v).0.Emit? && !CanApply(Next(c, v).0.token, hist, limit))
  }

  /**
   * inflate_fast. From the stream v0 and the history hist0 it decodes k elements and puts them out; what it has not
   * used it gives back to the last bit, less than a byte staying in hold. It stops at the end of the block, at an
   * error, or when there might no longer be enough input or room.
   */
  method InflateFast(state: InflateState, strm: InflateStream, start: nat,
                     ghost v0: nat, ghost hist0: seq<byte>, ghost wrapped: bool, ghost limit: nat)
    returns (ghost k: nat, ghost v: nat, ghost hist: seq<byte>, ghost rest: nat)
    requires state.mode == LEN && state.bits < 8 && ProperTables(state.codes)
    requires 6 <= strm.avail_in && strm.next_in + strm.avail_in <= |strm.input| && 258 <= strm.avail_out
      && strm.next_out + strm.avail_out == strm.out.Length
    requires strm.avail_out <= start <= strm.out.Length
    requires Reads(state.hold, state.bits, strm.input, strm.next_in, v0)
    requires var beg := strm.next_out - (start - strm.avail_out);
      && beg >= 0 && Layout(strm.out, beg, state.window, state.ring)
      && Limits(strm.out == state.window, wrapped, beg, strm.next_out, state.ring, |hist0|, limit)
      && Held(hist0, strm.out[..], beg, strm.next_out, state.window[..], state.ring,
              Span(strm.out == state.window, wrapped, beg, strm.next_out, state.ring))
    requires strm.out == state.window ==> Sound(state.codes, v0, hist0, limit)
    modifies state`hold, state`bits, state`mode, strm`next_in, strm`avail_in, strm`next_out, strm`avail_out, strm.out
    ensures Runs(state.codes, v0, hist0, limit, k) && Run(state.codes, v0, hist0, limit, k) == (v, hist)
    ensures Stopped(state.mode, state.codes, v, hist, limit, rest)
    ensures state.bits < 8 && Reads(state.hold, state.bits, strm.input, strm.next_in, rest)
      && strm.next_in >= old(strm.next_in)
    ensures strm.next_in + strm.avail_in == old(strm.next_in + strm.avail_in)
      && (state.mode == LEN ==> strm.avail_in < 9 || strm.avail_out < 258)
    ensures strm.next_out + strm.avail_out == strm.out.Length && strm.next_out >= old(strm.next_out)
    ensures var beg := old(strm.next_out - (start - strm.avail_out));
      && Limits(strm.out == state.window, wrapped, beg, strm.next_out, state.ring, |hist|, limit)
      && Held(hist, strm.out[..], beg, strm.next_out, state.window[..], state.ring,
              Span(strm.out == state.window, wrapped, beg, strm.next_out, state.ring))
    ensures 8 * strm.next_in - state.bits >= old(8 * strm.next_in - state.bits) + k
    ensures (k >= 1 || state.mode != LEN) && |hist| == |hist0| + strm.next_out - old(strm.next_out)
  {
    hide *;
    var i: nat, last: int := strm.next_in, strm.next_in + (strm.avail_in - 5);
    var out: nat := strm.next_out;
    var beg := out - (start - strm.avail_out);
    var end: int := out + (strm.avail_out - 257);
    var hold: nat, bits: nat := state.hold, state.bits;
    ghost var i0, bits0, u := i, bits, 0;
    k, v, hist, rest := 0, v0, hist0, v0;
    ProgressStart(state.codes, v0, hist0, limit);
    StoppedLen(state.codes, v, hist, limit);
    ReadsOf(hold, bits, strm.input, i, v0);
    while true
      invariant state.mode == LEN && bits <= 30 && i0 <= i < last && last + 5 == strm.next_in + strm.avail_in
        && out < end && u + bits == bits0 + 8 * (i - i0) && rest == v && u >= k
      invariant Progress(state.codes, v0, hist0, limit, k, v, hist, u) && Reads(hold, bits, strm.input, i, v)
        && Stopped(LEN, state.codes, v, hist, limit, v)
      invariant Limits(strm.out == state.window, wrapped, beg, out, state.ring, |hist|, limit) && out >= strm.next_out
        && |hist| == |hist0| + out - strm.next_out && (k >= 1 || (i < last && out < end))
      invariant Held(hist, strm.out[..], beg, out, state.window[..], state.ring,
                     Span(strm.out == state.window, wrapped, beg, out, state.ring))
      modifies state`mode, strm.out
      decreases |strm.input| * 8 + 8 - 8 * i + bits
    {
      ghost var used := Next(state.codes, v).1;
      NextFits(state.codes, v);
      var e;
      e, hold, bits, i := FastElement(state.codes, hold, bits, strm.input, i, v);
      ShrShr(v0, u, used);
      ProgressIs(state.codes, v0, hist0, limit, k, v, hist, u);
      u := u + used;
      rest := Shr(v, used);
      if !e.Emit? {
        state.mode := if e == END_OF_BLOCK then TYPE else BAD;
        StoppedElse(state.codes, v, hist, limit);
        break;
      }
      if strm.out == state.window { SoundAt(state.codes, v0, hist0, limit, k, v, hist, u - used); }
      var ok;
      ok, out := PutToken(state, strm.out, beg, out, e.token, wrapped, hist, limit);
      if !ok {
        state.mode := BAD;
        StoppedFar(state.codes, v, hist, limit);
        break;
      }
      ProgressStep(state.codes, v0, hist0, limit, k, v, hist, u - used);
      k, v, hist := k + 1, rest, Apply(hist, e.token);
      StoppedLen(state.codes, v, hist, limit);
      if !(i < last && out < end) { break; }
    }
    ProgressIs(state.codes, v0, hist0, limit, k, v, hist, if state.mode == LEN then u else u - Next(state.codes, v).1);
    i, hold, bits := ReturnBytes(hold, bits, strm.input, i, rest, i0, bits0, v0, u);
    strm.avail_in := strm.next_in + strm.avail_in - i;
    strm.next_in := i;
    strm.avail_out := strm.avail_out - (out - strm.next_out);
    strm.next_out := out;
    state.hold := hold;
    state.bits := bits;
  }

  /** Gives back the bytes not used; on entry there were fewer than 8 bits, so this does not go too far back. */
  method ReturnBytes(hold: nat, bits: nat, input: seq<byte>, i: nat, ghost v: nat, ghost i0: nat, ghost bits0: nat,
                     ghost v0: nat, ghost u: nat)
    returns (i': nat, hold': nat, bits': nat)
    requires Reads(hold, bits, input, i, v) && v == Shr(v0, u) && Shr(v0, bits0) == Val(input, i0)
    requires u + bits == bits0 + 8 * (i - i0) && i0 <= i && bits0 < 8 && bits <= 30
    ensures bits' < 8 && Reads(hold', bits', input, i', v) && i0 <= i' <= i <= i' + 3 && 8 * i' - bits' == 8 * i - bits
  {
    hide *;
    var len := bits / 8;
    GiveBack(hold, bits, input, i, v, i0, bits0, v0, u, len);
    i', bits' := i - len, bits - 8 * len;
    hold' := Low(hold, bits');
  }

  lemma {:induction false} ReadsOf(hold: nat, bits: nat, input: seq<byte>, i: nat, v: nat)
    requires Reads(hold, bits, input, i, v)
    ensures Shr(v, bits) == Val(input, i) && i <= |input|
  {
  }

  lemma {:induction false} ProgressIs(c: Tables, v0: nat, hist0: seq<byte>, limit: nat, k: nat, v: nat,
                                      hist: seq<byte>, u: nat)
    requires Progress(c, v0, hist0, limit, k, v, hist, u)
    ensures Runs(c, v0, hist0, limit, k) && Run(c, v0, hist0, limit, k) == (v, hist) && v == Shr(v0, u)
  {
    hide Run;
  }

  lemma {:induction false} StoppedLen(c: Tables, v: nat, hist: seq<byte>, limit: nat)
    ensures Stopped(LEN, c, v, hist, limit, v)
  {
  }

  lemma {:induction false} StoppedElse(c: Tables, v: nat, hist: seq<byte>, limit: nat)
    requires !Next(c, v).0.Emit?
    ensures Stopped(if Next(c, v).0 == END_OF_BLOCK then TYPE else BAD, c, v, hist, limit, Shr(v, Next(c, v).1))
  {
    hide Next;
  }

  lemma {:induction false} StoppedFar(c: Tables, v: nat, hist: seq<byte>, limit: nat)
    requires Next(c, v).0.Emit? && !CanApply(Next(c, v).0.token, hist, limit)
    ensures Stopped(BAD, c, v, hist, limit, Shr(v, Next(c, v).1))
  {
    hide Next;
  }
}
