/** inflateBack: decoding byte by byte of input, with the window as output buffer. */
module InflateBack {
  import opened Bytes
  import opened Powers
  import opened StreamCodes
  import opened CodeTables
  import opened InflateElements
  import opened InflateWindow
  import opened InflateFast
  import opened Lz77

  /** The distances that the LEN state refuses: beyond the window, or beyond what has been written to it. */
  predicate SlowRefuses(wsize: nat, whave: nat, left: int, dist: nat) {
    dist > wsize - (if whave < wsize then left else 0)
  }

  /**
   * At the same place in the window the two loops refuse the same distances, except for those beyond the history that
   * are no more than whave0 further, whave0 being the position at which the fast turn began, or the whole window.
   */
  lemma {:induction false} ChecksAgree(wsize: nat, whave: nat, left: nat, whave0: nat, dist: nat)
    requires left <= wsize && if whave < wsize then whave0 <= wsize - left else whave0 == wsize
    ensures (FastRefuses(wsize - left, whave0, dist) <==> SlowRefuses(wsize, whave, left, dist)) <==>
      !((if whave < wsize then wsize - left else wsize) < dist <= wsize - left + whave0)
  {
  }

  /** Ten bytes into an empty window, a distance of 15 is taken by the fast turn and refused by the slow one. */
  lemma {:induction false} ChecksDiffer()
    ensures !FastRefuses(10, 10, 15) && SlowRefuses(0x8000, 10, 0x8000 - 10, 15)
  {
  }

  /**
   * The state of inflateBack: input[next..next + have] has been obtained from in(), written has been given to out().
   */
  class BackState {
    const window: array<byte>
    const input: seq<byte>
    var next: nat
    var have: nat
    var left: nat
    var whave: nat
    var hold: nat
    var bits: nat
    var written: seq<byte>

    constructor (windowBits: nat, input: seq<byte>)
      requires 8 <= windowBits <= 15
      ensures Valid([]) && fresh(window) && this.input == input && next == 0 && written == []
        && left == window.Length == Pow2(windowBits)
      ensures Reads(hold, bits, input, next, Val(input, 0))
    {
      Pow2Monotone(8, windowBits);
      assert Pow2(8) == 256;
      window := new byte[Pow2(windowBits)];
      this.input := input;
      next, have, left, whave, hold, bits, written := 0, 0, Pow2(windowBits), 0, 0, 0, [];
    }

    ghost predicate Wrapped()
      reads this`whave
    {
      whave == window.Length
    }

    function Put(): nat
      reads this`left
    {
      if left <= window.Length then window.Length - left else 0
    }

    function R(): Ring {
      Ring(window.Length, window.Length, 0)
    }

    /** What has been written and what is in the window is the history, and its end is where matches look for it. */
    ghost predicate Valid(hist: seq<byte>)
      reads this`next, this`have, this`left, this`whave, this`written, window
    {
      && window.Length >= 256 && left <= window.Length && next + have <= |input| && whave <= window.Length
      && hist == written + window[..Put()] && (written != [] ==> Wrapped()) && (!Wrapped() ==> written == [])
      && Held(hist, window[..], 0, Put(), window[..], R(), Span(true, Wrapped(), 0, Put(), R()))
    }

    lemma {:induction false} ValidIs(hist: seq<byte>)
      requires Valid(hist)
      ensures window.Length >= 256 && 0 <= left <= window.Length && next + have <= |input|
        && Put() == window.Length - left
      ensures Held(hist, window[..], 0, Put(), window[..], R(), Span(true, Wrapped(), 0, Put(), R()))
      ensures hist == written + window[..Put()] && whave <= window.Length && (Wrapped() <==> whave == window.Length)
      ensures (written != [] ==> Wrapped()) && (!Wrapped() ==> written == [])
      ensures R() == Ring(window.Length, window.Length, 0)
    {
    }

    lemma {:induction false} ValidBy(hist: seq<byte>)
      requires window.Length >= 256 && 0 <= left <= window.Length && next + have <= |input| && whave <= window.Length
      requires Held(hist, window[..], 0, window.Length - left, window[..], Ring(window.Length, window.Length, 0),
                    Span(true, whave == window.Length, 0, window.Length - left, Ring(window.Length, window.Length, 0)))
      requires hist == written + window[..window.Length - left] && (written != [] ==> whave == window.Length)
        && (whave != window.Length ==> written == [])
      ensures Valid(hist)
    {
    }

    /** PULL: asks in() for input. What in() gives is a piece of the input that is left, of any length. */
    method Pull() returns (ok: bool)
      requires next + have <= |input|
      modifies this`have
      ensures next + have <= |input| && (ok ==> have > 0)
    {
      if have == 0 {
        var n: nat := *;
        if next + n > |input| { n := |input| - next; }
        have := n;
        if have == 0 { return false; }
      }
      ok := true;
    }

    /** PULLBYTE. */
    method PullByte(ghost v: nat) returns (ok: bool)
      requires Reads(hold, bits, input, next, v) && next + have <= |input|
      modifies this`have, this`next, this`hold, this`bits
      ensures next + have <= |input| && Reads(hold, bits, input, next, v)
      ensures ok ==> next == old(next) + 1 && bits == old(bits) + 8
      ensures !ok ==> next == old(next) && bits == old(bits) && hold == old(hold)
    {
      hide *;
      ok := Pull();
      if ok {
        PullReads(hold, bits, input, next, v);
        have := have - 1;
        hold, bits, next := hold + Shl(input[next], bits), bits + 8, next + 1;
      }
    }

    /** NEEDBITS, BITS and DROPBITS together. */
    method TakeBits(n: nat, ghost v: nat) returns (ok: bool, b: nat)
      requires Reads(hold, bits, input, next, v) && next + have <= |input|
      modifies this`have, this`next, this`hold, this`bits
      ensures next + have <= |input|
      ensures ok ==>
        b == Low(v, n) && Reads(hold, bits, input, next, Shr(v, n)) && (old(bits) < 8 ==> bits < 8)
          && 8 * next - bits == old(8 * next - bits) + n
    {
      hide *;
      while bits < n
        invariant next + have <= |input| && Reads(hold, bits, input, next, v)
          && (old(bits) < 8 ==> bits < 8 || n > bits - 8) && 8 * next - bits == old(8 * next - bits)
      {
        var got := PullByte(v);
        if !got { return false, 0; }
      }
      LowReads(hold, bits, input, next, v, n);
      DropReads(hold, bits, input, next, v, n);
      ok, b := true, Low(hold, n);
      hold, bits := Shr(hold, n), bits - n;
    }

    /** Takes a code, asking for input only as it turns out to be needed. */
    method TakeCode(t: seq<Entry>, root: nat, ghost kind: CodeType, ghost v: nat) returns (ok: bool, op: nat, val: nat)
      requires Proper(t, root, kind) && kind != CODES && Reads(hold, bits, input, next, v) && next + have <= |input|
      modifies this`have, this`next, this`hold, this`bits
      ensures next + have <= |input|
      ensures ok ==>
        var e := Lookup(t, root, v); op == e.op && val == e.val && Reads(hold, bits, input, next, Shr(v, e.bits))
      ensures ok && old(bits) < 8 ==> bits < 8
      ensures ok ==> 8 * next - bits == old(8 * next - bits) + Lookup(t, root, v).bits
    {
      hide *;
      ghost var n := Lookup(t, root, v).bits;
      LookupParts(t, root, kind, hold);
      LookupParts(t, root, kind, v);
      var here := t[Low(hold, root)];
      while here.bits > bits
        invariant next + have <= |input| && Reads(hold, bits, input, next, v) && Low(hold, root) < |t|
          && here == t[Low(hold, root)]
        invariant (old(bits) < 8 ==> bits < 8 || n > bits - 8) && 8 * next - bits == old(8 * next - bits)
        decreases |input| - next
      {
        FirstBits(t, root, kind, hold);
        EnoughBits(t, root, kind, hold, bits, input, next, v);
        ReadsIs(hold, bits, input, next, v);
        var got := PullByte(v);
        if !got { return false, 0, 0; }
        ReadsIs(hold, bits, input, next, v);
        LookupParts(t, root, kind, hold);
        here := t[Low(hold, root)];
      }
      LookupParts(t, root, kind, hold);
      LinkIs(here);
      if here.op != 0 && here.op / 16 == 0 {
        ok, here := SecondLevel(t, root, here, kind, v, old(bits) < 8);
        if !ok { return false, 0, 0; }
      } else {
        LinkOps(here);
        HoldLookup(t, root, kind, hold, bits, input, next, v);
        DropReads(hold, bits, input, next, v, here.bits);
        hold, bits := Shr(hold, here.bits), bits - here.bits;
        ok := true;
      }
      op, val := here.op, here.val;
    }

    lemma {:induction false} LinkOps(e: Entry)
      ensures IsLink(e) <==> e.op != 0 && e.op / 16 == 0
    {
    }

    /** As long as the entry found asks for more bits than there are, so does the right one. */
    lemma {:induction false} EnoughBits(t: seq<Entry>, root: nat, kind: CodeType, hold: nat, bits: nat,
                                        input: seq<byte>, i: nat, v: nat)
      requires Proper(t, root, kind) && Reads(hold, bits, input, i, v)
      ensures Lookup(t, root, hold).bits > bits ==> Lookup(t, root, v).bits > bits
    {
      hide Lookup, ProperEntry, Val, Shr, Low;
      if Lookup(t, root, v).bits <= bits { LowReads(hold, bits, input, i, v, Lookup(t, root, v).bits); }
    }

    lemma {:induction false} FirstBits(t: seq<Entry>, root: nat, kind: CodeType, v: nat)
      requires Proper(t, root, kind) && kind != CODES
      ensures Low(v, root) < |t| && t[Low(v, root)].bits <= Lookup(t, root, v).bits
    {
      LookupParts(t, root, kind, v);
    }

    /** The entry in the sub-table. */
    method SecondLevel(t: seq<Entry>, root: nat, last: Entry, ghost kind: CodeType, ghost v: nat, ghost few: bool)
      returns (ok: bool, here: Entry)
      requires Proper(t, root, kind) && kind != CODES && Reads(hold, bits, input, next, v) && next + have <= |input|
      requires Low(hold, root) < |t| && last == t[Low(hold, root)] && IsLink(last) && last.bits <= bits
      requires few ==> bits < 8 || Lookup(t, root, v).bits > bits - 8
      modifies this`have, this`next, this`hold, this`bits
      ensures next + have <= |input|
      ensures ok ==>
        var e := Lookup(t, root, v);
        here.op == e.op && here.val == e.val && Reads(hold, bits, input, next, Shr(v, e.bits))
      ensures ok && few ==> bits < 8
      ensures ok ==> 8 * next - bits == old(8 * next - bits) + Lookup(t, root, v).bits
    {
      hide *;
      ghost var n := Lookup(t, root, v).bits;
      LookupParts(t, root, kind, hold);
      LowReads(hold, bits, input, next, v, root);
      ghost var first := Low(hold, root);
      ShrLow(hold, last.bits, last.op);
      here := t[last.val + Shr(Low(hold, last.bits + last.op), last.bits)];
      while last.bits + here.bits > bits
        invariant next + have <= |input| && Reads(hold, bits, input, next, v) && root <= bits
          && Low(hold, root) == first
        invariant last.val + Low(Shr(hold, last.bits), last.op) < |t|
          && here == t[last.val + Low(Shr(hold, last.bits), last.op)]
        invariant (few ==> bits < 8 || n > bits - 8) && 8 * next - bits == old(8 * next - bits)
        decreases |input| - next
      {
        LookupParts(t, root, kind, hold);
        EnoughBits(t, root, kind, hold, bits, input, next, v);
        ReadsIs(hold, bits, input, next, v);
        var got := PullByte(v);
        if !got { return false, here; }
        ReadsIs(hold, bits, input, next, v);
        LowReads(hold, bits, input, next, v, root);
        LookupParts(t, root, kind, hold);
        ShrLow(hold, last.bits, last.op);
        here := t[last.val + Shr(Low(hold, last.bits + last.op), last.bits)];
      }
      LookupParts(t, root, kind, hold);
      HoldLookup(t, root, kind, hold, bits, input, next, v);
      DropReads(hold, bits, input, next, v, last.bits + here.bits);
      ShrShr(hold, last.bits, here.bits);
      hold, bits := Shr(hold, last.bits), bits - last.bits;
      hold, bits := Shr(hold, here.bits), bits - here.bits;
      ok := true;
    }

    // ----- the window as output

    /** ROOM: a full window is written out. What out() answers is not known. */
    method Room(ghost hist: seq<byte>) returns (ok: bool)
      requires Valid(hist)
      modifies this`left, this`whave, this`written
      ensures ok ==> Valid(hist) && 0 < left && (Wrapped() || !old(Wrapped()))
      ensures ok ==> Span(true, Wrapped(), 0, Put(), R()) == old(Span(true, Wrapped(), 0, Put(), R()))
    {
      hide *;
      ValidIs(hist);
      if left == 0 {
        ghost var w := window[..];
        SpanIs(Wrapped(), Put(), R());
        WrapHeld(hist, w, R(), Span(true, Wrapped(), 0, Put(), R()));
        left := window.Length;
        whave := left;
        written := written + window[..];
        assert window[..0] == [];
        assert w[..|w|] == w;
        var failed: bool := *;
        if failed { return false; }
        SpanIs(true, 0, Ring(window.Length, window.Length, 0));
        ValidBy(hist);
        ValidIs(hist);
        SpanIs(Wrapped(), Put(), R());
      }
      ok := true;
    }

    lemma {:induction false} SpanIs(wrapped: bool, o: nat, r: Ring)
      ensures Span(true, wrapped, 0, o, r) == if wrapped then r.wsize else o
    {
    }

    /** At the end of the window the ring begins anew. */
    lemma {:induction false} WrapHeld(hist: seq<byte>, w: seq<byte>, r: Ring, reach: nat)
      requires Held(hist, w, 0, |w|, w, r, reach) && r.wsize == |w| && r.wnext == 0 && reach <= |w|
      ensures Held(hist, w, 0, 0, w, r, reach)
    {
      forall i: nat {:trigger Behind(w, 0, 0, w, r, i)} | 1 <= i <= reach
        ensures Behind(w, 0, 0, w, r, i) == hist[|hist| - i] {
        assert Behind(w, 0, |w|, w, r, i) == hist[|hist| - i];
      }
    }

    /** Puts one byte out. */
    method PutByte(c: byte, ghost hist: seq<byte>)
      requires Valid(hist) && 0 < left
      modifies this`left, window
      ensures Valid(hist + [c]) && left == old(left) - 1
    {
      hide *;
      ValidIs(hist);
      ghost var w, o := window[..], window.Length - left;
      SpanNext(true, Wrapped(), 0, o, R());
      SpanIs(Wrapped(), o, R());
      SpanIs(Wrapped(), o + 1, R());
      window[window.Length - left] := c;
      assert window[..] == w[o := c];
      HeldByte(hist, w, 0, o, w, window[..], R(), Span(true, Wrapped(), 0, o, R()),
               Span(true, Wrapped(), 0, o + 1, R()), c);
      left := left - 1;
      assert window[..o + 1] == w[..o] + [c];
      ValidBy(hist + [c]);
    }

    /** One piece of a match: as much as lies in one stretch of the window. */
    method CopyPiece(length: nat, offset: nat, ghost hist: seq<byte>, ghost k: nat) returns (copy: nat)
      requires Valid(CopyBack(hist, offset, k)) && 0 < left && 0 < length && 1 <= offset <= |hist|
      requires offset <= Span(true, Wrapped(), 0, Put(), R())
      modifies this`left, window
      ensures 1 <= copy <= length && Valid(CopyBack(hist, offset, k + copy)) && left == old(left) - copy
      ensures offset <= Span(true, Wrapped(), 0, Put(), R())
    {
      hide *;
      ValidIs(CopyBack(hist, offset, k));
      ghost var o := window.Length - left;
      SpanIs(Wrapped(), o, R());
      var from: int;
      var n: int := window.Length - offset;
      if n < left {
        from := (window.Length - left) + n;
        n := left - n;
      } else {
        from := (window.Length - left) - offset;
        n := left;
      }
      copy := if n > length then length else n;
      LayoutRing(window);
      PieceSource(window.Length, o, offset, copy);
      ghost var w, h := window[..], CopyBack(hist, offset, k);
      CopyBackStep(hist, offset, k);
      CopyRun(window, 0, window.Length - left, window, Ring(window.Length, window.Length, 0), window, from, copy,
              Wrapped(), hist, offset, k, offset <= o);
      left := left - copy;
      SpanIs(Wrapped(), o + copy, R());
      assert window[..o] == w[..o];
      HistoryGrows(hist, offset, k, copy, written, w, window[..], o, Wrapped());
      ValidBy(CopyBack(hist, offset, k + copy));
      ValidIs(CopyBack(hist, offset, k + copy));
      SpanIs(Wrapped(), Put(), R());
    }

    lemma {:induction false} LayoutRing(window: array<byte>)
      ensures Layout(window, 0, window, Ring(window.Length, window.Length, 0))
    {
    }

    lemma {:induction false} PieceSource(n: nat, o: nat, offset: nat, copy: nat)
      requires o < n && 1 <= offset <= n && 1 <= copy
      requires if n - offset < n - o then copy <= offset - o else copy <= n - o
      ensures Source(offset <= o, if n - offset < n - o then o + (n - offset)
                     else o - offset, copy, 0, o, Ring(n, n, 0), offset)
    {
    }

    lemma {:induction false} CopyBackPrefix(hist: seq<byte>, offset: nat, k: nat, n: nat)
      requires 1 <= offset <= |hist|
      ensures |CopyBack(hist, offset, k + n)| == |hist| + k + n
        && CopyBack(hist, offset, k + n)[..|hist| + k] == CopyBack(hist, offset, k)
    {
      hide CopyBack;
      CopyBackStep(hist, offset, k);
      if n > 0 {
        CopyBackPrefix(hist, offset, k, n - 1);
        CopyBackStep(hist, offset, k + n - 1);
      }
    }

    /** What CopyRun has added to the history is what it has put into the window. */
    lemma {:induction false} HistoryGrows(hist: seq<byte>, offset: nat, k: nat, copy: nat, written: seq<byte>,
                                          w0: seq<byte>, w: seq<byte>, o: nat, wrapped: bool)
      requires 1 <= offset <= |hist| && o + copy <= |w| && o <= |w0| && w[..o] == w0[..o]
        && CopyBack(hist, offset, k) == written + w0[..o]
      requires Held(CopyBack(hist, offset, k + copy), w, 0, o + copy, w, Ring(|w|, |w|, 0),
                    Span(true, wrapped, 0, o + copy, Ring(|w|, |w|, 0)))
      ensures CopyBack(hist, offset, k + copy) == written + w[..o + copy]
    {
      hide CopyBack;
      CopyBackPrefix(hist, offset, k, copy);
      var h := CopyBack(hist, offset, k + copy);
      forall x: nat | o <= x < o + copy ensures h[|h| - (o + copy - x)] == w[x] {
        assert Behind(w, 0, o + copy, w, Ring(|w|, |w|, 0), o + copy - x) == h[|h| - (o + copy - x)];
      }
      assert h[|h| - copy..] == w[o..o + copy];
      assert h == h[..|h| - copy] + h[|h| - copy..];
      assert w[..o + copy] == w[..o] + w[o..o + copy];
    }

    // ----- the LEN state

    /** A whole match, piece by piece. */
    method CopyMatchBack(length: nat, offset: nat, ghost hist: seq<byte>) returns (ok: bool)
      requires Valid(hist) && 0 < length && 1 <= offset <= |hist| && offset <= Span(true, Wrapped(), 0, Put(), R())
      modifies this`left, this`whave, this`written, window
      ensures ok ==> Valid(CopyBack(hist, offset, length))
    {
      hide *;
      var rest: nat := length;
      NothingCopied(hist, offset);
      while true
        invariant 0 < rest <= length && Valid(CopyBack(hist, offset, length - rest))
          && offset <= Span(true, Wrapped(), 0, Put(), R())
        decreases rest
      {
        var room := Room(CopyBack(hist, offset, length - rest));
        if !room { return false; }
        var copy := CopyPiece(rest, offset, hist, length - rest);
        rest := rest - copy;
        if rest == 0 { break; }
      }
      ok := true;
    }

    /** The limit on distances is exactly what the history allows. */
    lemma {:induction false} OffsetOk(hist: seq<byte>, offset: nat)
      requires Valid(hist)
      ensures offset <= window.Length - (if whave < window.Length then left else 0) <==>
        offset <= Span(true, Wrapped(), 0, Put(), R())
      ensures offset <= Span(true, Wrapped(), 0, Put(), R()) <==> offset <= |hist| && offset <= window.Length
    {
      hide Behind;
    }

    /** The extra bits of a base value, if any. */
    method TakeExtra(op: nat, base: nat, ghost v: nat) returns (ok: bool, x: nat)
      requires Reads(hold, bits, input, next, v) && next + have <= |input|
      modifies this`have, this`next, this`hold, this`bits
      ensures next + have <= |input|
      ensures ok ==>
        x == base + Low(v, op % 16) && Reads(hold, bits, input, next, Shr(v, op % 16)) && (old(bits) < 8 ==> bits < 8)
          && 8 * next - bits == old(8 * next - bits) + op % 16
    {
      hide *;
      ok, x := true, base;
      if op % 16 != 0 {
        var b;
        ok, b := TakeBits(op % 16, v);
        x := base + b;
      } else {
        NoLow(v);
      }
    }

    lemma {:induction false} NoLow(v: nat)
      ensures Low(v, 0) == 0 && Shr(v, 0) == v
    {
    }

    /** One element, without any assumption on how much input or room there is. Fails only for lack of input. */
    method TakeElement(c: Tables, ghost v: nat) returns (ok: bool, e: Element)
      requires ProperTables(c) && Reads(hold, bits, input, next, v) && next + have <= |input|
      modifies this`have, this`next, this`hold, this`bits
      ensures next + have <= |input|
      ensures ok ==>
        e == Next(c, v).0 && Reads(hold, bits, input, next, Shr(v, Next(c, v).1)) && (old(bits) < 8 ==> bits < 8)
      ensures ok ==> 8 * next - bits == old(8 * next - bits) + Next(c, v).1
    {
      hide *;
      ProperTablesIs(c);
      NextIs(c, v);
      ghost var le := Lookup(c.lencode, c.lenbits, v);
      ProperAt(c.lencode, c.lenbits, LENS, v);
      ProperLength(le);
      var op, val, len;
      ok, op, val := TakeCode(c.lencode, c.lenbits, LENS, v);
      if !ok { return false, BAD_CODE; }
      if op == 0 { return true, Emit(Literal(val % 256)); }
      EndBits(le);
      if IsEnd(op) { return true, END_OF_BLOCK; }
      if op / 64 % 2 == 1 { return true, BAD_CODE; }
      ok, len := TakeExtra(op, val, Shr(v, le.bits));
      if !ok { return false, BAD_CODE; }
      ghost var used := le.bits + op % 16;
      ShrShr(v, le.bits, op % 16);
      ghost var d := Lookup(c.distcode, c.distbits, Shr(v, used));
      ProperAt(c.distcode, c.distbits, DISTS, Shr(v, used));
      ProperDistance(d);
      DistanceBits(d);
      ok, op, val := TakeCode(c.distcode, c.distbits, DISTS, Shr(v, used));
      if !ok { return false, BAD_CODE; }
      ShrShr(v, used, d.bits);
      if op / 64 % 2 == 1 { return true, BAD_DISTANCE; }
      var dist;
      ok, dist := TakeExtra(op, val, Shr(v, used + d.bits));
      ShrShr(v, used + d.bits, op % 16);
      e := Emit(Copy(dist, len));
    }

    lemma {:induction false} EndBits(e: Entry)
      requires ProperEntry(LENS, e)
      ensures e.op != 0 ==>
        (IsEnd(e.op) <==> e.op == 96) && (IsBase(e.op) <==> e.op < 32) && (e.op / 64 % 2 == 1 <==> e.op >= 64)
          && (e.op < 64 ==> e.op < 32)
    {
      hide Pow2;
    }

    lemma {:induction false} DistanceBits(e: Entry)
      requires ProperEntry(DISTS, e)
      ensures IsBase(e.op) <==> e.op / 64 % 2 != 1
    {
      hide Pow2;
    }

    lemma {:induction false} RefusesIs(wsize: nat, whave: nat, left: int, dist: nat)
      ensures SlowRefuses(wsize, whave, left, dist) <==> dist > wsize - (if whave < wsize then left else 0)
    {
    }

    /** One turn of the LEN state, the slow way. */
    method SlowTurn(c: Tables, ghost v: nat, ghost hist: seq<byte>) returns (r: Outcome)
      requires ProperTables(c) && Valid(hist) && Reads(hold, bits, input, next, v)
      modifies this`have, this`next, this`hold, this`bits, this`left, this`whave, this`written, window
      ensures r == MORE ==>
        Next(c, v).0.Emit? && CanApply(Next(c, v).0.token, hist, window.Length)
          && Valid(Apply(hist, Next(c, v).0.token))
      ensures r == MORE || r == BLOCK_END ==>
        Reads(hold, bits, input, next, Shr(v, Next(c, v).1)) && (old(bits) < 8 ==> bits < 8)
      ensures r == MORE ==> 8 * next - bits > old(8 * next - bits)
      ensures r == BLOCK_END ==> Next(c, v).0 == END_OF_BLOCK && Valid(hist)
      ensures r == DATA_ERROR ==>
        Next(c, v).0 != END_OF_BLOCK && (Next(c, v).0.Emit? ==> !CanApply(Next(c, v).0.token, hist, window.Length))
    {
      hide *;
      ValidIs(hist);
      NextFits(c, v);
      var ok, e := TakeElement(c, v);
      if !ok { return BUF_ERROR; }
      ValidBy(hist);
      match e
      case END_OF_BLOCK => r := BLOCK_END;
      case BAD_CODE => r := DATA_ERROR;
      case BAD_DISTANCE => r := DATA_ERROR;
      case Emit(t) =>
        match t {
          case Literal(b) =>
            LiteralApplies(hist, b, window.Length);
            ok := Room(hist);
            if !ok { return BUF_ERROR; }
            PutByte(b, hist);
          case Copy(offset, length) =>
            OffsetOk(hist, offset);
            CopyApplies(hist, offset, length, window.Length);
            RefusesIs(window.Length, whave, left, offset);
            if SlowRefuses(window.Length, whave, left, offset) { return DATA_ERROR; }
            ok := CopyMatchBack(length, offset, hist);
            if !ok { return BUF_ERROR; }
        }
        r := MORE;
    }

    /** One turn of the LEN state with inflate_fast, which finds the history in the output buffer itself. */
    method FastTurn(c: Tables, ghost v: nat, ghost hist: seq<byte>)
      returns (r: Outcome, ghost k: nat, ghost v': nat, ghost hist': seq<byte>)
      requires ProperTables(c) && Valid(hist) && Reads(hold, bits, input, next, v) && bits < 8 && have >= 6
        && left >= 258
      requires Sound(c, v, hist, window.Length)
      modifies this`have, this`next, this`hold, this`bits, this`left, this`whave, this`written, window
      ensures Runs(c, v, hist, window.Length, k) && Run(c, v, hist, window.Length, k) == (v', hist') && Valid(hist')
        && r != BUF_ERROR
      ensures r == MORE ==>
        Reads(hold, bits, input, next, v') && bits < 8 && k >= 1 && 8 * next - bits > old(8 * next - bits)
      ensures r == BLOCK_END ==>
        Next(c, v').0 == END_OF_BLOCK && Reads(hold, bits, input, next, Shr(v', Next(c, v').1)) && bits < 8
      ensures r == DATA_ERROR ==>
        Next(c, v').0 != END_OF_BLOCK && (Next(c, v').0.Emit? ==> !CanApply(Next(c, v').0.token, hist', window.Length))
    {
      hide *;
      ValidIs(hist);
      ghost var wrapped := Wrapped();
      ghost var n, o, w := window.Length, window.Length - left, window[..];
      if whave < window.Length { whave := window.Length - left; }
      ghost var mode, rest;
      r, k, v', hist', mode, rest := CallFast(c, v, hist, wrapped);
      RunGrows(c, v, hist, n, k);
      ghost var o' := n - left;
      NewHistory(hist, hist', written, w, o, window[..], o', wrapped);
      ValidBy(hist');
      StoppedIs(mode, c, v', hist', n, rest);
      ReadsIs(hold, bits, input, next, rest);
    }

    /** RESTORE, inflate_fast, LOAD. */
    method CallFast(c: Tables, ghost v: nat, ghost hist: seq<byte>, ghost wrapped: bool)
      returns (r: Outcome, ghost k: nat, ghost v': nat, ghost hist': seq<byte>, ghost mode: Mode, ghost rest: nat)
      requires ProperTables(c) && Reads(hold, bits, input, next, v) && bits < 8 && 6 <= have && next + have <= |input|
        && 258 <= left <= window.Length
      requires Sound(c, v, hist, window.Length) && whave <= window.Length && (wrapped ==> whave == window.Length)
      requires !wrapped ==> |hist| == window.Length - left && whave <= |hist|
      requires Held(hist, window[..], 0, window.Length - left, window[..], Ring(window.Length, window.Length, 0),
                    Span(true, wrapped, 0, window.Length - left, Ring(window.Length, window.Length, 0)))
      modifies this`have, this`next, this`hold, this`bits, this`left, window
      ensures Runs(c, v, hist, window.Length, k) && Run(c, v, hist, window.Length, k) == (v', hist')
      ensures Stopped(mode, c, v', hist', window.Length, rest) && (mode == LEN ==> k >= 1)
      ensures bits < 8 && Reads(hold, bits, input, next, rest) && 8 * next - bits >= old(8 * next - bits) + k
      ensures next + have == old(next + have) && left <= old(left) && |hist'| == |hist| + old(left) - left
      ensures Held(hist', window[..], 0, window.Length - left, window[..], Ring(window.Length, window.Length, 0),
                   Span(true, wrapped, 0, window.Length - left, Ring(window.Length, window.Length, 0)))
      ensures r == match mode case LEN => MORE case TYPE => BLOCK_END case BAD => DATA_ERROR
    {
      hide *;
      ghost var n, o, w := window.Length, window.Length - left, window[..];
      var state := new InflateState(window, c);
      state.ring := Ring(window.Length, whave, 0);
      state.hold, state.bits := hold, bits;
      var strm := new InflateStream(window, input);
      strm.next_in, strm.avail_in, strm.next_out, strm.avail_out := next, have, window.Length - left, left;
      SpanIs(wrapped, o, Ring(n, n, 0));
      SameRing(hist, w, o, n, whave, wrapped);
      BackLimits(wrapped, o, n, whave, |hist|, hist, w);
      BackLayout(window, whave);
      k, v', hist', rest := InflateFast.InflateFast(state, strm, window.Length, v, hist, wrapped, window.Length);
      left, have, next, hold, bits := strm.avail_out, strm.avail_in, strm.next_in, state.hold, state.bits;
      mode := state.mode;
      SameRing(hist', window[..], n - left, n, whave, wrapped);
      r := match state.mode case LEN => MORE case TYPE => BLOCK_END case BAD => DATA_ERROR;
    }

    lemma {:induction false} StoppedIs(mode: Mode, c: Tables, v: nat, hist: seq<byte>, limit: nat, rest: nat)
      requires Stopped(mode, c, v, hist, limit, rest)
      ensures mode == LEN ==> rest == v
      ensures mode == TYPE ==> Next(c, v).0 == END_OF_BLOCK && rest == Shr(v, Next(c, v).1)
      ensures mode == BAD ==>
        Next(c, v).0 != END_OF_BLOCK && (Next(c, v).0.Emit? ==> !CanApply(Next(c, v).0.token, hist, limit))
    {
      hide Next, CanApply, Shr;
    }

    lemma {:induction false} BackLayout(window: array<byte>, whave: nat)
      requires whave <= window.Length
      ensures Layout(window, 0, window, Ring(window.Length, whave, 0))
    {
    }

    lemma {:induction false} BackLimits(wrapped: bool, o: nat, n: nat, whave: nat, size: nat, hist: seq<byte>,
                                        w: seq<byte>)
      requires Held(hist, w, 0, o, w, Ring(n, n, 0), Span(true, wrapped, 0, o, Ring(n, n, 0))) && size == |hist|
        && o <= n == |w|
      requires wrapped ==> whave == n
      requires !wrapped ==> size == o && whave <= o
      ensures Limits(true, wrapped, 0, o, Ring(n, whave, 0), size, n)
    {
    }

    /** How much of the window is valid does not matter to where a byte is. */
    lemma {:induction false} SameRing(hist: seq<byte>, w: seq<byte>, o: nat, n: nat, whave: nat, wrapped: bool)
      ensures Held(hist, w, 0, o, w, Ring(n, whave, 0), Span(true, wrapped, 0, o, Ring(n, whave, 0)))
        <==> Held(hist, w, 0, o, w, Ring(n, n, 0), Span(true, wrapped, 0, o, Ring(n, n, 0)))
    {
      forall i: nat ensures Behind(w, 0, o, w, Ring(n, whave, 0), i) == Behind(w, 0, o, w, Ring(n, n, 0), i) { }
    }

    lemma {:induction false} NewHistory(hist: seq<byte>, hist': seq<byte>, written: seq<byte>, w: seq<byte>, o: nat,
                                        w': seq<byte>, o': nat, wrapped: bool)
      requires o <= o' <= |w'| == |w| && hist == written + w[..o] && |hist'| == |hist| + o' - o
        && hist'[..|hist|] == hist
      requires Held(hist', w', 0, o', w', Ring(|w|, |w|, 0), Span(true, wrapped, 0, o', Ring(|w|, |w|, 0)))
      ensures hist' == written + w'[..o']
    {
      forall x: nat | x < o' ensures hist'[|hist'| - (o' - x)] == w'[x] {
        assert Behind(w', 0, o', w', Ring(|w|, |w|, 0), o' - x) == hist'[|hist'| - (o' - x)];
      }
      assert hist'[|written|..] == w'[..o'];
      assert hist'[..|written|] == hist[..|written|] == written;
    }

    /**
     * The LEN state until it is left: fast while there is plenty of input and room, element by element otherwise.
     * However the input arrives, the result is that of running through the elements of the block.
     */
    method DecodeBlock(c: Tables, ghost v0: nat, ghost hist0: seq<byte>)
      returns (r: Outcome, ghost n: nat, ghost v: nat, ghost hist: seq<byte>)
      requires ProperTables(c) && Valid(hist0) && Reads(hold, bits, input, next, v0) && bits < 8
        && Sound(c, v0, hist0, window.Length)
      modifies this`have, this`next, this`hold, this`bits, this`left, this`whave, this`written, window
      ensures r != MORE && Runs(c, v0, hist0, window.Length, n) && Run(c, v0, hist0, window.Length, n) == (v, hist)
      ensures r == BLOCK_END ==>
        Next(c, v).0 == END_OF_BLOCK && Valid(hist) && Reads(hold, bits, input, next, Shr(v, Next(c, v).1)) && bits < 8
      ensures r == DATA_ERROR ==>
        || Next(c, v).0 == BAD_CODE || Next(c, v).0 == BAD_DISTANCE
        || (Next(c, v).0.Emit? && !CanApply(Next(c, v).0.token, hist, window.Length))
    {
      hide *;
      n, v, hist := 0, v0, hist0;
      RunsNone(c, v0, hist0, window.Length);
      ValidIs(hist);
      while true
        invariant Runs(c, v0, hist0, window.Length, n) && Run(c, v0, hist0, window.Length, n) == (v, hist)
        invariant Valid(hist) && Reads(hold, bits, input, next, v) && bits < 8
        decreases 8 * (|input| - next) + bits
      {
        ReadsIs(hold, bits, input, next, v);
        ghost var k, v', hist' := 1, v, hist;
        SoundHere(c, v0, hist0, window.Length, n, v, hist);
        if have >= 6 && left >= 258 {
          r, k, v', hist' := FastTurn(c, v, hist);
        } else {
          RunsNone(c, v, hist, window.Length);
          r := SlowTurn(c, v, hist);
          if r == MORE {
            RunsStep(c, v, hist, window.Length, 0, v, hist);
            v', hist' := Shr(v, Next(c, v).1), Apply(hist, Next(c, v).0.token);
          } else {
            k := 0;
          }
        }
        RunsOn(c, v0, hist0, window.Length, n, k, v, hist);
        n, v, hist := n + k, v', hist';
        if r != MORE {
          SoundHere(c, v0, hist0, window.Length, n, v, hist);
          break;
        }
      }
    }

    lemma {:induction false} SoundHere(c: Tables, v0: nat, hist0: seq<byte>, limit: nat, n: nat, v: nat,
                                       hist: seq<byte>)
      requires Sound(c, v0, hist0, limit) && Runs(c, v0, hist0, limit, n) && Run(c, v0, hist0, limit, n) == (v, hist)
      ensures Sound(c, v, hist, limit)
    {
      hide Run, Next, Doubtful, Shr;
      forall k: nat | Runs(c, v, hist, limit, k)
        ensures var (v', h) := Run(c, v, hist, limit, k);
          Next(c, v').0.Emit? ==> !Doubtful(Next(c, v').0.token, |h|, limit)
      {
        RunsOn(c, v0, hist0, limit, n, k, v, hist);
        assert Run(c, v0, hist0, limit, n + k) == Run(c, v, hist, limit, k);
      }
    }

    // ----- the STORED state

    lemma {:induction false} TwoBytes(input: seq<byte>, i: nat)
      requires i + 2 <= |input|
      ensures Low(Val(input, i), 16) == input[i] as nat + 256 * input[i + 1] as nat
        && Shr(Val(input, i), 16) == Val(input, i + 2)
    {
      hide *;
      ValStep(input, i);
      ValStep(input, i + 1);
      ByteLow(input[i], Val(input, i + 1));
      ByteLow(input[i + 1], Val(input, i + 2));
      LowAdd(Val(input, i), 8, 8);
      ShlByte(input[i + 1]);
      ShrShr(Val(input, i), 8, 8);
    }

    lemma {:induction false} ValStep(input: seq<byte>, i: nat)
      requires i < |input|
      ensures Val(input, i) == input[i] as nat + 256 * Val(input, i + 1)
    {
    }

    /** Less than a byte is left in the buffer: it is dropped, and the stream goes on at the next byte. */
    lemma {:induction false} Aligned(hold: nat, bits: nat, input: seq<byte>, i: nat, v: nat)
      requires Reads(hold, bits, input, i, v) && bits < 8
      ensures Reads(Shr(hold, bits % 8), bits - bits % 8, input, i, Val(input, i))
    {
      DropReads(hold, bits, input, i, v, bits);
    }

    lemma {:induction false} EmptyBuffer(input: seq<byte>, i: nat)
      requires i <= |input|
      ensures Reads(0, 0, input, i, Val(input, i))
    {
    }

    /** The length of a stored block and its complement. */
    method StoredLength(ghost v: nat) returns (ok: bool, length: nat, fits: bool)
      requires Reads(hold, bits, input, next, v) && next + have <= |input| && bits < 8
      modifies this`have, this`next, this`hold, this`bits
      ensures next + have <= |input|
      ensures ok ==> var p := old(next);
        && next == p + 4 <= |input| && hold == 0 && bits == 0
           && length == input[p] as nat + 256 * input[p + 1] as nat < 0x1_0000
        && (fits <==> length + (input[p + 2] as nat + 256 * input[p + 3] as nat) == 0xffff)
    {
      hide *;
      ghost var p := next;
      Aligned(hold, bits, input, next, v);
      hold, bits := Shr(hold, bits % 8), bits - bits % 8;
      while bits < 32
        invariant next + have <= |input| && Reads(hold, bits, input, next, Val(input, p))
          && bits == 8 * (next - p) <= 32 && p <= next
        decreases 32 - bits
      {
        var got := PullByte(Val(input, p));
        if !got { return false, 0, false; }
      }
      ReadsIs(hold, bits, input, next, Val(input, p));
      LowReads(hold, bits, input, next, Val(input, p), 16);
      HighReads(hold, bits, input, next, Val(input, p));
      TwoBytes(input, p);
      TwoBytes(input, p + 2);
      length := Low(hold, 16);
      fits := length + Shr(hold, 16) == 0xffff;
      hold, bits := 0, 0;
      ok := true;
    }

    lemma {:induction false} HighReads(hold: nat, bits: nat, input: seq<byte>, i: nat, v: nat)
      requires Reads(hold, bits, input, i, v) && bits == 32
      ensures Shr(hold, 16) == Low(Shr(v, 16), 16)
    {
      ShrLow(v, 16, 16);
    }

    /** Input straight to the window. */
    method CopyStored(length: nat, ghost hist: seq<byte>) returns (ok: bool)
      requires Valid(hist) && hold == 0 && bits == 0
      modifies this`have, this`next, this`left, this`whave, this`written, window
      ensures ok ==> old(next) + length == next <= |input| && Valid(hist + input[old(next)..next])
    {
      hide *;
      ghost var p := next;
      var rest: nat := length;
      ValidIs(hist);
      assert hist + input[p..p] == hist;
      while rest != 0
        invariant p <= next <= |input| && rest == length - (next - p) && Valid(hist + input[p..next])
        decreases rest
      {
        ghost var h := hist + input[p..next];
        ValidIs(h);
        ok := Pull();
        if !ok { return; }
        ValidBy(h);
        ok := Room(h);
        if !ok { return; }
        var copy: nat := rest;
        if copy > have { copy := have; }
        ValidIs(h);
        if copy > left { copy := left; }
        ghost var q := next;
        CopyInput(copy, h);
        assert input[p..q] + input[q..next] == input[p..next];
        assert h + input[next - copy..next] == hist + input[p..next];
        rest := rest - copy;
      }
      ValidIs(hist + input[p..next]);
      ok := true;
    }

    method CopyInput(copy: nat, ghost hist: seq<byte>)
      requires Valid(hist) && 0 < copy <= have && copy <= left && next + have <= |input|
      modifies this`have, this`next, this`left, window
      ensures next == old(next) + copy && have == old(have) - copy && Valid(hist + input[old(next)..next])
    {
      hide *;
      ghost var p := next;
      var i := 0;
      assert hist + input[p..p] == hist;
      while i < copy
        invariant 0 <= i <= copy && next == p + i && have == old(have) - i && left == old(left) - i
          && Valid(hist + input[p..next])
      {
        ghost var h := hist + input[p..next];
        PutByte(input[next], h);
        assert h + [input[next]] == hist + input[p..next + 1];
        ValidIs(hist + input[p..next + 1]);
        have, next := have - 1, next + 1;
        ValidBy(hist + input[p..next]);
        i := i + 1;
      }
    }

    /** A stored block: its bytes, if the length and its complement agree (section 3.2.4 of RFC 1951). */
    method StoredBlock(ghost v: nat, ghost hist: seq<byte>) returns (r: Outcome, ghost length: nat)
      requires Valid(hist) && Reads(hold, bits, input, next, v) && bits < 8
      modifies this`have, this`next, this`hold, this`bits, this`left, this`whave, this`written, window
      ensures r != MORE
      ensures r == BLOCK_END ==> var p := old(next);
        && next == p + 4 + length <= |input| && length == input[p] as nat + 256 * input[p + 1] as nat
        && length + (input[p + 2] as nat + 256 * input[p + 3] as nat) == 0xffff
        && Valid(hist + input[p + 4..next]) && bits == 0 && Reads(hold, bits, input, next, Val(input, next))
      ensures r == DATA_ERROR ==> var p := old(next);
        && p + 4 <= |input|
           && input[p] as nat + 256 * input[p + 1] as nat + (input[p + 2] as nat + 256 * input[p + 3] as nat) != 0xffff
    {
      hide *;
      ValidIs(hist);
      var ok, n, fits := StoredLength(v);
      if !ok { return BUF_ERROR, 0; }
      if !fits { return DATA_ERROR, 0; }
      ValidBy(hist);
      ok := CopyStored(n, hist);
      if !ok { return BUF_ERROR, 0; }
      EmptyBuffer(input, next);
      r, length := BLOCK_END, n;
    }
  }

  datatype Outcome = MORE | BLOCK_END | DATA_ERROR | BUF_ERROR
}
