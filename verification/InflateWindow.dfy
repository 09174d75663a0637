/** Copying a match out of the output and the sliding window behind it. */
module InflateWindow {
  import opened Bytes
  import opened Lz77

  /** Where the window lies: a ring of wsize bytes with the write index wnext, whave of them valid. */
  datatype Ring = Ring(wsize: nat, whave: nat, wnext: nat)

  /** The byte i back from position o of the output, which began at beg; before that, in the window. */
  function Behind(out: seq<byte>, beg: nat, o: nat, win: seq<byte>, r: Ring, i: nat): byte {
    if i <= o - beg then
      if i <= o <= |out| && i >= 1 then out[o - i] else 0
    else
      var x := WindowIndex(beg, o, r, i);
      if 0 <= x < |win| then win[x] else 0
  }

  function WindowIndex(beg: nat, o: nat, r: Ring, i: nat): int {
    var j := i - (o - beg);
    if j <= r.wnext then r.wnext - j else r.wsize + r.wnext - j
  }

  /** The last reach bytes of the history are where Behind looks for them. */
  ghost predicate Held(hist: seq<byte>, out: seq<byte>, beg: nat, o: nat, win: seq<byte>, r: Ring, reach: nat) {
    && reach <= |hist| && beg <= o <= |out|
    && forall i: nat {:trigger Behind(out, beg, o, win, r, i)} :: 1 <= i <= reach ==>
       Behind(out, beg, o, win, r, i) == hist[|hist| - i]
  }

  /** The window is apart from the output, or it is the output buffer itself, used as a ring. */
  ghost predicate Layout(out: array<byte>, beg: nat, window: array<byte>, r: Ring) {
    && r.whave <= r.wsize && r.wnext <= r.wsize
    && if out == window then beg == 0 && r.wnext == 0 && r.wsize == out.Length else r.wsize <= window.Length
  }

  /** How far back the history can be reached from position o. */
  function Span(alias: bool, wrapped: bool, beg: nat, o: nat, r: Ring): nat {
    if alias then (if wrapped then r.wsize else o) else (if o >= beg then o - beg else 0) + r.whave
  }

  /** One more byte. */
  lemma {:induction false} HeldByte(hist: seq<byte>, out: seq<byte>, beg: nat, o: nat, win: seq<byte>, win': seq<byte>,
                                    r: Ring, reach: nat, reach': nat, c: byte)
    requires Held(hist, out, beg, o, win, r, reach) && o < |out| && reach' <= reach + 1
    requires win' == win
      || (win == out && win' == out[o := c] && beg == 0 && r.wnext == 0 && r.wsize == |out| && reach' <= r.wsize)
    ensures Held(hist + [c], out[o := c], beg, o + 1, win', r, reach')
  {
    var out', hist' := out[o := c], hist + [c];
    forall i: nat {:trigger Behind(out', beg, o + 1, win', r, i)} | 1 <= i <= reach'
      ensures Behind(out', beg, o + 1, win', r, i) == hist'[|hist'| - i]
    {
      if i >= 2 {
        assert Behind(out, beg, o, win, r, i - 1) == hist[|hist| - (i - 1)];
      }
    }
  }

  /** n bytes from index `from` of the output or of the window are those dist back from position o. */
  ghost predicate Source(inOut: bool, from: int, n: nat, beg: nat, o: nat, r: Ring, dist: nat) {
    && beg <= o && 1 <= dist
    && if inOut then dist <= o - beg && from == o - dist
       else var j := dist - (o - beg);
         && n <= j && from == WindowIndex(beg, o, r, dist) && (j <= r.wnext || r.wnext == 0 || n <= j - r.wnext)
  }

  lemma {:induction false} SourceNext(inOut: bool, from: int, n: nat, beg: nat, o: nat, r: Ring, dist: nat)
    requires Source(inOut, from, n, beg, o, r, dist) && n > 0
    ensures n > 1 || inOut ==> Source(inOut, from + 1, n - 1, beg, o + 1, r, dist)
  {
  }

  lemma {:induction false} SourceHolds(hist: seq<byte>, out: seq<byte>, beg: nat, o: nat, win: seq<byte>, r: Ring,
                                       reach: nat, inOut: bool, from: int, n: nat, dist: nat)
    requires Held(hist, out, beg, o, win, r, reach) && Source(inOut, from, n, beg, o, r, dist) && n > 0 && dist <= reach
    requires inOut || (r.wnext <= r.wsize <= |win| && dist - (o - beg) <= r.wsize)
    ensures 0 <= from < if inOut then |out| else |win|
    ensures hist[|hist| - dist] == if inOut then out[from] else win[from]
  {
    assert Behind(out, beg, o, win, r, dist) == hist[|hist| - dist];
  }

  lemma {:induction false} CopyBackStep(hist: seq<byte>, dist: nat, k: nat)
    requires 1 <= dist <= |hist|
    ensures |CopyBack(hist, dist, k)| == |hist| + k
    ensures CopyBack(hist, dist, k + 1) == CopyBack(hist, dist, k) + [CopyBack(hist, dist, k)[|hist| + k - dist]]
  {
  }

  /** Copies n bytes of a match, of which k have been copied, from one place. */
  method CopyRun(out: array<byte>, beg: nat, o: nat, window: array<byte>, r: Ring, src: array<byte>, from: int, n: nat,
                 ghost wrapped: bool, ghost hist: seq<byte>, ghost dist: nat, ghost k: nat, ghost inOut: bool)
    requires Layout(out, beg, window, r) && beg <= o && o + n <= out.Length && src == if inOut then out else window
    requires dist <= |hist| && dist <= Span(out == window, wrapped, beg, o, r)
    requires n > 0 ==> Source(inOut, from, n, beg, o, r, dist)
    requires 1 <= dist
      && Held(CopyBack(hist, dist, k), out[..], beg, o, window[..], r, Span(out == window, wrapped, beg, o, r))
    modifies out
    ensures Held(CopyBack(hist, dist, k + n), out[..], beg, o + n, window[..], r,
                 Span(out == window, wrapped, beg, o + n, r))
    ensures (forall x {:trigger out[x]} :: 0 <= x < o ==> out[x] == old(out[x]))
      && (out != window ==> window[..] == old(window[..]))
  {
    hide Held, CopyBack, Behind;
    var i := 0;
    ghost var w := window[..];
    while i < n
      invariant 0 <= i <= n && (i < n ==> Source(inOut, from + i, n - i, beg, o + i, r, dist))
      invariant Held(CopyBack(hist, dist, k + i), out[..], beg, o + i, window[..], r,
                     Span(out == window, wrapped, beg, o + i, r))
      invariant (forall x {:trigger out[x]} :: 0 <= x < o ==> out[x] == old(out[x]))
        && (out != window ==> window[..] == w)
    {
      ghost var s, v, reach := out[..], window[..], Span(out == window, wrapped, beg, o + i, r);
      CopyBackStep(hist, dist, k + i);
      SourceHolds(CopyBack(hist, dist, k + i), s, beg, o + i, v, r, reach, inOut, from + i, n - i, dist);
      SourceNext(inOut, from + i, n - i, beg, o + i, r, dist);
      assert inOut ==> out[from + i] == s[from + i];
      assert !inOut ==> window[from + i] == v[from + i];
      var c := src[from + i];
      out[o + i] := c;
      assert out[..] == s[o + i := c];
      HeldByte(CopyBack(hist, dist, k + i), s, beg, o + i, v, window[..], r, reach,
               Span(out == window, wrapped, beg, o + i + 1, r), c);
      i := i + 1;
    }
  }

  /** The match copy of inflate_fast: from the window, in up to two pieces, then from the output. */
  method CopyMatch(out: array<byte>, beg: nat, o: nat, window: array<byte>, r: Ring, dist: nat, length: nat,
                   ghost wrapped: bool, ghost hist: seq<byte>)
    requires Layout(out, beg, window, r) && beg <= o && o + length <= out.Length && 3 <= length
    requires 1 <= dist <= Span(out == window, wrapped, beg, o, r) && dist <= |hist|
    requires Held(hist, out[..], beg, o, window[..], r, Span(out == window, wrapped, beg, o, r))
    modifies out
    ensures Held(CopyBack(hist, dist, length), out[..], beg, o + length, window[..], r,
                 Span(out == window, wrapped, beg, o + length, r))
    ensures (forall x {:trigger out[x]} :: 0 <= x < o ==> out[x] == old(out[x]))
      && (out != window ==> window[..] == old(window[..]))
  {
    hide Held, CopyBack, Behind, Span;
    SpanGrows(out == window, wrapped, beg, o, r);
    NothingCopied(hist, dist);
    var len, put := length, o;
    var op: int := put - beg;
    var from: int := 0;
    if dist > op {
      op := dist - op;
      if r.wnext == 0 {
        from := r.wsize - op;
        if op < len {
          CopyRun(out, beg, put, window, r, window, from, op, wrapped, hist, dist, 0, false);
          len, put := len - op, put + op;
          CopyRun(out, beg, put, window, r, out, put - dist, len, wrapped, hist, dist, length - len, true);
        } else {
          CopyRun(out, beg, put, window, r, window, from, len, wrapped, hist, dist, 0, false);
        }
      } else if r.wnext < op {
        from := r.wsize + r.wnext - op;
        op := op - r.wnext;
        if op < len {
          CopyRun(out, beg, put, window, r, window, from, op, wrapped, hist, dist, 0, false);
          len, put := len - op, put + op;
          from := 0;
          if r.wnext < len {
            op := r.wnext;
            CopyRun(out, beg, put, window, r, window, from, op, wrapped, hist, dist, length - len, false);
            len, put := len - op, put + op;
            CopyRun(out, beg, put, window, r, out, put - dist, len, wrapped, hist, dist, length - len, true);
          } else {
            CopyRun(out, beg, put, window, r, window, from, len, wrapped, hist, dist, length - len, false);
          }
        } else {
          CopyRun(out, beg, put, window, r, window, from, len, wrapped, hist, dist, 0, false);
        }
      } else {
        from := r.wnext - op;
        if op < len {
          CopyRun(out, beg, put, window, r, window, from, op, wrapped, hist, dist, 0, false);
          len, put := len - op, put + op;
          CopyRun(out, beg, put, window, r, out, put - dist, len, wrapped, hist, dist, length - len, true);
        } else {
          CopyRun(out, beg, put, window, r, window, from, len, wrapped, hist, dist, 0, false);
        }
      }
    } else {
      CopyRun(out, beg, put, window, r, out, put - dist, len, wrapped, hist, dist, 0, true);
    }
  }

  lemma {:induction false} SpanGrows(alias: bool, wrapped: bool, beg: nat, o: nat, r: Ring)
    requires beg <= o
    ensures forall x: nat {:trigger Span(alias, wrapped, beg, x, r)} :: o <= x ==>
      Span(alias, wrapped, beg, o, r) <= Span(alias, wrapped, beg, x, r)
  {
  }

  lemma {:induction false} NothingCopied(hist: seq<byte>, dist: nat)
    ensures CopyBack(hist, dist, 0) == hist
  {
  }
}
