/** Literals, matches and ends of blocks in a stream of bits, and the bit buffer they are read from. */
module InflateElements {
  import opened Bytes
  import opened Powers
  import opened StreamCodes
  import opened CodeTables
  import opened InflateTrees
  import opened Lz77

  // ----- the bit buffer

  /** The bytes from i on as one number, the first the lowest. */
  function Val(input: seq<byte>, i: nat): nat
    decreases |input| - i
  {
    if i >= |input| then 0 else input[i] as nat + 256 * Val(input, i + 1)
  }

  /** hold has the first bits of what is left to read, v; the rest of it is in the input from i on. */
  ghost predicate Reads(hold: nat, bits: nat, input: seq<byte>, i: nat, v: nat) {
    i <= |input| && hold == Low(v, bits) && Shr(v, bits) == Val(input, i)
  }

  lemma {:induction false} ShrShr(v: nat, a: nat, b: nat)
    ensures Shr(Shr(v, a), b) == Shr(v, a + b)
  {
    if a > 0 { ShrShr(v / 2, a - 1, b); }
  }

  lemma {:induction false} LowAdd(v: nat, a: nat, b: nat)
    ensures Low(v, a + b) == Low(v, a) + Shl(Low(Shr(v, a), b), a)
  {
    hide *;
    HighLow(Low(v, a + b), a);
    ShrLow(v, a, b);
    LowLow(v, a, a + b);
  }

  lemma {:induction false} ByteLow(b: byte, x: nat)
    ensures Low(b as nat + 256 * x, 8) == b && Shr(b as nat + 256 * x, 8) == x
  {
    var v := b as nat + 256 * x;
    hide *;
    Pow2Values();
    ShlByte(x);
    LowOfSum(b, x, 8);
  }

  lemma {:induction false} LowOfSum(b: nat, x: nat, n: nat)
    requires b < Pow2(n)
    ensures Low(b + Shl(x, n), n) == b && Shr(b + Shl(x, n), n) == x
  {
    if n > 0 {
      assert (b + Shl(x, n)) / 2 == b / 2 + Shl(x, n - 1) && (b + Shl(x, n)) % 2 == b % 2;
      LowOfSum(b / 2, x, n - 1);
    }
  }

  /** One more byte in the buffer. */
  lemma {:induction false} PullReads(hold: nat, bits: nat, input: seq<byte>, i: nat, v: nat)
    requires Reads(hold, bits, input, i, v) && i < |input|
    ensures Reads(hold + Shl(input[i], bits), bits + 8, input, i + 1, v)
  {
    hide Low, Shl, Shr;
    ByteLow(input[i], Val(input, i + 1));
    LowAdd(v, bits, 8);
    ShrShr(v, bits, 8);
  }

  /** Dropping bits that are there. */
  lemma {:induction false} DropReads(hold: nat, bits: nat, input: seq<byte>, i: nat, v: nat, n: nat)
    requires Reads(hold, bits, input, i, v) && n <= bits
    ensures Reads(Shr(hold, n), bits - n, input, i, Shr(v, n))
  {
    hide Low, Shl, Shr, Val;
    ShrLow(v, n, bits - n);
    ShrShr(v, n, bits - n);
  }

  /** The low bits of the buffer are those of the stream. */
  lemma {:induction false} LowReads(hold: nat, bits: nat, input: seq<byte>, i: nat, v: nat, n: nat)
    requires Reads(hold, bits, input, i, v) && n <= bits
    ensures Low(hold, n) == Low(v, n)
  {
    hide Val;
    LowLow(v, n, bits);
  }

  lemma {:induction false} SkipBytes(input: seq<byte>, i: nat, k: nat)
    ensures Shr(Val(input, i), 8 * k) == Val(input, i + k)
    decreases k
  {
    hide Shr;
    if k == 0 {
      NoShift(Val(input, i));
    } else if i >= |input| {
      ZeroShift(8 * k);
    } else {
      ByteLow(input[i], Val(input, i + 1));
      ShrShr(Val(input, i), 8, 8 * (k - 1));
      SkipBytes(input, i + 1, k - 1);
    }
  }

  lemma {:induction false} NoShift(v: nat)
    ensures Shr(v, 0) == v
  {
  }

  lemma {:induction false} ZeroShift(n: nat)
    ensures Shr(0, n) == 0
  {
    if n > 0 { ZeroShift(n - 1); }
  }

  /** Unused bytes can be given back: u bits used in all since the buffer was started with bits0 bits at i0. */
  lemma {:induction false} GiveBack(hold: nat, bits: nat, input: seq<byte>, i: nat, v: nat, i0: nat, bits0: nat,
                                    v0: nat, u: nat, n: nat)
    requires Reads(hold, bits, input, i, v) && v == Shr(v0, u) && Shr(v0, bits0) == Val(input, i0)
    requires u + bits == bits0 + 8 * (i - i0) && 8 * n <= bits && i0 + n <= i
    ensures Reads(Low(hold, bits - 8 * n), bits - 8 * n, input, i - n, v)
  {
    hide Low, Shr, Val;
    LowLow(v, bits - 8 * n, bits);
    ShrShr(v0, u, bits - 8 * n);
    ShrShr(v0, bits0, 8 * (i - n - i0));
    SkipBytes(input, i0, i - n - i0);
  }

  // ----- tables that decode properly

  /** What the two decoding tables may say. */
  predicate ProperEntry(kind: CodeType, e: Entry) {
    && 1 <= e.bits <= 15
    && match kind
       case CODES => e.op == 0 || e == INVALID
       case LENS => (e.op == 0 && e.val < 256) || (16 <= e.op <= 21 && 3 <= e.val && e.val + Pow2(e.op - 16) <= 259)
         || e.op == 64 || e.op == 96 || e.op == 199 || e.op == 202
       case DISTS => (16 <= e.op <= 29 && 1 <= e.val && e.val + Pow2(e.op - 16) <= 32769) || e.op == 64
  }

  /** Every stream is decoded to a proper entry, which depends on the bits it uses and on no others. */
  ghost predicate Proper(t: seq<Entry>, root: nat, kind: CodeType) {
    && (forall v: nat {:trigger Lookup(t, root, v)} :: ProperEntry(kind, Lookup(t, root, v)))
    && (forall v: nat, w: nat {:trigger Lookup(t, root, v), Lookup(t, root, w)} ::
          Low(v, Lookup(t, root, v).bits) == Low(w, Lookup(t, root, v).bits) ==>
            Lookup(t, root, w) == Lookup(t, root, v))
  }

  lemma {:induction false} SaysProper(kind: CodeType, sym: nat, n: nat)
    requires 1 <= n <= 15
    ensures ProperEntry(kind, Says(kind, sym, n))
  {
    hide Pow2, LengthBase, LengthExtra, DistBase, DistExtra;
    if kind == LENS && sym >= 257 && sym - 257 < 31 {
      LengthProper(sym - 257);
    } else if kind == DISTS && sym < 32 {
      DistanceProper(sym);
    }
  }

  lemma {:induction false} LengthProper(s: nat)
    requires s < 31
    ensures LengthExtra()[s] == 199 || LengthExtra()[s] == 202
      || (16 <= LengthExtra()[s] <= 21 && 3 <= LengthBase()[s] && LengthBase()[s] + Pow2(LengthExtra()[s] - 16) <= 259)
  {
    hide Pow2;
    ExtraSizes();
  }

  lemma {:induction false} DistanceProper(s: nat)
    requires s < 32
    ensures DistExtra()[s] == 64
      || (16 <= DistExtra()[s] <= 29 && 1 <= DistBase()[s] && DistBase()[s] + Pow2(DistExtra()[s] - 16) <= 32769)
  {
    hide *;
    if s < 30 {
      DistancesCovered(s);
      DistanceSizes(s);
      if s < 29 { DistanceSizes(s + 1); }
    } else {
      LastDistances(s);
    }
  }

  lemma {:induction false} DistanceSizes(s: nat)
    requires s < 30
    ensures 16 <= DistExtra()[s] <= 29 && 1 <= DistBase()[s] <= 24577
  {
  }

  lemma {:induction false} LastDistances(s: nat)
    requires 30 <= s < 32
    ensures DistExtra()[s] == 64
  {
  }

  lemma {:induction false} InvalidProper(kind: CodeType)
    requires kind != CODES
    ensures ProperEntry(kind, INVALID)
  {
  }

  /** Tables built by inflate_table are proper. */
  lemma {:induction false} TableProper(t: seq<Entry>, root: nat, kind: CodeType, lens: seq<nat>)
    requires Decodes(t, root, kind, lens) && kind != CODES && forall i :: 0 <= i < |lens| ==> lens[i] <= MAXBITS
    requires Incomplete(lens) ==> Longest(lens, |lens|) <= 1
    ensures Proper(t, root, kind)
  {
    hide Lookup, StartsWith, Says, ProperEntry, Low, Incomplete, Longest;
    InvalidProper(kind);
    forall v: nat ensures ProperEntry(kind, Lookup(t, root, v)) {
      if i: nat :| i < |lens| && StartsWith(lens, i, v) {
        StartsUsed(lens, i, v);
        SaysProper(kind, i, lens[i]);
      }
    }
    forall v: nat, w: nat | Low(v, Lookup(t, root, v).bits) == Low(w, Lookup(t, root, v).bits)
      ensures Lookup(t, root, w) == Lookup(t, root, v)
    {
      SameEntry(t, root, kind, lens, v, w);
    }
  }

  lemma {:induction false} StartsUsed(lens: seq<nat>, i: nat, v: nat)
    requires i < |lens| && StartsWith(lens, i, v)
    ensures lens[i] >= 1
  {
  }

  lemma {:induction false} SameEntry(t: seq<Entry>, root: nat, kind: CodeType, lens: seq<nat>, v: nat, w: nat)
    requires Decodes(t, root, kind, lens) && forall i :: 0 <= i < |lens| ==> lens[i] <= MAXBITS
    requires Incomplete(lens) ==> Longest(lens, |lens|) <= 1
    requires Low(v, Lookup(t, root, v).bits) == Low(w, Lookup(t, root, v).bits)
    ensures Lookup(t, root, w) == Lookup(t, root, v)
  {
    hide Lookup, Says, Low, Incomplete, Longest, SymbolCode, Head;
    if i: nat :| i < |lens| && StartsWith(lens, i, v) {
      SaysNoLink(kind, i, lens[i]);
      HeadLow(v, w, lens[i]);
      assert StartsWith(lens, i, w);
    } else {
      if !Incomplete(lens) {
        var i := SomeSymbol(lens, v);
        assert false;
      }
      InvalidBits();
      forall i | 0 <= i < |lens| ensures !StartsWith(lens, i, w) {
        if StartsWith(lens, i, w) {
          LongestBounds(lens, i);
          StartsUsed(lens, i, w);
          HeadLow(v, w, lens[i]);
          StartsBits(lens, i, v);
        }
      }
    }
  }

  lemma {:induction false} StartsBits(lens: seq<nat>, i: nat, v: nat)
    requires i < |lens| && lens[i] >= 1 && Head(v, lens[i]) == SymbolCode(lens, i)
    ensures StartsWith(lens, i, v)
  {
  }

  lemma {:induction false} LongestBounds(lens: seq<nat>, i: nat)
    requires i < |lens|
    ensures lens[i] <= Longest(lens, |lens|)
  {
  }

  lemma {:induction false} InvalidBits()
    ensures INVALID.bits == 1
  {
  }

  // ----- the elements of a block

  datatype Element = Emit(token: Token) | END_OF_BLOCK | BAD_CODE | BAD_DISTANCE

  /** The tables of a block: for literals and lengths, and for distances. */
  datatype Tables = Tables(lencode: seq<Entry>, lenbits: nat, distcode: seq<Entry>, distbits: nat)

  ghost predicate ProperTables(c: Tables) {
    c.lenbits <= 15 && c.distbits <= 15 && Proper(c.lencode, c.lenbits, LENS) && Proper(c.distcode, c.distbits, DISTS)
  }

  /** Whether op holds a base value for a length or a distance. */
  predicate IsBase(op: nat) {
    op / 16 % 2 == 1
  }

  predicate IsEnd(op: nat) {
    op / 32 % 2 == 1
  }

  /** The element that the stream v starts with, and the number of bits it takes (section 3.2.3 of RFC 1951). */
  function Next(c: Tables, v: nat): (Element, nat) {
    var e := Lookup(c.lencode, c.lenbits, v);
    if e.op == 0 then (Emit(Literal(e.val % 256)), e.bits)
    else if IsBase(e.op) then
      var len := e.val + Low(Shr(v, e.bits), e.op % 16);
      var used := e.bits + e.op % 16;
      var d := Lookup(c.distcode, c.distbits, Shr(v, used));
      if IsBase(d.op) then
        (Emit(Copy(d.val + Low(Shr(v, used + d.bits), d.op % 16), len)), used + d.bits + d.op % 16)
      else (BAD_DISTANCE, used + d.bits)
    else if IsEnd(e.op) then (END_OF_BLOCK, e.bits) else (BAD_CODE, e.bits)
  }

  lemma {:induction false} LowBound(v: nat, n: nat)
    ensures Low(v, n) + 1 <= Pow2(n)
  {
  }

  lemma {:induction false} ProperAt(t: seq<Entry>, root: nat, kind: CodeType, v: nat)
    requires Proper(t, root, kind)
    ensures ProperEntry(kind, Lookup(t, root, v))
  {
    hide ProperEntry, Lookup;
  }

  lemma {:induction false} ProperLength(e: Entry)
    requires ProperEntry(LENS, e)
    ensures 1 <= e.bits <= 15 && (e.op == 0 ==> e.val < 256)
    ensures e.op != 0 && IsBase(e.op) ==>
      e.op % 16 <= 5 && 3 <= e.val && e.val + Pow2(e.op % 16) <= 259 && e.op == 16 + e.op % 16
    ensures !IsLink(e)
  {
    hide Pow2;
  }

  lemma {:induction false} ProperDistance(e: Entry)
    requires ProperEntry(DISTS, e)
    ensures 1 <= e.bits <= 15 && !IsLink(e)
    ensures IsBase(e.op) ==> e.op % 16 <= 13 && 1 <= e.val && e.val + Pow2(e.op % 16) <= 32769 && e.op == 16 + e.op % 16
    ensures !IsBase(e.op) ==> e.op == 64
  {
    hide Pow2;
  }

  /** An element takes at most 48 bits and stands for at most 258 bytes. */
  lemma {:induction false} NextFits(c: Tables, v: nat)
    requires ProperTables(c)
    ensures 1 <= Next(c, v).1 <= 48
    ensures Next(c, v).0.Emit? && Next(c, v).0.token.Copy? ==>
      3 <= Next(c, v).0.token.len <= 258 && 1 <= Next(c, v).0.token.dist <= 32768
  {
    hide Proper, Lookup, Low, Shr, Pow2, ProperEntry, IsBase, IsEnd, IsLink;
    var e := Lookup(c.lencode, c.lenbits, v);
    ProperAt(c.lencode, c.lenbits, LENS, v);
    ProperLength(e);
    LowBound(Shr(v, e.bits), e.op % 16);
    var used := e.bits + e.op % 16;
    ProperAt(c.distcode, c.distbits, DISTS, Shr(v, used));
    var d := Lookup(c.distcode, c.distbits, Shr(v, used));
    ProperDistance(d);
    LowBound(Shr(v, used + d.bits), d.op % 16);
  }

  // ----- runs of elements

  /** A token can be carried out if it does not reach back before the history, nor further than the limit. */
  predicate CanApply(t: Token, hist: seq<byte>, limit: nat) {
    t.Copy? ==> 1 <= t.dist <= |hist| && t.dist <= limit
  }

  /**
   * After n elements, as long as they are literals and matches that can be carried out: what is left, and the
   * history.
   */
  function Run(c: Tables, v: nat, hist: seq<byte>, limit: nat, n: nat): (nat, seq<byte>) {
    if n == 0 then (v, hist) else
      var (v', h) := Run(c, v, hist, limit, n - 1);
      var (e, used) := Next(c, v');
      if e.Emit? && CanApply(e.token, h, limit) then (Shr(v', used), Apply(h, e.token)) else (v', h)
  }

  /** All n elements are literals and matches that can be carried out. */
  ghost predicate Runs(c: Tables, v: nat, hist: seq<byte>, limit: nat, n: nat) {
    forall k: nat {:trigger Run(c, v, hist, limit, k)} :: k < n ==>
      var (v', h) := Run(c, v, hist, limit, k); Next(c, v').0.Emit? && CanApply(Next(c, v').0.token, h, limit)
  }

  lemma {:induction false} RunsStep(c: Tables, v: nat, hist: seq<byte>, limit: nat, n: nat, v': nat, h: seq<byte>)
    requires Runs(c, v, hist, limit, n) && Run(c, v, hist, limit, n) == (v', h)
    requires Next(c, v').0.Emit? && CanApply(Next(c, v').0.token, h, limit)
    ensures Runs(c, v, hist, limit, n + 1)
      && Run(c, v, hist, limit, n + 1) == (Shr(v', Next(c, v').1), Apply(h, Next(c, v').0.token))
  {
    hide Next, CanApply, Shr, Apply;
  }

  lemma {:induction false} RunsNone(c: Tables, v: nat, hist: seq<byte>, limit: nat)
    ensures Runs(c, v, hist, limit, 0) && Run(c, v, hist, limit, 0) == (v, hist)
  {
  }

  /** The history only grows. */
  lemma {:induction false} RunGrows(c: Tables, v: nat, hist: seq<byte>, limit: nat, n: nat)
    ensures |Run(c, v, hist, limit, n).1| >= |hist| && Run(c, v, hist, limit, n).1[..|hist|] == hist
  {
    hide Next, Shr, CanApply;
    if n > 0 { RunGrows(c, v, hist, limit, n - 1); }
  }

  /** A run continues where another ended. */
  lemma {:induction false} RunsOn(c: Tables, v: nat, hist: seq<byte>, limit: nat, m: nat, n: nat, v': nat, h: seq<byte>)
    requires Runs(c, v, hist, limit, m) && Run(c, v, hist, limit, m) == (v', h)
    ensures Run(c, v, hist, limit, m + n) == Run(c, v', h, limit, n)
    ensures Runs(c, v', h, limit, n) ==> Runs(c, v, hist, limit, m + n)
    decreases n
  {
    hide Next, Shr, CanApply, Apply;
    if n > 0 {
      RunsOn(c, v, hist, limit, m, n - 1, v', h);
      if Runs(c, v', h, limit, n) {
        assert Run(c, v', h, limit, n - 1) == Run(c, v, hist, limit, m + n - 1);
      }
    }
  }
}
