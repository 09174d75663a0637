/** The bit stream: bsW and bsFinishWrite on the writing side, GET_BITS on the reading side. */
module BitStream {
  import opened Bytes
  import opened Powers

  type bit = bool

  /** The low n bits of v, most significant first. */
  function BitsOf(v: nat, n: nat): (s: seq<bit>)
    ensures |s| == n
  {
    if n == 0 then [] else BitsOf(v / 2, n - 1) + [v % 2 == 1]
  }

  function Value(s: seq<bit>): (v: nat)
    ensures v < Pow2(|s|)
  {
    if s == [] then 0 else 2 * Value(s[..|s|-1]) + if s[|s|-1] then 1 else 0
  }

  function ByteBits(z: seq<byte>): (s: seq<bit>)
    ensures |s| == 8 * |z|
  {
    if z == [] then [] else ByteBits(z[..|z|-1]) + BitsOf(z[|z|-1], 8)
  }

  lemma {:induction false} ByteBitsAppend(z: seq<byte>, b: byte)
    ensures ByteBits(z + [b]) == ByteBits(z) + BitsOf(b, 8)
  {
    assert (z + [b])[..|z|] == z;
  }

  lemma {:induction false} ByteBitsConcat(y: seq<byte>, z: seq<byte>)
    ensures ByteBits(y + z) == ByteBits(y) + ByteBits(z)
    decreases |z|
  {
    if z == [] {
      assert y + z == y;
    } else {
      assert (y + z)[..|y + z| - 1] == y + z[..|z|-1];
      ByteBitsConcat(y, z[..|z|-1]);
    }
  }

  /** The bits of a number whose low part is v. */
  lemma {:induction false} BitsConcat(a: nat, m: nat, v: nat, n: nat)
    requires v < Pow2(n)
    ensures BitsOf(Shl(a, n) + v, m + n) == BitsOf(a, m) + BitsOf(v, n)
  {
    if n > 0 {
      BitsConcat(a, m, v / 2, n - 1);
      assert (Shl(a, n) + v) / 2 == Shl(a, n - 1) + v / 2;
      assert BitsOf(a, m) + BitsOf(v, n) == BitsOf(a, m) + BitsOf(v / 2, n - 1) + [v % 2 == 1];
    }
  }

  /** Reading the bits of v in two parts. */
  lemma {:induction false} BitsSplit(v: nat, m: nat, n: nat)
    ensures BitsOf(v, m + n) == BitsOf(Shr(v, n), m) + BitsOf(v, n)
  {
    if n > 0 {
      BitsSplit(v / 2, m, n - 1);
      assert BitsOf(v, m + n) == BitsOf(Shr(v, n), m) + BitsOf(v / 2, n - 1) + [v % 2 == 1];
    }
  }

  lemma {:induction false} BitsOfLow(v: nat, m: nat, n: nat)
    requires n <= m
    ensures BitsOf(Low(v, m), n) == BitsOf(v, n)
  {
    if n > 0 { BitsOfLow(v / 2, m - 1, n - 1); }
  }

  lemma {:induction false} LowIsValue(v: nat, n: nat)
    ensures Value(BitsOf(v, n)) == Low(v, n)
  {
    if n > 0 { LowIsValue(v / 2, n - 1); }
  }

  lemma {:induction false} ValueOfBits(v: nat, n: nat)
    requires v < Pow2(n)
    ensures Value(BitsOf(v, n)) == v
  {
    if n > 0 { ValueOfBits(v / 2, n - 1); }
  }

  lemma {:induction false} BitsOfValue(s: seq<bit>)
    ensures BitsOf(Value(s), |s|) == s
    decreases |s|
  {
    if s != [] { BitsOfValue(s[..|s|-1]); }
  }

  lemma {:induction false} ValueConcat(s: seq<bit>, t: seq<bit>)
    ensures Value(s + t) == Shl(Value(s), |t|) + Value(t)
    decreases |t|
  {
    if t == [] {
      assert s + t == s;
    } else {
      assert (s + t)[..|s + t| - 1] == s + t[..|t|-1];
      ValueConcat(s, t[..|t|-1]);
    }
  }

  lemma {:induction false} Assoc(r: seq<bit>, s: seq<bit>, t: seq<bit>)
    ensures r + (s + t) == r + s + t
  {
  }

  // ----- the writer

  /** buff holds live bits at its top; p is their value. */
  ghost predicate Holds(buff: nat, live: nat, p: nat) {
    live <= 32 && p < Pow2(live) && buff == Shl(p, 32 - live)
  }

  /** The top byte leaves the buffer. */
  lemma {:induction false} ShiftOut(buff: nat, live: nat, p: nat)
    requires Holds(buff, live, p) && live >= 8
    ensures Shr(buff, 24) < 256
    ensures Holds(Low(Shl(buff, 8), 32), live - 8, Low(p, live - 8))
    ensures BitsOf(p, live) == BitsOf(Shr(buff, 24), 8) + BitsOf(Low(p, live - 8), live - 8)
  {
    hide *;
    HoldsIs(buff, live, p);
    Pow2Values();
    ShrShl(p, 32 - live, 24);
    ShrBound(p, 8, live - 8);
    ShlShl(p, 32 - live, 8);
    LowShl(p, 40 - live, 32);
    BitsSplit(p, 8, live - 8);
    BitsOfLow(p, live - 8, live - 8);
    HoldsIs(Low(Shl(buff, 8), 32), live - 8, Low(p, live - 8));
  }

  lemma {:induction false} HoldsIs(buff: nat, live: nat, p: nat)
    ensures Holds(buff, live, p) <==> live <= 32 && p < Pow2(live) && buff == Shl(p, 32 - live)
  {
  }

  /** n more bits enter below those in the buffer. */
  lemma {:induction false} ShiftIn(buff: nat, live: nat, p: nat, n: nat, v: nat)
    requires Holds(buff, live, p) && live + n <= 32 && v < Pow2(n)
    ensures Holds(buff + Shl(v, 32 - live - n), live + n, Shl(p, n) + v)
    ensures BitsOf(Shl(p, n) + v, live + n) == BitsOf(p, live) + BitsOf(v, n)
  {
    hide *;
    HoldsIs(buff, live, p);
    BitsConcat(p, live, v, n);
    ShlBound(p, live, v, n);
    ShlShl(p, n, 32 - live - n);
    ShlAdd(Shl(p, n), v, 32 - live - n);
    HoldsIs(buff + Shl(v, 32 - live - n), live + n, Shl(p, n) + v);
  }

  /** The buffer holds less than a byte; zeros fill it up. */
  lemma {:induction false} ShiftLast(buff: nat, live: nat, p: nat)
    requires Holds(buff, live, p) && 0 < live < 8
    ensures Shr(buff, 24) < 256
    ensures BitsOf(Shr(buff, 24), 8) == BitsOf(p, live) + BitsOf(0, 8 - live)
  {
    hide *;
    HoldsIs(buff, live, p);
    Pow2Values();
    ShrShl(p, 32 - live, 24);
    ShlBound(p, live, 0, 8 - live);
    BitsConcat(p, live, 0, 8 - live);
  }

  class BitWriter {
    var zbits: seq<byte>
    var bsBuff: nat
    var bsLive: int
    ghost var pending: nat

    ghost predicate Valid()
      reads this
    {
      bsLive >= 0 && Holds(bsBuff, bsLive, pending)
    }

    /** All bits written so far. */
    ghost function Stream(): seq<bit>
      reads this
      requires Valid()
    {
      ByteBits(zbits) + BitsOf(pending, bsLive)
    }

    /** BZ2_bsInitWrite. */
    constructor ()
      ensures Valid() && Stream() == [] && zbits == []
    {
      zbits, bsBuff, bsLive, pending := [], 0, 0, 0;
      ShlZero(32);
    }

    /** numZ = 0: the bytes written so far have been taken away. */
    method Clear()
      requires Valid()
      modifies this`zbits
      ensures Valid() && zbits == [] && old(Stream()) == ByteBits(old(zbits)) + Stream()
    {
      hide BitsOf, Holds;
      zbits := [];
      assert ByteBits([]) + BitsOf(pending, bsLive) == BitsOf(pending, bsLive);
    }

    method ShiftByte()
      requires Valid() && bsLive >= 8
      modifies this
      ensures Valid() && Stream() == old(Stream()) && bsLive == old(bsLive) - 8
    {
      hide ByteBits, BitsOf, Low, Shl, Shr, Holds, Pow2, Value;
      ShiftOut(bsBuff, bsLive, pending);
      HoldsIs(bsBuff, bsLive, pending);
      ghost var z, p := zbits, pending;
      var b: byte := Shr(bsBuff, 24);
      ByteBitsAppend(z, b);
      zbits := zbits + [b];
      bsBuff := Low(Shl(bsBuff, 8), 32);
      bsLive := bsLive - 8;
      pending := Low(p, bsLive);
      Assoc(ByteBits(z), BitsOf(b, 8), BitsOf(pending, bsLive));
    }

    /** bsW: after making room, append the n bits of v. */
    method Write(n: nat, v: nat)
      requires Valid() && n <= 25 && v < Pow2(n)
      modifies this
      ensures Valid() && Stream() == old(Stream()) + BitsOf(v, n)
    {
      hide ByteBits, BitsOf, Shl, Holds, Pow2;
      HoldsIs(bsBuff, bsLive, pending);
      while bsLive >= 8
        invariant Valid() && Stream() == old(Stream())
        decreases bsLive
      {
        ShiftByte();
      }
      ShiftIn(bsBuff, bsLive, pending, n, v);
      ghost var p := BitsOf(pending, bsLive);
      bsBuff := bsBuff + Shl(v, 32 - bsLive - n);
      bsLive := bsLive + n;
      pending := Shl(pending, n) + v;
      Assoc(ByteBits(zbits), p, BitsOf(v, n));
    }

    /** The last, partial byte. */
    method FinishByte() returns (ghost pad: nat)
      requires Valid() && 0 < bsLive < 8
      modifies this
      ensures pad < 8 && ByteBits(zbits) == old(Stream()) + BitsOf(0, pad) && bsLive <= 0
    {
      hide ByteBits, BitsOf, Shl, Shr;
      ShiftLast(bsBuff, bsLive, pending);
      pad := 8 - bsLive;
      ghost var z, p := ByteBits(zbits), BitsOf(pending, bsLive);
      var b: byte := Shr(bsBuff, 24);
      ByteBitsAppend(zbits, b);
      zbits := zbits + [b];
      bsBuff := Low(Shl(bsBuff, 8), 32);
      bsLive := bsLive - 8;
      Assoc(z, p, BitsOf(0, pad));
    }

    /** bsFinishWrite: the last byte is filled up with zeros. */
    method Finish() returns (ghost pad: nat)
      requires Valid()
      modifies this
      ensures pad < 8 && ByteBits(zbits) == old(Stream()) + BitsOf(0, pad)
    {
      hide ByteBits, Shl, Shr;
      pad := 0;
      assert bsLive == 0 ==> ByteBits(zbits) + BitsOf(pending, 0) == ByteBits(zbits);
      ghost var w := Stream();
      assert w + BitsOf(0, 0) == w;
      while bsLive > 0
        invariant bsLive > 0 ==> Valid() && Stream() == w && pad == 0
        invariant bsLive <= 0 ==> pad < 8 && ByteBits(zbits) == w + BitsOf(0, pad)
        decreases bsLive
      {
        if bsLive >= 8 {
          ShiftByte();
          assert bsLive == 0 ==> ByteBits(zbits) + BitsOf(pending, 0) == ByteBits(zbits);
        } else {
          pad := FinishByte();
        }
      }
    }
  }

  // ----- the reader

  /** The bit buffer of the decoder; its low bsLive bits are still to be read. */
  class BitReader {
    var bsBuff: nat
    var bsLive: nat

    ghost predicate Valid()
      reads this
    {
      bsLive <= 32
    }

    /** Bits taken from the input but not yet read. */
    ghost function Unread(): seq<bit>
      reads this
    {
      BitsOf(bsBuff, bsLive)
    }

    constructor ()
      ensures Valid() && Unread() == []
    {
      bsBuff, bsLive := 0, 0;
    }

    /** The refill step of GET_BITS. */
    method Refill(b: byte)
      requires Valid() && bsLive < 24
      modifies this
      ensures Valid() && Unread() == old(Unread()) + BitsOf(b, 8) && bsLive == old(bsLive) + 8
    {
      hide BitsOf, Low, Shl, Shr, Pow2;
      LowShl(bsBuff, 8, 32);
      Pow2Values();
      BitsConcat(Low(bsBuff, 24), bsLive, b, 8);
      BitsOfLow(bsBuff, 24, bsLive);
      bsBuff := Low(Shl(bsBuff, 8), 32) + b;
      bsLive := bsLive + 8;
    }

    /** The extraction step of GET_BITS. */
    method Take(n: nat) returns (v: nat)
      requires Valid() && n <= bsLive
      modifies this
      ensures Valid() && v < Pow2(n) && old(Unread()) == BitsOf(v, n) + Unread()
    {
      hide BitsOf, Low, Shl, Shr, Pow2;
      BitsSplit(bsBuff, n, bsLive - n);
      BitsOfLow(Shr(bsBuff, bsLive - n), n, n);
      v := Low(Shr(bsBuff, bsLive - n), n);
      bsLive := bsLive - n;
    }

    /** GET_BITS: reads on in the input at next until n bits are there, or until the input runs out. */
    method GetBits(n: nat, input: seq<byte>, next: nat) returns (ok: bool, v: nat, next': nat)
      requires Valid() && n <= 24 && next <= |input|
      modifies this
      ensures Valid() && next <= next' <= |input|
      ensures ok ==> v < Pow2(n)
      ensures ok ==> old(Unread()) + ByteBits(input[next..]) == BitsOf(v, n) + Unread() + ByteBits(input[next'..])
      ensures !ok ==> next' == |input| && |Unread()| < n
      ensures !ok ==> old(Unread()) + ByteBits(input[next..]) == Unread()
    {
      hide ByteBits, BitsOf;
      next' := next;
      while bsLive < n
        invariant Valid() && next <= next' <= |input|
        invariant old(Unread()) + ByteBits(input[next..]) == Unread() + ByteBits(input[next'..])
        decreases |input| - next'
      {
        if next' == |input| {
          NoBytes(input);
          assert Unread() + [] == Unread();
          return false, 0, next';
        }
        ByteBitsHead(input, next');
        ghost var u := Unread();
        Refill(input[next']);
        next' := next' + 1;
        assert u + (BitsOf(input[next' - 1], 8) + ByteBits(input[next'..]))
          == u + BitsOf(input[next' - 1], 8) + ByteBits(input[next'..]);
      }
      v := Take(n);
      ok := true;
    }
  }

  lemma {:induction false} NoBytes(input: seq<byte>)
    ensures ByteBits(input[|input|..]) == []
  {
  }

  lemma {:induction false} ByteBitsHead(input: seq<byte>, i: nat)
    requires i < |input|
    ensures ByteBits(input[i..]) == BitsOf(input[i], 8) + ByteBits(input[i + 1..])
  {
    assert input[i..] == [input[i]] + input[i + 1..];
    ByteBitsConcat([input[i]], input[i + 1..]);
    ByteBitsAppend([], input[i]);
    assert [] + [input[i]] == [input[i]];
  }
}
