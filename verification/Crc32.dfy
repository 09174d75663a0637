/** crc32: bytewise and braided, and the combination of two checksums. */
module Crc32 {
  import opened Powers
  import opened Gf2

  // ----- the checksum by definition

  function Byte32(b: bv8): bv32 {
    b as bv32
  }

  /** The register after n bytes of buf from p on (section 8 of RFC 1952). */
  function Register(c: bv32, buf: seq<bv8>, p: nat, n: nat): bv32
    requires p + n <= |buf|
  {
    if n == 0 then c else XN(Plus(Register(c, buf, p, n - 1), Byte32(buf[p + n - 1])), 8)
  }

  function Inverted(c: bv32): bv32 {
    c ^ 0xffff_ffff
  }

  /** The CRC of a byte string, going on from the CRC of what came before. */
  function Crc(crc: bv32, buf: seq<bv8>): bv32 {
    Inverted(Register(Inverted(crc), buf, 0, |buf|))
  }

  // ----- registers are linear

  lemma {:induction false} RegisterSplit(c: bv32, buf: seq<bv8>, p: nat, m: nat, n: nat)
    requires p + m + n <= |buf|
    ensures Register(c, buf, p, m + n) == Register(Register(c, buf, p, m), buf, p + m, n)
  {
    hide XN, Plus, Byte32;
    if n > 0 { RegisterSplit(c, buf, p, m, n - 1); }
  }

  /** What the register held before contributes its multiple by x^(8n), whatever the bytes. */
  lemma {:induction false} RegisterLinear(c: bv32, d: bv32, buf: seq<bv8>, p: nat, n: nat)
    requires p + n <= |buf|
    ensures Register(Plus(c, d), buf, p, n) == Plus(XN(c, 8 * n), Register(d, buf, p, n))
  {
    hide Plus, Byte32, X;
    if n > 0 {
      var b := Byte32(buf[p + n - 1]);
      var r := Register(d, buf, p, n - 1);
      RegisterLinear(c, d, buf, p, n - 1);
      PlusAssociates(XN(c, 8 * (n - 1)), r, b);
      XNLinear(XN(c, 8 * (n - 1)), Plus(r, b), 8);
      XNAdd(c, 8 * (n - 1), 8);
    }
  }

  lemma {:induction false} RegisterSame(c: bv32, buf: seq<bv8>, buf': seq<bv8>, p: nat, p': nat, n: nat)
    requires p + n <= |buf| && p' + n <= |buf'| && buf[p..p + n] == buf'[p'..p' + n]
    ensures Register(c, buf, p, n) == Register(c, buf', p', n)
  {
    hide XN, Plus, Byte32;
    if n > 0 {
      assert buf[p..p + n - 1] == buf[p..p + n][..n - 1] == buf'[p'..p' + n][..n - 1] == buf'[p'..p' + n - 1];
      RegisterSame(c, buf, buf', p, p', n - 1);
      assert buf[p + n - 1] == buf[p..p + n][n - 1] == buf'[p'..p' + n][n - 1] == buf'[p' + n - 1];
    }
  }

  // ----- multmodp and x2nmodp

  lemma {:induction false} ZeroTimes(b: bv32, k: nat)
    ensures MulBits(0, b, k) == 0
    decreases k
  {
    hide X, Plus;
    if k > 0 {
      ZeroTimes(X(b), k - 1);
      PlusZero(0);
    }
  }

  lemma {:induction false} NotHigh(s: bv32)
    requires s != 0 && Next(s) == 0
    ensures High(s)
  {
  }

  /**
   * The product; a must not be zero, or the loop would not end. Instead of moving a mask down over a, s moves the
   * bits of a up under the highest bit.
   */
  method MultModP(a: bv32, b: bv32) returns (p: bv32)
    requires a != 0
    ensures p == Mul(a, b)
  {
    hide *;
    var s: bv32, c := a, b;
    p := 0;
    ghost var k := 32;
    MulIs(a, b);
    PlusZero(Mul(a, b));
    AllSpent(a);
    while true
      invariant 0 <= k <= 32 && s != 0 && Spent(s, k)
      invariant Plus(p, MulBits(s, c, k)) == Mul(a, b)
      decreases k
    {
      SpentNext(s, if k > 0 then k - 1 else 0);
      MulStep(s, c, k - 1);
      TermIs(s, c);
      PlusAssociates(p, Term(s, c), MulBits(Next(s), X(c), k - 1));
      PlusZero(p);
      PlusZero(MulBits(Next(s), X(c), k - 1));
      if Next(s) == 0 { NotHigh(s); }
      if High(s) {
        p := Plus(p, c);
        if Next(s) == 0 {
          ZeroTimes(X(c), k - 1);
          PlusZero(p);
          break;
        }
      }
      s := Next(s);
      c := X(c);
      k := k - 1;
    }
  }

  lemma {:induction false} TermIs(a: bv32, b: bv32)
    ensures Term(a, b) == if High(a) then b else 0
  {
  }

  /** x2n_table holds x^(2^k). */
  ghost predicate PowerTableOk(x2n: seq<bv32>) {
    |x2n| == 32 && forall k {:trigger x2n[k]} :: 0 <= k < 32 ==> x2n[k] == SquaresOfX()[k]
  }

  lemma {:induction false} PowerTableAt(x2n: seq<bv32>, k: nat)
    requires PowerTableOk(x2n)
    ensures |x2n| == 32 && x2n[k % 32] == XN(ONE, Pow2(k))
  {
    hide SquaresOfX, XN;
    PowerTable(k);
  }

  /** x^(n * 2^k). */
  method X2nModP(x2n: seq<bv32>, n0: nat, k0: nat) returns (p: bv32)
    requires PowerTableOk(x2n)
    ensures p == XN(ONE, Shl(n0, k0)) && p != 0
  {
    hide *;
    var n, k := n0, k0;
    ghost var e: nat := 0;
    p := 0x8000_0000;
    OneIs();
    XNStart();
    while n != 0
      invariant p == XN(ONE, e) && e + Shl(n, k) == Shl(n0, k0)
      decreases n
    {
      PowerTableAt(x2n, k);
      ShlHalves(n, k);
      if n % 2 == 1 {
        XNNonZero(ONE, Pow2(k));
        PowersAdd(Pow2(k), e);
        p := MultModP(x2n[k % 32], p);
        e := Pow2(k) + e;
      }
      n := n / 2;
      k := k + 1;
    }
    ShlZero(k);
    XNNonZero(ONE, e);
  }

  lemma {:induction false} XNStart()
    ensures XN(ONE, 0) == ONE
  {
  }

  lemma {:induction false} ShlHalves(n: nat, k: nat)
    ensures Shl(n, k) == Shl(n / 2, k + 1) + if n % 2 == 1 then Pow2(k) else 0
  {
    ShlShl(n / 2, 1, k);
    ShlAdd(Shl(n / 2, 1), n % 2, k);
    ShlOne(k);
    ShlZero(k);
    assert Shl(n / 2, 1) == 2 * (n / 2);
  }

  // ----- combining

  lemma {:induction false} InvertedIs(c: bv32)
    ensures Inverted(c) == Plus(0xffff_ffff, c) == Plus(c, 0xffff_ffff) && Inverted(Inverted(c)) == c
  {
  }

  /** The checksum of a concatenation, from the checksums of the parts and the length of the second. */
  lemma {:induction false} CrcOfConcatenation(a: seq<bv8>, b: seq<bv8>)
    ensures Crc(0, a + b) == Plus(Mul(XN(ONE, 8 * |b|), Crc(0, a)), Crc(0, b))
  {
    hide XN, Plus, Byte32, Mul, Inverted, Register;
    var f: bv32 := 0xffff_ffff;
    InvertedIs(0);
    PlusZero(f);
    assert Inverted(0) == f;
    var n := 8 * |b|;
    var ra := Register(f, a, 0, |a|);
    var rb := Register(0, b, 0, |b|);
    var s := a + b;
    RegisterSplit(f, s, 0, |a|, |b|);
    RegisterSame(f, s, a, 0, 0, |a|);
    RegisterSame(ra, s, b, |a|, 0, |b|);
    RegisterLinear(ra, 0, b, 0, |b|);
    RegisterLinear(f, 0, b, 0, |b|);
    PlusZero(ra);
    PlusZero(f);
    XNMul(Inverted(ra), n);
    XNLinear(ra, f, n);
    InvertedIs(ra);
    InvertedIs(Plus(XN(ra, n), rb));
    InvertedIs(Plus(XN(f, n), rb));
    assert Crc(0, a) == Inverted(ra) && Crc(0, b) == Inverted(Plus(XN(f, n), rb));
    Cancels(XN(ra, n), XN(f, n), rb, f);
  }

  lemma {:induction false} Cancels(x: bv32, y: bv32, r: bv32, f: bv32)
    ensures Plus(Plus(x, y), Plus(Plus(y, r), f)) == Plus(Plus(x, r), f)
  {
    hide *;
    PlusAssociates(Plus(x, y), Plus(y, r), f);
    PlusAssociates(x, y, Plus(y, r));
    PlusTwice(r, y);
  }

  method Crc32Combine(x2n: seq<bv32>, crc1: bv32, crc2: bv32, len2: nat, ghost a: seq<bv8>, ghost b: seq<bv8>)
    returns (crc: bv32)
    requires PowerTableOk(x2n) && crc1 == Crc(0, a) && crc2 == Crc(0, b) && len2 == |b|
    ensures crc == Crc(0, a + b)
  {
    hide *;
    var op := Crc32CombineGen(x2n, len2);
    crc := Crc32CombineOp(crc1, crc2, op, a, b);
  }

  method Crc32CombineGen(x2n: seq<bv32>, len2: nat) returns (op: bv32)
    requires PowerTableOk(x2n)
    ensures op == XN(ONE, 8 * len2) && op != 0
  {
    hide XN, PowerTableOk;
    assert Shl(len2, 3) == 2 * Shl(len2, 2) && Shl(len2, 2) == 2 * Shl(len2, 1) && Shl(len2, 1) == 2 * Shl(len2, 0);
    op := X2nModP(x2n, len2, 3);
  }

  method Crc32CombineOp(crc1: bv32, crc2: bv32, op: bv32, ghost a: seq<bv8>, ghost b: seq<bv8>) returns (crc: bv32)
    requires crc1 == Crc(0, a) && crc2 == Crc(0, b) && op == XN(ONE, 8 * |b|) && op != 0
    ensures crc == Crc(0, a + b)
  {
    hide *;
    CrcOfConcatenation(a, b);
    var m := MultModP(op, crc1);
    crc := Plus(m, crc2);
  }

  // ----- the tables

  function LowByte(v: bv32): bv32 {
    v & 0xff
  }

  function HighBytes(v: bv32): bv32 {
    v >> 8
  }

  function NoLowByte(v: bv32): bv32 {
    v & 0xffff_ff00
  }

  lemma {:induction false} TwoParts(v: bv32)
    ensures v == Plus(NoLowByte(v), LowByte(v))
  {
  }

  lemma {:induction false} EvenHalves(v: bv32)
    requires v & 0xff == 0
    ensures !Odd(v) && !Odd(Half(v)) && !Odd(Half(Half(v))) && !Odd(Half(Half(Half(v))))
    ensures Half(Half(Half(Half(v)))) & 0xf == 0
  {
  }

  lemma {:induction false} EvenLater(v: bv32)
    requires v & 0xf == 0
    ensures !Odd(v) && !Odd(Half(v)) && !Odd(Half(Half(v))) && !Odd(Half(Half(Half(v))))
  {
  }

  lemma {:induction false} EightHalves(v: bv32)
    ensures Half(Half(Half(Half(Half(Half(Half(Half(v)))))))) == HighBytes(v)
  {
  }

  lemma {:induction false} FourEven(v: bv32, n: nat)
    requires !Odd(v) && !Odd(Half(v)) && !Odd(Half(Half(v))) && !Odd(Half(Half(Half(v))))
    ensures XN(v, 4 + n) == XN(Half(Half(Half(Half(v)))), n)
  {
    hide Odd, Half;
    XNAdd(v, 4, n);
    assert XN(v, 1) == Half(v) && XN(v, 2) == Half(Half(v)) && XN(v, 3) == Half(Half(Half(v)))
      && XN(v, 4) == Half(Half(Half(Half(v))));
  }

  /** Eight zero bits are shifted out without reduction. */
  lemma {:induction false} ShiftOut(v: bv32)
    requires v & 0xff == 0
    ensures XN(v, 8) == HighBytes(v)
  {
    hide *;
    EvenHalves(v);
    var w := Half(Half(Half(Half(v))));
    EvenLater(w);
    FourEven(v, 4);
    FourEven(w, 0);
    NoSteps(Half(Half(Half(Half(w)))));
    EightHalves(v);
  }

  lemma {:induction false} NoSteps(v: bv32)
    ensures XN(v, 0) == v
  {
  }

  /** Eight steps at once: the byte shifted out selects what is added. */
  lemma {:induction false} EightSteps(v: bv32)
    ensures XN(v, 8) == Plus(HighBytes(v), XN(LowByte(v), 8))
  {
    TwoParts(v);
    ShiftOut(NoLowByte(v));
    SameHigh(v);
    hide *;
    XNLinear(NoLowByte(v), LowByte(v), 8);
  }

  lemma {:induction false} SameHigh(v: bv32)
    ensures HighBytes(NoLowByte(v)) == HighBytes(v) && NoLowByte(v) & 0xff == 0
  {
  }

  lemma {:induction false} ByteIn(c: bv32, b: bv8)
    ensures HighBytes(Plus(c, Byte32(b))) == HighBytes(c)
  {
  }

  /** The lowest byte, as an index. */
  function Index(v: bv32): (i: nat) {
    ((v & 0xff) as bv8) as nat
  }

  /** The byte with a given index, as a word. */
  function ByteNo(i: nat): bv32
    requires i < 256
  {
    (i as bv8) as bv32
  }

  lemma {:induction false} BackAgain(b: bv8)
    ensures (b as nat) < 256 && (b as nat) as bv8 == b
  {
  }

  lemma {:induction false} LowBits(v: bv32)
    ensures ((v & 0xff) as bv8) as bv32 == v & 0xff
  {
  }

  lemma {:induction false} IndexIs(v: bv32)
    ensures Index(v) < 256 && ByteNo(Index(v)) == LowByte(v)
  {
    BackAgain((v & 0xff) as bv8);
    LowBits(v);
  }

  lemma {:induction false} ByteNoSmall(i: nat)
    requires i < 256
    ensures ByteNo(i) < 256 && (i >= 1 ==> ByteNo(i) != 0) && ByteNo(0) == 0
  {
  }

  /** crc_table: what each byte becomes in eight steps. */
  ghost predicate CrcTableOk(table: seq<bv32>) {
    |table| == 256 && forall i {:trigger table[i]} :: 0 <= i < 256 ==> table[i] == XN(ByteNo(i), 8)
  }

  lemma {:induction false} TableAt(table: seq<bv32>, v: bv32)
    requires CrcTableOk(table)
    ensures Index(v) < |table| && table[Index(v)] == XN(LowByte(v), 8)
  {
    hide XN, Index, ByteNo, LowByte;
    IndexIs(v);
  }

  /** One byte through the table. */
  lemma {:induction false} TableStep(table: seq<bv32>, c: bv32, b: bv8)
    requires CrcTableOk(table)
    ensures Index(Plus(c, Byte32(b))) < |table|
    ensures Plus(HighBytes(c), table[Index(Plus(c, Byte32(b)))]) == XN(Plus(c, Byte32(b)), 8)
  {
    hide *;
    var v := Plus(c, Byte32(b));
    TableAt(table, v);
    EightSteps(v);
    ByteIn(c, b);
  }

  /** One entry of crc_table. */
  method TableEntry(i: bv32) returns (p: bv32)
    ensures p == XN(i, 8)
  {
    hide *;
    p := i;
    NoSteps(i);
    var j := 0;
    while j < 8
      invariant 0 <= j <= 8 && p == XN(i, j)
    {
      OneStep(i, j);
      HalfIs(p);
      p := if p & 1 == 1 then (p >> 1) ^ 0xedb8_8320 else p >> 1;
      j := j + 1;
    }
  }

  lemma {:induction false} OneStep(v: bv32, n: nat)
    ensures XN(v, n + 1) == X(XN(v, n))
  {
  }

  lemma {:induction false} HalfIs(p: bv32)
    ensures X(p) == if p & 1 == 1 then (p >> 1) ^ 0xedb8_8320 else p >> 1
  {
  }

  method MakeCrcTable() returns (table: seq<bv32>)
    ensures CrcTableOk(table)
  {
    hide XN, ByteNo;
    table := [];
    var i := 0;
    while i < 256
      invariant 0 <= i <= 256 && |table| == i && forall j {:trigger table[j]} :: 0 <= j < i ==>
        table[j] == XN(ByteNo(j), 8)
    {
      var p := TableEntry(ByteNo(i));
      table := table + [p];
      i := i + 1;
    }
  }

  /** x2n_table, each entry the square of the one before. */
  method MakePowerTable() returns (x2n: seq<bv32>)
    ensures PowerTableOk(x2n)
  {
    hide *;
    var p: bv32 := 0x4000_0000;
    x2n := [p];
    TableFirst();
    var n := 1;
    while n < 32
      invariant 1 <= n <= 32 && |x2n| == n && p == SquaresOfX()[n - 1] && p != 0
      invariant forall k {:trigger x2n[k]} :: 0 <= k < n ==> x2n[k] == SquaresOfX()[k]
    {
      SquareTable(n - 1);
      PowerTable(n);
      OneIs();
      XNNonZero(ONE, Pow2(n));
      p := MultModP(p, p);
      x2n := x2n + [p];
      n := n + 1;
    }
    PowersOk(x2n);
  }

  lemma {:induction false} TableFirst()
    ensures SquaresOfX()[0] == 0x4000_0000
  {
  }

  lemma {:induction false} PowersOk(x2n: seq<bv32>)
    requires |x2n| == 32 && forall k {:trigger x2n[k]} :: 0 <= k < 32 ==> x2n[k] == SquaresOfX()[k]
    ensures PowerTableOk(x2n)
  {
    hide SquaresOfX;
  }

  // ----- byte by byte

  lemma {:induction false} RegisterNext(c: bv32, buf: seq<bv8>, p: nat, n: nat)
    requires p + n < |buf|
    ensures Register(c, buf, p, n + 1) == XN(Plus(Register(c, buf, p, n), Byte32(buf[p + n])), 8)
    ensures Register(c, buf, p, 0) == c
  {
    hide XN, Plus, Byte32;
  }

  /** n bytes through the table. */
  method Bytewise(table: seq<bv32>, c: bv32, buf: seq<bv8>, p: nat, n: nat) returns (crc: bv32)
    requires CrcTableOk(table) && p + n <= |buf|
    ensures crc == Register(c, buf, p, n)
  {
    hide *;
    crc := c;
    RegisterNone(c, buf, p);
    var i := 0;
    while i < n
      invariant 0 <= i <= n && crc == Register(c, buf, p, i)
    {
      RegisterNext(c, buf, p, i);
      TableStep(table, crc, buf[p + i]);
      crc := Plus(HighBytes(crc), table[Index(Plus(crc, Byte32(buf[p + i])))]);
      i := i + 1;
    }
  }

  lemma {:induction false} RegisterNone(c: bv32, buf: seq<bv8>, p: nat)
    requires p <= |buf|
    ensures Register(c, buf, p, 0) == c
  {
  }

  // ----- the checksum of a whole from running on

  /** Going on from the checksum of one part with the next gives the checksum of both. */
  lemma {:induction false} CrcGoesOn(crc: bv32, a: seq<bv8>, b: seq<bv8>)
    ensures Crc(Crc(crc, a), b) == Crc(crc, a + b)
  {
    hide Register;
    var c := Inverted(crc);
    InvertedIs(Register(c, a, 0, |a|));
    RegisterSplit(c, a + b, 0, |a|, |b|);
    RegisterSame(c, a, a + b, 0, 0, |a|);
    RegisterSame(Register(c, a, 0, |a|), b, a + b, 0, |a|, |b|);
    assert (a + b)[0..0 + |a|] == a[0..0 + |a|] && (a + b)[|a|..|a| + |b|] == b[0..0 + |b|];
  }

  /** One more byte, e being the table entry i. */
  lemma {:induction false} NextValue(crc: bv32, buf: seq<bv8>, n: nat, c: bv32, i: bv32, e: bv32)
    requires n < |buf| && Register(crc, buf, 0, n) == c && LowByte(Plus(c, Byte32(buf[n]))) == i && XN(i, 8) == e
    ensures Register(crc, buf, 0, n + 1) == Plus(HighBytes(c), e)
  {
    hide *;
    RegisterNext(crc, buf, 0, n);
    EightSteps(Plus(c, Byte32(buf[n])));
    ByteIn(c, buf[n]);
  }

  lemma {:induction false} Value1()
    ensures LowByte(Plus(0xffff_ffff, Byte32(0x31))) == 0xce && XN(0xce, 8) == 0x7cdc_efb7
      && Plus(HighBytes(0xffff_ffff), 0x7cdc_efb7) == 0x7c23_1048
  {
    assert XN(0xce, 4) == 0xa00a_e274;
  }

  lemma {:induction false} Value2()
    ensures LowByte(Plus(0x7c23_1048, Byte32(0x32))) == 0x7a && XN(0x7a, 8) == 0xb0d0_9822
      && Plus(HighBytes(0x7c23_1048), 0xb0d0_9822) == 0xb0ac_bb32
  {
    assert XN(0x7a, 4) == 0xd6d6_a3ef;
  }

  lemma {:induction false} Value3()
    ensures LowByte(Plus(0xb0ac_bb32, Byte32(0x33))) == 0x1 && XN(0x1, 8) == 0x7707_3096
      && Plus(HighBytes(0xb0ac_bb32), 0x7707_3096) == 0x77b7_9c2d
  {
    assert XN(0x1, 4) == 0x1db7_1064;
  }

  lemma {:induction false} Value4()
    ensures LowByte(Plus(0x77b7_9c2d, Byte32(0x34))) == 0x19 && XN(0x19, 8) == 0x646b_a8c0
      && Plus(HighBytes(0x77b7_9c2d), 0x646b_a8c0) == 0x641c_1f5c
  {
    assert XN(0x19, 4) == 0xf00f_9345;
  }

  lemma {:induction false} Value5()
    ensures LowByte(Plus(0x641c_1f5c, Byte32(0x35))) == 0x69 && XN(0x69, 8) == 0x346e_d9fc
      && Plus(HighBytes(0x641c_1f5c), 0x346e_d9fc) == 0x340a_c5e3
  {
    assert XN(0x69, 4) == 0xf00f_9342;
  }

  lemma {:induction false} Value6()
    ensures LowByte(Plus(0x340a_c5e3, Byte32(0x36))) == 0xd5 && XN(0xd5, 8) == 0xf6b9_265b
      && Plus(HighBytes(0x340a_c5e3), 0xf6b9_265b) == 0xf68d_2c9e
  {
    assert XN(0xd5, 4) == 0x6b6b_51f9;
  }

  lemma {:induction false} Value7()
    ensures LowByte(Plus(0xf68d_2c9e, Byte32(0x37))) == 0xa9 && XN(0xa9, 8) == 0xaf0a_1b4c
      && Plus(HighBytes(0xf68d_2c9e), 0xaf0a_1b4c) == 0xaffc_9660
  {
    assert XN(0xa9, 4) == 0xf00f_934e;
  }

  lemma {:induction false} Value8()
    ensures LowByte(Plus(0xaffc_9660, Byte32(0x38))) == 0x58 && XN(0x58, 8) == 0x65b0_d9c6
      && Plus(HighBytes(0xaffc_9660), 0x65b0_d9c6) == 0x651f_2550
  {
    assert XN(0x58, 4) == 0xedb8_8325;
  }

  lemma {:induction false} Value9()
    ensures LowByte(Plus(0x651f_2550, Byte32(0x39))) == 0x69 && XN(0x69, 8) == 0x346e_d9fc
      && Plus(HighBytes(0x651f_2550), 0x346e_d9fc) == 0x340b_c6d9
  {
    assert XN(0x69, 4) == 0xf00f_9342;
  }

  /** The check value of this checksum: that of the digits 1 to 9. */
  lemma {:induction false} CheckValue()
    ensures Crc(0, [0x31, 0x32, 0x33, 0x34, 0x35, 0x36, 0x37, 0x38, 0x39]) == 0xcbf4_3926
  {
    hide Register, XN, Plus, Byte32, LowByte, HighBytes;
    var buf: seq<bv8> := [0x31, 0x32, 0x33, 0x34, 0x35, 0x36, 0x37, 0x38, 0x39];
    RegisterNone(0xffff_ffff, buf, 0);
    Value1();
    NextValue(0xffff_ffff, buf, 0, 0xffff_ffff, 0xce, 0x7cdc_efb7);
    Value2();
    NextValue(0xffff_ffff, buf, 1, 0x7c23_1048, 0x7a, 0xb0d0_9822);
    Value3();
    NextValue(0xffff_ffff, buf, 2, 0xb0ac_bb32, 0x1, 0x7707_3096);
    Value4();
    NextValue(0xffff_ffff, buf, 3, 0x77b7_9c2d, 0x19, 0x646b_a8c0);
    Value5();
    NextValue(0xffff_ffff, buf, 4, 0x641c_1f5c, 0x69, 0x346e_d9fc);
    Value6();
    NextValue(0xffff_ffff, buf, 5, 0x340a_c5e3, 0xd5, 0xf6b9_265b);
    Value7();
    NextValue(0xffff_ffff, buf, 6, 0xf68d_2c9e, 0xa9, 0xaf0a_1b4c);
    Value8();
    NextValue(0xffff_ffff, buf, 7, 0xaffc_9660, 0x58, 0x65b0_d9c6);
    Value9();
    NextValue(0xffff_ffff, buf, 8, 0x651f_2550, 0x69, 0x346e_d9fc);
  }
}
