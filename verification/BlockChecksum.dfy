/** What the checksum of a block is: the remainder of its bytes, as one polynomial, by the CRC-32 polynomial. */
module BlockChecksum {
  import opened Bytes
  import opened Powers
  import opened Xors
  import opened Gf2
  import opened Crc32
  import opened BlockCrc

  // ----- back to front: block checksums have the highest power in the highest bit, Gf2 in the lowest

  /** The highest bit moved down by j; 0 if it is out. */
  function Down(j: nat): bv32 {
    if j == 0 then 0x8000_0000 else Half(Down(j - 1))
  }

  /** The bits of x from the lowest on, put one by one at the places from j down. */
  function Reversed(x: bv32, j: nat): bv32
    decreases 32 - j
  {
    if j >= 32 then 0 else Plus(if Odd(x) then Down(j) else 0, Reversed(Half(x), j + 1))
  }

  /** The bits of x in the opposite order. */
  function Reverse(x: bv32): bv32 {
    Reversed(x, 0)
  }

  lemma {:induction false} DownOut(j: nat)
    ensures j >= 32 ==> Down(j) == 0
    ensures j < 32 ==> (Odd(Down(j)) <==> j == 31)
  {
    if j > 32 {
      DownOut(j - 1);
    } else {
      assert Down(4) == 0x0800_0000 && Down(8) == 0x0080_0000 && Down(12) == 0x0008_0000 && Down(16) == 0x0000_8000;
      assert Down(20) == 0x0000_0800 && Down(24) == 0x0000_0080 && Down(28) == 0x0000_0008 && Down(32) == 0;
    }
  }

  lemma {:induction false} ReversedIs(x: bv32, j: nat)
    ensures j >= 32 ==> Reversed(x, j) == 0
    ensures j < 32 ==> Reversed(x, j) == Plus(if Odd(x) then Down(j) else 0, Reversed(Half(x), j + 1))
  {
    hide Down, Plus, Odd, Half;
  }

  lemma {:induction false} HalfDown(j: nat)
    ensures Half(Down(j)) == Down(j + 1)
  {
    hide Half;
  }

  lemma {:induction false} NoHalf()
    ensures Half(0) == 0 && !Odd(0)
  {
  }

  /** One place down for all bits. */
  lemma {:induction false} HalfReversed(x: bv32, j: nat)
    ensures Half(Reversed(x, j)) == Reversed(x, j + 1)
    decreases 32 - j
  {
    hide *;
    NoHalf();
    ReversedIs(x, j);
    ReversedIs(x, j + 1);
    if j < 32 {
      HalfDown(j);
      DownOut(32);
      ReversedIs(Half(x), j + 1);
      ReversedIs(Half(x), j + 2);
      HalfReversed(Half(x), j + 1);
      HalfPlus(if Odd(x) then Down(j) else 0, Reversed(Half(x), j + 1));
      PlusZero(0);
    }
  }

  lemma {:induction false} ReversedPlus(x: bv32, y: bv32, j: nat)
    ensures Reversed(Plus(x, y), j) == Plus(Reversed(x, j), Reversed(y, j))
    decreases 32 - j
  {
    hide *;
    ReversedIs(x, j);
    ReversedIs(y, j);
    ReversedIs(Plus(x, y), j);
    PlusZero(0);
    if j < 32 {
      HalfPlus(x, y);
      ReversedPlus(Half(x), Half(y), j + 1);
      var a := if Odd(x) then Down(j) else 0;
      var b := if Odd(y) then Down(j) else 0;
      PlusFour(a, Reversed(Half(x), j + 1), b, Reversed(Half(y), j + 1));
      PlusZero(Down(j));
    }
  }

  lemma {:induction false} ReversedZero(j: nat)
    ensures Reversed(0, j) == 0
    decreases 32 - j
  {
    hide *;
    ReversedIs(0, j);
    NoHalf();
    PlusZero(0);
    if j < 32 { ReversedZero(j + 1); }
  }

  /** Where a single bit goes. */
  lemma {:induction false} ReversedDown(i: nat, j: nat)
    requires i < 32
    ensures Reversed(Down(i), j) == Down(j + 31 - i)
    decreases 32 - i
  {
    hide *;
    DownOut(i);
    DownOut(j + 31 - i);
    ReversedIs(Down(i), j);
    HalfDown(i);
    if j < 32 {
      if i == 31 {
        DownOut(32);
        ReversedZero(j + 1);
        PlusZero(Down(j));
      } else {
        ReversedDown(i + 1, j + 1);
        PlusZero(Down(j + 31 - i));
      }
    }
  }

  // ----- a shift step is a multiplication by x

  function Top(r: bv32): bv32 {
    if High(r) then 0x8000_0000 else 0
  }

  lemma {:induction false} NextHalf(r: bv32)
    ensures r == Plus(Half(Next(r)), Top(r)) && !Odd(Next(r))
  {
  }

  lemma {:induction false} TopIs(r: bv32)
    ensures Top(r) == if High(r) then Down(0) else 0
  {
  }

  lemma {:induction false} ReverseNext(r: bv32)
    ensures Reverse(Next(r)) == Half(Reverse(r))
  {
    hide *;
    ReverseIs(r);
    ReverseIs(Next(r));
    HalfReversed(r, 0);
    NextHalf(r);
    ReversedIs(Next(r), 0);
    ReversedPlus(Half(Next(r)), Top(r), 1);
    TopIs(r);
    ReversedDown(0, 1);
    DownOut(32);
    ReversedZero(1);
    PlusZero(Reversed(Half(Next(r)), 1));
  }

  lemma {:induction false} ReverseIs(r: bv32)
    ensures Reverse(r) == Reversed(r, 0)
  {
    hide Reversed;
  }

  /** r without its n lowest bits. */
  function HalfN(r: bv32, n: nat): bv32 {
    if n == 0 then r else HalfN(Half(r), n - 1)
  }

  lemma {:induction false} OddReversed(x: bv32, j: nat)
    requires j <= 31
    ensures Odd(Reversed(x, j)) <==> Odd(HalfN(x, 31 - j))
    decreases 32 - j
  {
    hide Odd, Half, Plus, Down;
    NoHalf();
    DownOut(j);
    HalfPlus(if Odd(x) then Down(j) else 0, Reversed(Half(x), j + 1));
    if j < 31 { OddReversed(Half(x), j + 1); } else { ReversedIs(Half(x), 32); }
  }

  lemma {:induction false} HalfMore(r: bv32, m: nat, n: nat)
    ensures HalfN(r, m + n) == HalfN(HalfN(r, m), n)
    decreases m
  {
    hide Half;
    if m > 0 { HalfMore(Half(r), m - 1, n); }
  }

  function Down8(r: bv32): bv32 {
    r >> 8
  }

  lemma {:induction false} HalfNIs(r: bv32, n: nat)
    ensures HalfN(r, 0) == r && HalfN(r, n + 1) == HalfN(Half(r), n)
  {
    hide Half;
  }

  lemma {:induction false} HalfFour(r: bv32)
    ensures HalfN(r, 4) == Half(Half(Half(Half(r)))) && HalfN(r, 3) == Half(Half(Half(r)))
  {
    hide *;
    HalfNIs(r, 3);
    HalfNIs(r, 2);
    HalfNIs(Half(r), 2);
    HalfNIs(Half(r), 1);
    HalfNIs(Half(Half(r)), 1);
    HalfNIs(Half(Half(r)), 0);
    HalfNIs(Half(Half(Half(r))), 0);
    HalfNIs(Half(Half(Half(Half(r)))), 0);
  }

  lemma {:induction false} HalfEight(r: bv32)
    ensures HalfN(r, 8) == Down8(r)
  {
    HalfFour(r);
    HalfFour(HalfN(r, 4));
    HalfMore(r, 4, 4);
    hide HalfN;
  }

  lemma {:induction false} HighIs(r: bv32)
    ensures High(r) <==> Odd(HalfN(Down8(Down8(Down8(r))), 7))
  {
    var q := Down8(Down8(Down8(r)));
    HalfFour(q);
    HalfFour(HalfN(q, 4));
    HalfMore(q, 4, 3);
    hide HalfN;
  }

  lemma {:induction false} OddReverse(r: bv32)
    ensures Odd(Reverse(r)) <==> High(r)
  {
    hide *;
    ReverseIs(r);
    OddReversed(r, 0);
    HalfMore(r, 8, 23);
    HalfMore(HalfN(r, 8), 8, 15);
    HalfMore(HalfN(HalfN(r, 8), 8), 8, 7);
    HalfEight(r);
    HalfEight(Down8(r));
    HalfEight(Down8(Down8(r)));
    HighIs(r);
  }

  function Step(r: bv32): bv32 {
    if High(r) then Plus(Next(r), 0x04c1_1db7) else Next(r)
  }

  lemma {:induction false} ShiftIs(r: bv32, k: nat)
    ensures Shift(r, k) == if k == 0 then r else Shift(Step(r), k - 1)
  {
  }

  lemma {:induction false} FourBits(x: bv32, j: nat)
    requires j <= 28
    ensures Reversed(x, j) == Plus(if x & 1 == 1 then Down(j) else 0, Plus(if x & 2 == 2 then Down(j + 1) else 0,
      Plus(if x & 4 == 4 then Down(j + 2)
           else 0, Plus(if x & 8 == 8 then Down(j + 3) else 0, Reversed(x >> 4, j + 4)))))
  {
    ReversedIs(x, j);
    ReversedIs(Half(x), j + 1);
    ReversedIs(Half(Half(x)), j + 2);
    ReversedIs(Half(Half(Half(x))), j + 3);
    BitsBelow(x);
    hide Reversed, Plus, Down, Half, Odd;
  }

  lemma {:induction false} BitsBelow(x: bv32)
    ensures Half(Half(Half(Half(x)))) == x >> 4 && (Odd(x) <==> x & 1 == 1) && (Odd(Half(x)) <==> x & 2 == 2)
    ensures (Odd(Half(Half(x))) <==> x & 4 == 4) && (Odd(Half(Half(Half(x)))) <==> x & 8 == 8)
  {
  }

  lemma {:induction false} ReverseGenerator()
    ensures Reverse(0x04c1_1db7) == 0xedb8_8320
  {
    Places();
    hide Down, Reversed;
    ReversedIs(0, 32);
    FourBits(0x0, 28);
    FourBits(0x4, 24);
    FourBits(0x4c, 20);
    FourBits(0x4c1, 16);
    FourBits(0x4c11, 12);
    FourBits(0x4_c11d, 8);
    FourBits(0x4c_11db, 4);
    FourBits(0x4c1_1db7, 0);
  }

  lemma {:induction false} Places()
    ensures Down(0) == 0x80000000 && Down(1) == 0x40000000 && Down(2) == 0x20000000 && Down(3) == 0x10000000
    ensures Down(4) == 0x8000000 && Down(5) == 0x4000000 && Down(6) == 0x2000000 && Down(7) == 0x1000000
    ensures Down(8) == 0x800000 && Down(9) == 0x400000 && Down(10) == 0x200000 && Down(11) == 0x100000
    ensures Down(12) == 0x80000 && Down(13) == 0x40000 && Down(14) == 0x20000 && Down(15) == 0x10000
    ensures Down(16) == 0x8000 && Down(17) == 0x4000 && Down(18) == 0x2000 && Down(19) == 0x1000
    ensures Down(20) == 0x800 && Down(21) == 0x400 && Down(22) == 0x200 && Down(23) == 0x100
    ensures Down(24) == 0x80 && Down(25) == 0x40 && Down(26) == 0x20 && Down(27) == 0x10
    ensures Down(28) == 0x8 && Down(29) == 0x4 && Down(30) == 0x2 && Down(31) == 0x1
  {
    assert Down(8) == 0x80_0000;
    assert Down(16) == 0x8000;
    assert Down(24) == 0x80;
  }

  lemma {:induction false} XIs(b: bv32)
    ensures X(b) == if Odd(b) then Plus(Half(b), 0xedb8_8320) else Half(b)
  {
    hide Odd, Half, Plus;
  }

  lemma {:induction false} StepIs(r: bv32)
    ensures Step(r) == if High(r) then Plus(Next(r), 0x04c1_1db7) else Next(r)
  {
    hide High, Next, Plus;
  }

  lemma {:induction false} ReverseStep(r: bv32)
    ensures Reverse(Step(r)) == X(Reverse(r))
  {
    hide *;
    StepIs(r);
    XIs(Reverse(r));
    OddReverse(r);
    ReverseNext(r);
    ReverseGenerator();
    ReverseIs(Next(r));
    ReverseIs(0x04c1_1db7);
    ReverseIs(Plus(Next(r), 0x04c1_1db7));
    ReversedPlus(Next(r), 0x04c1_1db7, 0);
  }

  lemma {:induction false} ReverseShift(r: bv32, k: nat)
    ensures Reverse(Shift(r, k)) == XN(Reverse(r), k)
    decreases k
  {
    hide *;
    ShiftIs(r, k);
    NoSteps(Reverse(r));
    if k > 0 {
      ReverseStep(r);
      ReverseShift(Step(r), k - 1);
      OneStep(Reverse(r), 0);
      XNAdd(Reverse(r), 1, k - 1);
    }
  }

  // ----- taking a byte in is adding it at the top and shifting eight times

  lemma {:induction false} NextPlus(a: bv32, b: bv32)
    ensures Next(Plus(a, b)) == Plus(Next(a), Next(b))
  {
  }

  lemma {:induction false} HighPlus(a: bv32, b: bv32)
    ensures High(Plus(a, b)) <==> High(a) != High(b)
  {
  }

  lemma {:induction false} StepPlus(a: bv32, b: bv32)
    ensures Step(Plus(a, b)) == Plus(Step(a), Step(b))
  {
    hide *;
    var p: bv32 := 0x04c1_1db7;
    StepIs(a);
    StepIs(b);
    StepIs(Plus(a, b));
    NextPlus(a, b);
    HighPlus(a, b);
    PlusFour(Next(a), p, Next(b), p);
    PlusZero(p);
    PlusZero(Plus(Next(a), Next(b)));
    PlusAssociates(Next(a), Next(b), p);
    PlusAssociates(Next(a), p, Next(b));
    PlusCommutes(p, Next(b));
  }

  lemma {:induction false} ShiftPlus(a: bv32, b: bv32, k: nat)
    ensures Shift(Plus(a, b), k) == Plus(Shift(a, k), Shift(b, k))
    decreases k
  {
    hide *;
    ShiftIs(a, k);
    ShiftIs(b, k);
    ShiftIs(Plus(a, b), k);
    if k > 0 {
      StepPlus(a, b);
      ShiftPlus(Step(a), Step(b), k - 1);
    }
  }

  lemma {:induction false} FourUp(r: bv32)
    requires r & 0xf000_0000 == 0
    ensures Step(Step(Step(Step(r)))) == r << 4
  {
  }

  lemma {:induction false} ShiftFour(r: bv32, k: nat)
    ensures Shift(r, k + 4) == Shift(Step(Step(Step(Step(r)))), k)
  {
    hide *;
    ShiftIs(r, k + 4);
    ShiftIs(Step(r), k + 3);
    ShiftIs(Step(Step(r)), k + 2);
    ShiftIs(Step(Step(Step(r))), k + 1);
  }

  lemma {:induction false} TwoFours(r: bv32)
    requires r & 0xff00_0000 == 0
    ensures r & 0xf000_0000 == 0 && (r << 4) & 0xf000_0000 == 0 && (r << 4) << 4 == Up8(r)
  {
  }

  /** Without a highest byte nothing is shifted out. */
  lemma {:induction false} ShiftUp(r: bv32, k: nat)
    requires r & 0xff00_0000 == 0
    ensures Shift(r, k + 8) == Shift(Up8(r), k)
  {
    hide *;
    TwoFours(r);
    FourUp(r);
    FourUp(r << 4);
    ShiftFour(r, k + 4);
    ShiftFour(r << 4, k);
  }

  function Below(crc: bv32): bv32 {
    crc & 0xff_ffff
  }

  lemma {:induction false} ByteParts(crc: bv32, b: bv32)
    ensures Below(crc) & 0xff00_0000 == 0 && Up8(Below(crc)) == Up8(crc)
    ensures Plus(crc, AtTop(b)) == Plus(Below(crc), AtTop(Plus(HighByte(crc), b)))
  {
  }

  lemma {:induction false} UpdateIs(crc: bv32, ch: byte)
    ensures Update(crc, ch) == Plus(Up8(crc), Shift(AtTop(Plus(HighByte(crc), Byte(ch))), 8))
  {
    hide Plus, Up8, HighByte, AtTop, Byte, Shift;
  }

  /** BZ_UPDATE_CRC with its table is eight shift steps of the byte added at the top. */
  lemma {:induction false} UpdateShifts(crc: bv32, ch: byte)
    ensures Update(crc, ch) == Shift(Plus(crc, AtTop(Byte(ch))), 8)
  {
    hide *;
    UpdateIs(crc, ch);
    ByteParts(crc, Byte(ch));
    ShiftPlus(Below(crc), AtTop(Plus(HighByte(crc), Byte(ch))), 8);
    ShiftUp(Below(crc), 0);
    ShiftIs(Up8(Below(crc)), 0);
  }

  // ----- the message as a polynomial

  /** The number whose binary digits are the bits of the bytes, one after the other. */
  function Number(s: seq<byte>): nat {
    if s == [] then 0 else 256 * Number(s[..|s|-1]) + s[|s|-1]
  }

  /** More digits, n of them. */
  lemma {:induction false} ResidueAppend(v: nat, b: nat, n: nat)
    requires b < Pow2(n)
    ensures Residue(Shl(v, n) + b) == Plus(XN(Residue(v), n), Residue(b))
  {
    hide Residue, Plus, X, XN;
    if n == 0 {
      ResidueZero();
      PlusZero(Residue(v));
      NoSteps(Residue(v));
    } else {
      var w := Shl(v, n - 1) + b / 2;
      assert (Shl(v, n) + b) / 2 == w && (Shl(v, n) + b) % 2 == b % 2;
      ResidueOdd(Shl(v, n) + b);
      ResidueOdd(b);
      ResidueAppend(v, b / 2, n - 1);
      XLinear(XN(Residue(v), n - 1), Residue(b / 2));
      OneStep(Residue(v), n - 1);
      var a: bv32 := if b % 2 == 1 then 0x8000_0000 else 0;
      Exchanged(a, XN(Residue(v), n), X(Residue(b / 2)));
    }
  }

  lemma {:induction false} Exchanged(a: bv32, b: bv32, c: bv32)
    ensures Plus(a, Plus(b, c)) == Plus(b, Plus(a, c))
  {
    hide *;
    PlusAssociates(a, b, c);
    PlusCommutes(a, b);
    PlusAssociates(b, a, c);
  }

  /** No bit is set among the n lowest. */
  predicate EvenN(x: bv32, n: nat) {
    n == 0 || (!Odd(x) && EvenN(Half(x), n - 1))
  }

  lemma {:induction false} EvenPlus(x: bv32, y: bv32, n: nat)
    requires EvenN(x, n) && EvenN(y, n)
    ensures EvenN(Plus(x, y), n)
    decreases n
  {
    hide Odd, Half, Plus;
    HalfPlus(x, y);
    if n > 0 { EvenPlus(Half(x), Half(y), n - 1); }
  }

  lemma {:induction false} EvenZero(n: nat)
    ensures EvenN(0, n)
    decreases n
  {
    hide Odd, Half;
    NoHalf();
    if n > 0 { EvenZero(n - 1); }
  }

  lemma {:induction false} EvenDown(j: nat, n: nat)
    requires j + n <= 31
    ensures EvenN(Down(j), n)
    decreases n
  {
    hide Odd, Half, Down;
    DownOut(j);
    HalfDown(j);
    if n > 0 { EvenDown(j + 1, n - 1); }
  }

  lemma {:induction false} EvenFewer(x: bv32, m: nat, n: nat)
    requires EvenN(x, n) && m <= n
    ensures EvenN(x, m)
    decreases n
  {
    hide Odd, Half;
    if m > 0 { EvenFewer(Half(x), m - 1, n - 1); }
  }

  lemma {:induction false} EvenHalf(x: bv32, n: nat)
    requires EvenN(x, n) && n >= 1
    ensures !Odd(x) && EvenN(Half(x), n - 1)
  {
    hide Odd, Half;
  }

  lemma {:induction false} NothingLeft(x: bv32)
    requires !Odd(x) && Half(x) == 0
    ensures x == 0
  {
  }

  lemma {:induction false} TopAlone(y: bv32)
    requires !High(y)
    ensures Plus(0x8000_0000, y) != 0
  {
  }

  lemma {:induction false} HalfLow(x: bv32)
    ensures !High(Half(x))
  {
  }

  lemma {:induction false} TopDown()
    ensures Down(0) == 0x8000_0000
  {
  }

  /** A polynomial of degree below 32 is its own remainder: only zero has the remainder zero. */
  lemma {:induction false} ResidueSmall(v: nat, n: nat)
    requires v < Pow2(n) && n <= 32
    ensures EvenN(Residue(v), 32 - n) && (Residue(v) == 0 ==> v == 0)
    decreases n
  {
    hide *;
    SmallIs(v, n);
    ResidueZero();
    if n == 0 {
      EvenZero(32);
    } else {
      ResidueSmall(v / 2, n - 1);
      var r := Residue(v / 2);
      EvenHalf(r, 33 - n);
      XIs(r);
      ResidueOdd(v);
      TopDown();
      EvenDown(0, 31);
      EvenFewer(Down(0), 32 - n, 31);
      EvenZero(32 - n);
      EvenPlus(if v % 2 == 1 then 0x8000_0000 else 0, Half(r), 32 - n);
      PlusZero(Half(r));
      HalfLow(r);
      if v % 2 == 1 { TopAlone(Half(r)); } else if Half(r) == 0 { NothingLeft(r); }
    }
  }

  lemma {:induction false} SmallIs(v: nat, n: nat)
    requires v < Pow2(n)
    ensures (n == 0 ==> v == 0) && (n > 0 ==> v / 2 < Pow2(n - 1))
  {
  }

  /** A byte of the message as a polynomial. */
  function Digits(v: nat): bv32
    requires v < 256
  {
    (v as bv8) as bv32
  }

  lemma {:induction false} DigitsHalf(v: nat)
    requires v < 256
    ensures (Odd(Digits(v)) <==> v % 2 == 1) && Half(Digits(v)) == Digits(v / 2) && Digits(0) == 0
  {
    DigitsShift(v);
    LowestDigit(v);
  }

  lemma {:induction false} LowestDigit(v: nat)
    requires v < 256
    ensures ((v as bv8) as bv32) & 1 == 1 <==> v % 2 == 1
  {
  }

  lemma {:induction false} DigitsShift(v: nat)
    requires v < 256
    ensures ((v as bv8) as bv32) >> 1 == ((v / 2) as bv8) as bv32
  {
  }

  lemma {:induction false} HighNot(v: nat)
    requires v < 256
    ensures !High(Digits(v))
  {
  }

  lemma {:induction false} ReverseDigits(v: nat)
    requires v < 256
    ensures Reverse(Digits(v)) == Residue(v)
  {
    hide *;
    DigitsHalf(v);
    ReverseIs(Digits(v));
    if v == 0 {
      ReversedZero(0);
      ResidueZero();
    } else {
      var w := v / 2;
      ReverseDigits(w);
      HighNot(w);
      OddReverse(Digits(w));
      XIs(Residue(w));
      ResidueOdd(v);
      TopDown();
      ReversedIs(Digits(v), 0);
      HalfReversed(Digits(w), 0);
      ReverseIs(Digits(w));
    }
  }

  lemma {:induction false} DigitsAre(ch: byte)
    ensures Byte(ch) == Digits(ch)
  {
  }

  function Up24(b: bv32): bv32 {
    Up8(Up8(Up8(b)))
  }

  lemma {:induction false} SmallDigits(v: nat)
    requires v < 256
    ensures Digits(v) & 0xff00_0000 == 0 && Up8(Digits(v)) & 0xff00_0000 == 0
      && Up8(Up8(Digits(v))) & 0xff00_0000 == 0
    ensures AtTop(Digits(v)) == Up8(Up8(Up8(Digits(v))))
  {
    SmallByte(v as bv8);
  }

  lemma {:induction false} SmallByte(b: bv8)
    ensures (b as bv32) & 0xff00_0000 == 0 && ((b as bv32) << 8) & 0xff00_0000 == 0
    ensures (((b as bv32) << 8) << 8) & 0xff00_0000 == 0 && (b as bv32) << 24 == (((b as bv32) << 8) << 8) << 8
  {
  }

  lemma {:induction false} ReverseAtTop(ch: byte)
    ensures Reverse(AtTop(Byte(ch))) == XN(Residue(ch), 24)
  {
    hide *;
    var b := Digits(ch);
    DigitsAre(ch);
    SmallDigits(ch);
    ShiftUp(b, 16);
    ShiftUp(Up8(b), 8);
    ShiftUp(Up8(Up8(b)), 0);
    ShiftIs(AtTop(b), 0);
    ReverseShift(b, 24);
    ReverseDigits(ch);
  }

  lemma {:induction false} ReverseUpdate(crc: bv32, ch: byte)
    ensures Reverse(Update(crc, ch)) == Plus(XN(Reverse(crc), 8), XN(Residue(ch), 32))
  {
    hide *;
    var t := AtTop(Byte(ch));
    UpdateShifts(crc, ch);
    ReverseShift(Plus(crc, t), 8);
    ReverseIs(crc);
    ReverseIs(t);
    ReverseIs(Plus(crc, t));
    ReversedPlus(crc, t, 0);
    ReverseAtTop(ch);
    XNLinear(Reverse(crc), Reverse(t), 8);
    XNAdd(Residue(ch), 24, 8);
  }

  lemma {:induction false} NumberAppend(s: seq<byte>, ch: byte)
    ensures Residue(Number(s + [ch])) == Plus(XN(Residue(Number(s)), 8), Residue(ch))
  {
    hide Residue, Plus, X, XN, Shl, Pow2;
    assert (s + [ch])[..|s|] == s;
    ShlByte(Number(s));
    Pow2Values();
    ResidueAppend(Number(s), ch, 8);
  }

  /**
   * The register after the bytes s, back to front: the remainder of s followed by 32 zeros, and of what was in the
   * register followed by as many zeros as s has bits.
   */
  lemma {:induction false} RegisterIsRemainder(crc: bv32, s: seq<byte>)
    ensures Reverse(UpdateAll(crc, s)) == Plus(XN(Reverse(crc), 8 * |s|), XN(Residue(Number(s)), 32))
  {
    hide Reverse, Update, Residue, Plus, X, XN, Number;
    if s == [] {
      NoNumber();
      ResidueZero();
      XNZero(32);
      NoSteps(Reverse(crc));
      PlusZero(Reverse(crc));
    } else {
      var p, ch := s[..|s|-1], s[|s|-1];
      assert p + [ch] == s;
      RegisterIsRemainder(crc, p);
      ReverseUpdate(UpdateAll(crc, p), ch);
      NumberAppend(p, ch);
      var a, b := XN(Reverse(crc), 8 * |p|), XN(Residue(Number(p)), 32);
      XNLinear(a, b, 8);
      XNAdd(Reverse(crc), 8 * |p|, 8);
      XNAdd(Residue(Number(p)), 32, 8);
      XNAdd(Residue(Number(p)), 8, 32);
      XNLinear(XN(Residue(Number(p)), 8), Residue(ch), 32);
      PlusAssociates(XN(Reverse(crc), 8 * |s|), XN(Residue(Number(p)), 40), XN(Residue(ch), 32));
    }
  }

  lemma {:induction false} NoNumber()
    ensures Number([]) == 0
  {
  }

  // ----- what it detects

  lemma {:induction false} SumZero(a: bv32, b: bv32)
    ensures Plus(a, b) == 0 <==> a == b
  {
  }

  /** Multiplying by x loses nothing. */
  lemma {:induction false} XNInjective(a: bv32, b: bv32, n: nat)
    requires XN(a, n) == XN(b, n)
    ensures a == b
  {
    hide *;
    SumZero(XN(a, n), XN(b, n));
    SumZero(a, b);
    XNLinear(a, b, n);
    if Plus(a, b) != 0 { XNNonZero(Plus(a, b), n); }
  }

  lemma {:induction false} SumSame(a: bv32, b: bv32, c: bv32)
    requires Plus(a, b) == Plus(a, c)
    ensures b == c
  {
    hide *;
    PlusTwice(b, a);
    PlusTwice(c, a);
  }

  lemma {:induction false} SumSameLast(a: bv32, b: bv32, c: bv32)
    requires Plus(a, c) == Plus(b, c)
    ensures a == b
  {
    hide *;
    PlusTwice(a, c);
    PlusTwice(b, c);
  }

  lemma {:induction false} NumberBound(s: seq<byte>)
    ensures Number(s) < Pow2(8 * |s|)
  {
    if s != [] {
      NumberBound(s[..|s|-1]);
      Eight(8 * |s| - 8);
    }
  }

  lemma {:induction false} Eight(n: nat)
    ensures Pow2(n + 8) == 256 * Pow2(n)
  {
    ShlOfPow2(n, 8);
    ShlByte(Pow2(n));
  }

  /** Strings of equal length are told apart by their numbers. */
  lemma {:induction false} NumberInjective(s: seq<byte>, t: seq<byte>)
    requires |s| == |t| && Number(s) == Number(t)
    ensures s == t
    decreases |s|
  {
    if s != [] {
      NumberInjective(s[..|s|-1], t[..|t|-1]);
      assert s == s[..|s|-1] + [s[|s|-1]] && t == t[..|t|-1] + [t[|t|-1]];
    }
  }

  lemma {:induction false} ResidueInjective(u: nat, v: nat)
    requires u < Pow2(32) && v < Pow2(32) && Residue(u) == Residue(v)
    ensures u == v
  {
    hide *;
    ResidueXor(u, v);
    SumZero(Residue(u), Residue(v));
    XorBound(u, v, 32);
    ResidueSmall(Xor(u, v), 32);
    XorTwice(u, v);
    XorZero(v);
  }

  /** The same bytes afterwards do not hide a difference. */
  lemma {:induction false} SameEnd(c: bv32, d: bv32, q: seq<byte>)
    requires UpdateAll(c, q) == UpdateAll(d, q)
    ensures Reverse(c) == Reverse(d)
  {
    hide *;
    RegisterIsRemainder(c, q);
    RegisterIsRemainder(d, q);
    SumSameLast(XN(Reverse(c), 8 * |q|), XN(Reverse(d), 8 * |q|), XN(Residue(Number(q)), 32));
    XNInjective(Reverse(c), Reverse(d), 8 * |q|);
  }

  /** The number that is stored is the checksum itself. */
  lemma {:induction false} WordInjective(c: bv32, d: bv32)
    ensures Word(c) == Word(d) ==> c == d
  {
    WordBack(c);
    WordBack(d);
  }

  lemma {:induction false} WordBack(c: bv32)
    ensures Word(c) as bv32 == c
  {
  }

  /** Blocks that differ within four bytes in a row, and nowhere else, have different checksums. */
  lemma {:induction false} BurstTells(crc: bv32, p: seq<byte>, u: seq<byte>, v: seq<byte>, q: seq<byte>)
    requires |u| == |v| <= 4 && u != v
    ensures Word(Final(UpdateAll(crc, p + u + q))) != Word(Final(UpdateAll(crc, p + v + q)))
  {
    hide *;
    FinalInjective(UpdateAll(crc, p + u + q), UpdateAll(crc, p + v + q));
    WordInjective(Final(UpdateAll(crc, p + u + q)), Final(UpdateAll(crc, p + v + q)));
    UpdateAllConcat(crc, p + u, q);
    UpdateAllConcat(crc, p + v, q);
    UpdateAllConcat(crc, p, u);
    UpdateAllConcat(crc, p, v);
    var c := UpdateAll(crc, p);
    if UpdateAll(crc, p + u + q) == UpdateAll(crc, p + v + q) {
      SameEnd(UpdateAll(c, u), UpdateAll(c, v), q);
      RegisterIsRemainder(c, u);
      RegisterIsRemainder(c, v);
      SumSame(XN(Reverse(c), 8 * |u|), XN(Residue(Number(u)), 32), XN(Residue(Number(v)), 32));
      XNInjective(Residue(Number(u)), Residue(Number(v)), 32);
      NumberBound(u);
      NumberBound(v);
      Pow2Monotone(8 * |u|, 32);
      ResidueInjective(Number(u), Number(v));
      NumberInjective(u, v);
    }
  }

  lemma {:induction false} FinalInjective(a: bv32, b: bv32)
    ensures Final(a) == Final(b) ==> a == b
  {
  }

  // ----- the check value

  /** One more byte, by the table entry e. */
  lemma {:induction false} NextValue(crc: bv32, s: seq<byte>, ch: byte, c: bv32, i: bv32, e: bv32)
    requires UpdateAll(crc, s) == c && Plus(HighByte(c), Byte(ch)) == i && Shift(AtTop(i), 8) == e
    ensures UpdateAll(crc, s + [ch]) == Plus(Up8(c), e)
  {
    hide Plus, Up8, HighByte, Byte, AtTop, Shift;
    UpdateAllConcat(crc, s, [ch]);
    assert [ch][..0] == [];
  }

  lemma {:induction false} Value1()
    ensures Plus(HighByte(0xffff_ffff), Byte(0x31)) == 0xce && Shift(AtTop(0xce), 8) == 0x6104_3093
      && Plus(Up8(0xffff_ffff), 0x6104_3093) == 0x9efb_cf93
  {
    assert Shift(AtTop(0xce), 8) == Shift(0xd50c_9b64, 4);
  }

  lemma {:induction false} Value2()
    ensures Plus(HighByte(0x9efb_cf93), Byte(0x32)) == 0xac && Shift(AtTop(0xac), 8) == 0xc423_cd6a
      && Plus(Up8(0x9efb_cf93), 0xc423_cd6a) == 0x3fec_5e6a
  {
    assert Shift(AtTop(0xac), 8) == Shift(0xef8a_d6d6, 4);
  }

  lemma {:induction false} Value3()
    ensures Plus(HighByte(0x3fec_5e6a), Byte(0x33)) == 0xc && Shift(AtTop(0xc), 8) == 0x350c_9b64
      && Plus(Up8(0x3fec_5e6a), 0x350c_9b64) == 0xd952_f164
  {
    assert Shift(AtTop(0xc), 8) == Shift(0xc000_0000, 4);
  }

  lemma {:induction false} Value4()
    ensures Plus(HighByte(0xd952_f164), Byte(0x34)) == 0xed && Shift(AtTop(0xed), 8) == 0xf464_a0aa
      && Plus(Up8(0xd952_f164), 0xf464_a0aa) == 0xa695_c4aa
  {
    assert Shift(AtTop(0xed), 8) == Shift(0xec8e_a00a, 4);
  }

  lemma {:induction false} Value5()
    ensures Plus(HighByte(0xa695_c4aa), Byte(0x35)) == 0x93 && Shift(AtTop(0x93), 8) == 0x285e_1d47
      && Plus(Up8(0xa695_c4aa), 0x285e_1d47) == 0xbd9a_b747
  {
    assert Shift(AtTop(0x93), 8) == Shift(0x12c9_f00f, 4);
  }

  lemma {:induction false} Value6()
    ensures Plus(HighByte(0xbd9a_b747), Byte(0x36)) == 0x8b && Shift(AtTop(0x8b), 8) == 0x4247_2b8f
      && Plus(Up8(0xbd9a_b747), 0x4247_2b8f) == 0xd8f0_6c8f
  {
    assert Shift(AtTop(0x8b), 8) == Shift(0x9608_edb8, 4);
  }

  lemma {:induction false} Value7()
    ensures Plus(HighByte(0xd8f0_6c8f), Byte(0x37)) == 0xef && Shift(AtTop(0xef), 8) == 0xfde6_9bc4
      && Plus(Up8(0xd8f0_6c8f), 0xfde6_9bc4) == 0x0d8a_14c4
  {
    assert Shift(AtTop(0xef), 8) == Shift(0xcc8e_a00a, 4);
  }

  lemma {:induction false} Value8()
    ensures Plus(HighByte(0x0d8a_14c4), Byte(0x38)) == 0x35 && Shift(AtTop(0x35), 8) == 0xc3f7_06fb
      && Plus(Up8(0x0d8a_14c4), 0xc3f7_06fb) == 0x49e3_c2fb
  {
    assert Shift(AtTop(0x35), 8) == Shift(0x5d43_26d9, 4);
  }

  lemma {:induction false} Value9()
    ensures Plus(HighByte(0x49e3_c2fb), Byte(0x39)) == 0x70 && Shift(AtTop(0x70), 8) == 0xe0b4_1de7
      && Plus(Up8(0x49e3_c2fb), 0xe0b4_1de7) == 0x0376_e6e7
  {
    assert Shift(AtTop(0x70), 8) == Shift(0x1e47_5005, 4);
  }

  /** The value that catalogues of checksums give for this one: that of the digits 1 to 9. */
  lemma {:induction false} CheckValue()
    ensures Word(Final(UpdateAll(0xffff_ffff, [0x31, 0x32, 0x33, 0x34, 0x35, 0x36, 0x37, 0x38, 0x39]))) == 0xfc89_1918
  {
    hide UpdateAll, Update, Plus, Up8, HighByte, Byte, AtTop, Shift;
    var c: bv32, s: seq<byte> := 0xffff_ffff, [];
    NothingTaken(c);
    Value1();
    NextValue(c, s, 0x31, 0xffff_ffff, 0xce, 0x6104_3093);
    s := s + [0x31];
    Value2();
    NextValue(c, s, 0x32, 0x9efb_cf93, 0xac, 0xc423_cd6a);
    s := s + [0x32];
    Value3();
    NextValue(c, s, 0x33, 0x3fec_5e6a, 0xc, 0x350c_9b64);
    s := s + [0x33];
    Value4();
    NextValue(c, s, 0x34, 0xd952_f164, 0xed, 0xf464_a0aa);
    s := s + [0x34];
    Value5();
    NextValue(c, s, 0x35, 0xa695_c4aa, 0x93, 0x285e_1d47);
    s := s + [0x35];
    Value6();
    NextValue(c, s, 0x36, 0xbd9a_b747, 0x8b, 0x4247_2b8f);
    s := s + [0x36];
    Value7();
    NextValue(c, s, 0x37, 0xd8f0_6c8f, 0xef, 0xfde6_9bc4);
    s := s + [0x37];
    Value8();
    NextValue(c, s, 0x38, 0x0d8a_14c4, 0x35, 0xc3f7_06fb);
    s := s + [0x38];
    Value9();
    NextValue(c, s, 0x39, 0x49e3_c2fb, 0x70, 0xe0b4_1de7);
    s := s + [0x39];
    assert s == [0x31, 0x32, 0x33, 0x34, 0x35, 0x36, 0x37, 0x38, 0x39];
    LastWord();
  }

  lemma {:induction false} LastWord()
    ensures Word(Final(0x0376_e6e7)) == 0xfc89_1918
  {
  }

  lemma {:induction false} NothingTaken(c: bv32)
    ensures UpdateAll(c, []) == c
  {
  }
}
