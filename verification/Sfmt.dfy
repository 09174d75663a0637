/** SFMT: a linear recurrence over 156 words of 128 bits, run in place and into an array. */
module Sfmt {
  import opened Gf2

  datatype W128 = W128(u0: bv32, u1: bv32, u2: bv32, u3: bv32)

  // ----- the recursion

  function HighHalf(w: W128): bv64 {
    ((w.u3 as bv64) << 32) | (w.u2 as bv64)
  }

  function LowHalf(w: W128): bv64 {
    ((w.u1 as bv64) << 32) | (w.u0 as bv64)
  }

  function Words(h: bv64, l: bv64): W128 {
    W128((l & 0xffff_ffff) as bv32, (l >> 32) as bv32, (h & 0xffff_ffff) as bv32, (h >> 32) as bv32)
  }

  /** lshift128 and rshift128, by one byte. */
  function LShift128(w: W128): W128 {
    Words((HighHalf(w) << 8) | (LowHalf(w) >> 56), LowHalf(w) << 8)
  }

  function RShift128(w: W128): W128 {
    Words(HighHalf(w) >> 8, (LowHalf(w) >> 8) | (HighHalf(w) << 56))
  }

  lemma {:induction false} LeftBits(a: bv32, b: bv32, c: bv32, d: bv32)
    ensures var l, h := ((b as bv64) << 32) | (a as bv64), ((d as bv64) << 32) | (c as bv64);
      && ((l << 8) & 0xffff_ffff) as bv32 == a << 8
      && ((l << 8) >> 32) as bv32 == (b << 8) | (a >> 24)
      && (((h << 8) | (l >> 56)) & 0xffff_ffff) as bv32 == (c << 8) | (b >> 24)
      && (((h << 8) | (l >> 56)) >> 32) as bv32 == (d << 8) | (c >> 24)
  {
  }

  lemma {:induction false} RightBits(a: bv32, b: bv32, c: bv32, d: bv32)
    ensures var l, h := ((b as bv64) << 32) | (a as bv64), ((d as bv64) << 32) | (c as bv64);
      && (((l >> 8) | (h << 56)) & 0xffff_ffff) as bv32 == (a >> 8) | (b << 24)
      && (((l >> 8) | (h << 56)) >> 32) as bv32 == (b >> 8) | (c << 24)
      && ((h >> 8) & 0xffff_ffff) as bv32 == (c >> 8) | (d << 24)
      && ((h >> 8) >> 32) as bv32 == d >> 8
  {
  }

  lemma {:induction false} LShiftIs(a: bv32, b: bv32, c: bv32, d: bv32)
    ensures var l, h := ((b as bv64) << 32) | (a as bv64), ((d as bv64) << 32) | (c as bv64);
      LShift128(W128(a, b, c, d)) == W128(
        ((l << 8) & 0xffff_ffff) as bv32, ((l << 8) >> 32) as bv32,
        (((h << 8) | (l >> 56)) & 0xffff_ffff) as bv32, (((h << 8) | (l >> 56)) >> 32) as bv32)
  {
  }

  lemma {:induction false} RShiftIs(a: bv32, b: bv32, c: bv32, d: bv32)
    ensures var l, h := ((b as bv64) << 32) | (a as bv64), ((d as bv64) << 32) | (c as bv64);
      RShift128(W128(a, b, c, d)) == W128(
        (((l >> 8) | (h << 56)) & 0xffff_ffff) as bv32, (((l >> 8) | (h << 56)) >> 32) as bv32,
        ((h >> 8) & 0xffff_ffff) as bv32, ((h >> 8) >> 32) as bv32)
  {
  }

  /** A shift by one byte, across all four words. */
  lemma {:induction false} ShiftsBytes(a: bv32, b: bv32, c: bv32, d: bv32)
    ensures LShift128(W128(a, b, c, d))
      == W128(a << 8, (b << 8) | (a >> 24), (c << 8) | (b >> 24), (d << 8) | (c >> 24))
    ensures RShift128(W128(a, b, c, d))
      == W128((a >> 8) | (b << 24), (b >> 8) | (c << 24), (c >> 8) | (d << 24), d >> 8)
  {
    hide *;
    LShiftIs(a, b, c, d);
    RShiftIs(a, b, c, d);
    LeftBits(a, b, c, d);
    RightBits(a, b, c, d);
  }

  function Masked(b: bv32, mask: bv32): bv32 {
    (b >> 11) & mask
  }

  function Up18(d: bv32): bv32 {
    d << 18
  }

  /** SFMT_MSK1 to SFMT_MSK4. */
  function Mask(i: nat): bv32 {
    if i == 0 then 0xdfff_ffef else if i == 1 then 0xddfe_cb7f else if i == 2 then 0xbffa_ffff else 0xbfff_fff6
  }

  /** do_recursion. */
  function Recursion(a: W128, b: W128, c: W128, d: W128): W128 {
    var x, y := LShift128(a), RShift128(c);
    W128(Plus(Plus(Plus(Plus(a.u0, x.u0), Masked(b.u0, Mask(0))), y.u0), Up18(d.u0)),
         Plus(Plus(Plus(Plus(a.u1, x.u1), Masked(b.u1, Mask(1))), y.u1), Up18(d.u1)),
         Plus(Plus(Plus(Plus(a.u2, x.u2), Masked(b.u2, Mask(2))), y.u2), Up18(d.u2)),
         Plus(Plus(Plus(Plus(a.u3, x.u3), Masked(b.u3, Mask(3))), y.u3), Up18(d.u3)))
  }

  // ----- the recursion bit by bit

  /** The number with bit k alone, or 0 if there is no bit k. */
  function Place(k: int): bv32
    decreases k
  {
    if k < 0 || k >= 32 then 0 else if k == 0 then 1 else Place(k - 1) << 1
  }

  function And(a: bv32, b: bv32): bv32 {
    a & b
  }

  lemma {:induction false} AndIs(a: bv32, b: bv32)
    ensures And(a, b) == a & b
  {
  }

  /** Bit k of x. */
  predicate Bit(x: bv32, k: int) {
    And(x, Place(k)) != 0
  }

  function WordOf(w: W128, i: nat): bv32 {
    if i == 0 then w.u0 else if i == 1 then w.u1 else if i == 2 then w.u2 else w.u3
  }

  /** Bit k of word i after moving up by eight bits across the words. */
  predicate BitFromBelow(w: W128, i: nat, k: nat) {
    Bit(WordOf(w, i), k - 8) || (i > 0 && Bit(WordOf(w, i - 1), k + 24))
  }

  /** Bit k of word i after moving down by eight bits across the words. */
  predicate BitFromAbove(w: W128, i: nat, k: nat) {
    Bit(WordOf(w, i), k + 8) || (i < 3 && Bit(WordOf(w, i + 1), k - 24))
  }

  /** The places below bit 21 at which the masks of the four words let nothing through. */
  predicate MaskedOut(i: nat, k: nat) {
    match i
    case 0 => k == 4
    case 1 => k == 7 || k == 10 || k == 12 || k == 13 || k == 16
    case 2 => k == 16 || k == 18
    case _ => k == 0 || k == 3
  }

  lemma {:induction false} Places()
    ensures Place(0) == 0x1 && Place(1) == 0x2 && Place(2) == 0x4 && Place(3) == 0x8
    ensures Place(4) == 0x10 && Place(5) == 0x20 && Place(6) == 0x40 && Place(7) == 0x80
    ensures Place(8) == 0x100 && Place(9) == 0x200 && Place(10) == 0x400
    ensures Place(11) == 0x800 && Place(12) == 0x1000 && Place(13) == 0x2000
    ensures Place(14) == 0x4000 && Place(15) == 0x8000 && Place(16) == 0x10000
    ensures Place(17) == 0x20000 && Place(18) == 0x40000 && Place(19) == 0x80000
    ensures Place(20) == 0x100000 && Place(21) == 0x200000 && Place(22) == 0x400000
    ensures Place(23) == 0x800000 && Place(24) == 0x1000000 && Place(25) == 0x2000000
    ensures Place(26) == 0x4000000 && Place(27) == 0x8000000 && Place(28) == 0x10000000
    ensures Place(29) == 0x20000000 && Place(30) == 0x40000000 && Place(31) == 0x80000000
  {
    assert Place(1) == 2 && Place(2) == 4 && Place(3) == 8 && Place(4) == 0x10 && Place(5) == 0x20 && Place(6) == 0x40;
    assert Place(12) == 0x1000;
    assert Place(18) == 0x4_0000;
    assert Place(24) == 0x100_0000;
  }

  lemma {:induction false} NoPlace(k: int)
    requires k < 0 || k >= 32
    ensures Place(k) == 0
  {
  }

  // moving a place instead of the bits

  function Up8(p: bv32): bv32 { p << 8 }
  function Up24(p: bv32): bv32 { p << 24 }
  function Up11(p: bv32): bv32 { p << 11 }
  function Back8(p: bv32): bv32 { p >> 8 }
  function Back24(p: bv32): bv32 { p >> 24 }
  function Back18(p: bv32): bv32 { p >> 18 }

  lemma {:induction false} PlaceMovesFrom0(k: int)
    requires 0 <= k < 8
    ensures Back8(Place(k)) == Place(k - 8) && Up24(Place(k)) == Place(k + 24) && Up8(Place(k)) == Place(k + 8)
    ensures Back24(Place(k)) == Place(k - 24) && Back18(Place(k)) == Place(k - 18)
  {
    Places();
    if k - 8 < 0 || k - 8 >= 32 { NoPlace(k - 8); }
    if k - 24 < 0 || k - 24 >= 32 { NoPlace(k - 24); }
    if k - 18 < 0 || k - 18 >= 32 { NoPlace(k - 18); }
    hide Place;
    assert k == 0 || k == 1 || k == 2 || k == 3 || k == 4 || k == 5 || k == 6 || k == 7;
  }

  lemma {:induction false} PlaceMovesFrom8(k: int)
    requires 8 <= k < 16
    ensures Back8(Place(k)) == Place(k - 8) && Up24(Place(k)) == Place(k + 24) && Up8(Place(k)) == Place(k + 8)
    ensures Back24(Place(k)) == Place(k - 24) && Back18(Place(k)) == Place(k - 18)
  {
    Places();
    if k + 24 < 0 || k + 24 >= 32 { NoPlace(k + 24); }
    if k - 24 < 0 || k - 24 >= 32 { NoPlace(k - 24); }
    if k - 18 < 0 || k - 18 >= 32 { NoPlace(k - 18); }
    hide Place;
    assert k == 8 || k == 9 || k == 10 || k == 11 || k == 12 || k == 13 || k == 14 || k == 15;
  }

  lemma {:induction false} PlaceMovesFrom16(k: int)
    requires 16 <= k < 24
    ensures Back8(Place(k)) == Place(k - 8) && Up24(Place(k)) == Place(k + 24) && Up8(Place(k)) == Place(k + 8)
    ensures Back24(Place(k)) == Place(k - 24) && Back18(Place(k)) == Place(k - 18)
  {
    Places();
    if k + 24 < 0 || k + 24 >= 32 { NoPlace(k + 24); }
    if k - 24 < 0 || k - 24 >= 32 { NoPlace(k - 24); }
    if k - 18 < 0 || k - 18 >= 32 { NoPlace(k - 18); }
    hide Place;
    assert k == 16 || k == 17 || k == 18 || k == 19 || k == 20 || k == 21 || k == 22 || k == 23;
  }

  lemma {:induction false} PlaceMovesFrom24(k: int)
    requires 24 <= k < 32
    ensures Back8(Place(k)) == Place(k - 8) && Up24(Place(k)) == Place(k + 24) && Up8(Place(k)) == Place(k + 8)
    ensures Back24(Place(k)) == Place(k - 24) && Back18(Place(k)) == Place(k - 18)
  {
    Places();
    if k + 24 < 0 || k + 24 >= 32 { NoPlace(k + 24); }
    if k + 8 < 0 || k + 8 >= 32 { NoPlace(k + 8); }
    hide Place;
    assert k == 24 || k == 25 || k == 26 || k == 27 || k == 28 || k == 29 || k == 30 || k == 31;
  }

  lemma {:induction false} PlaceMoves(k: int)
    requires 0 <= k < 32
    ensures Back8(Place(k)) == Place(k - 8) && Up24(Place(k)) == Place(k + 24) && Up8(Place(k)) == Place(k + 8)
    ensures Back24(Place(k)) == Place(k - 24) && Back18(Place(k)) == Place(k - 18)
  {
    hide *;
    if k < 8 { PlaceMovesFrom0(k); } else if k < 16 { PlaceMovesFrom8(k); } else if k < 24 { PlaceMovesFrom16(k); }
      else { PlaceMovesFrom24(k); }
  }

  lemma {:induction false} PlaceMaskedFrom0(k: int)
    requires 0 <= k < 8
    ensures Up11(And(Place(k), Mask(0))) == (if MaskedOut(0, k) then 0 else Place(k + 11))
    ensures Up11(And(Place(k), Mask(1))) == (if MaskedOut(1, k) then 0 else Place(k + 11))
    ensures Up11(And(Place(k), Mask(2))) == (if MaskedOut(2, k) then 0 else Place(k + 11))
    ensures Up11(And(Place(k), Mask(3))) == (if MaskedOut(3, k) then 0 else Place(k + 11))
  {
    Places();
    hide Place;
    assert k == 0 || k == 1 || k == 2 || k == 3 || k == 4 || k == 5 || k == 6 || k == 7;
  }

  lemma {:induction false} PlaceMaskedFrom8(k: int)
    requires 8 <= k < 16
    ensures Up11(And(Place(k), Mask(0))) == (if MaskedOut(0, k) then 0 else Place(k + 11))
    ensures Up11(And(Place(k), Mask(1))) == (if MaskedOut(1, k) then 0 else Place(k + 11))
    ensures Up11(And(Place(k), Mask(2))) == (if MaskedOut(2, k) then 0 else Place(k + 11))
    ensures Up11(And(Place(k), Mask(3))) == (if MaskedOut(3, k) then 0 else Place(k + 11))
  {
    Places();
    hide Place;
    assert k == 8 || k == 9 || k == 10 || k == 11 || k == 12 || k == 13 || k == 14 || k == 15;
  }

  lemma {:induction false} PlaceMaskedFrom16(k: int)
    requires 16 <= k < 24
    ensures Up11(And(Place(k), Mask(0))) == (if MaskedOut(0, k) then 0 else Place(k + 11))
    ensures Up11(And(Place(k), Mask(1))) == (if MaskedOut(1, k) then 0 else Place(k + 11))
    ensures Up11(And(Place(k), Mask(2))) == (if MaskedOut(2, k) then 0 else Place(k + 11))
    ensures Up11(And(Place(k), Mask(3))) == (if MaskedOut(3, k) then 0 else Place(k + 11))
  {
    Places();
    if k + 11 >= 32 { NoPlace(k + 11); }
    hide Place;
    assert k == 16 || k == 17 || k == 18 || k == 19 || k == 20 || k == 21 || k == 22 || k == 23;
  }

  lemma {:induction false} PlaceMaskedFrom24(k: int)
    requires 24 <= k < 32
    ensures Up11(And(Place(k), Mask(0))) == (if MaskedOut(0, k) then 0 else Place(k + 11))
    ensures Up11(And(Place(k), Mask(1))) == (if MaskedOut(1, k) then 0 else Place(k + 11))
    ensures Up11(And(Place(k), Mask(2))) == (if MaskedOut(2, k) then 0 else Place(k + 11))
    ensures Up11(And(Place(k), Mask(3))) == (if MaskedOut(3, k) then 0 else Place(k + 11))
  {
    Places();
    if k + 11 >= 32 { NoPlace(k + 11); }
    hide Place;
    assert k == 24 || k == 25 || k == 26 || k == 27 || k == 28 || k == 29 || k == 30 || k == 31;
  }

  lemma {:induction false} PlaceMasked(k: int)
    requires 0 <= k < 32
    ensures Up11(And(Place(k), Mask(0))) == (if MaskedOut(0, k) then 0 else Place(k + 11))
    ensures Up11(And(Place(k), Mask(1))) == (if MaskedOut(1, k) then 0 else Place(k + 11))
    ensures Up11(And(Place(k), Mask(2))) == (if MaskedOut(2, k) then 0 else Place(k + 11))
    ensures Up11(And(Place(k), Mask(3))) == (if MaskedOut(3, k) then 0 else Place(k + 11))
  {
    hide *;
    if k < 8 { PlaceMaskedFrom0(k); } else if k < 16 { PlaceMaskedFrom8(k); } else if k < 24 { PlaceMaskedFrom16(k); }
      else { PlaceMaskedFrom24(k); }
  }

  lemma {:induction false} OnlyPlace(k: int)
    requires 0 <= k < 32
    ensures Single(Place(k))
  {
    Places();
    hide Place;
    if k < 16 {
      assert k == 0 || k == 1 || k == 2 || k == 3 || k == 4 || k == 5 || k == 6 || k == 7 || k == 8 || k == 9 || k == 10
        || k == 11 || k == 12 || k == 13 || k == 14 || k == 15;
    } else {
      assert k == 16 || k == 17 || k == 18 || k == 19 || k == 20 || k == 21 || k == 22 || k == 23 || k == 24 || k == 25
        || k == 26 || k == 27 || k == 28 || k == 29 || k == 30 || k == 31;
    }
  }

  function ByteUp(a: bv32, below: bv32): bv32 {
    (a << 8) | (below >> 24)
  }

  function ByteDown(c: bv32, above: bv32): bv32 {
    (c >> 8) | (above << 24)
  }

  lemma {:induction false} ShiftedWords(w: W128)
    ensures LShift128(w) == W128(ByteUp(w.u0, 0), ByteUp(w.u1, w.u0), ByteUp(w.u2, w.u1), ByteUp(w.u3, w.u2))
    ensures RShift128(w) == W128(ByteDown(w.u0, w.u1), ByteDown(w.u1, w.u2), ByteDown(w.u2, w.u3), ByteDown(w.u3, 0))
  {
    hide LShift128, RShift128;
    ShiftsBytes(w.u0, w.u1, w.u2, w.u3);
  }

  lemma {:induction false} MovedUp(a: bv32, below: bv32, p: bv32)
    ensures And(ByteUp(a, below), p) != 0 <==> And(a, Back8(p)) != 0 || And(below, Up24(p)) != 0
  {
    hide *;
    ByteUpIs(a, below, p);
    AndIs(ByteUp(a, below), p);
    AndIs(a, Back8(p));
    AndIs(below, Up24(p));
    UpBits(a, below, p);
  }

  lemma {:induction false} ByteUpIs(a: bv32, below: bv32, p: bv32)
    ensures ByteUp(a, below) == (a << 8) | (below >> 24) && Back8(p) == p >> 8 && Up24(p) == p << 24
  {
  }

  lemma {:induction false} UpBits(a: bv32, below: bv32, p: bv32)
    ensures ((a << 8) | (below >> 24)) & p != 0 <==> a & (p >> 8) != 0 || below & (p << 24) != 0
  {
  }

  lemma {:induction false} MovedDown(c: bv32, above: bv32, p: bv32)
    ensures And(ByteDown(c, above), p) != 0 <==> And(c, Up8(p)) != 0 || And(above, Back24(p)) != 0
  {
    hide *;
    ByteDownIs(c, above, p);
    AndIs(ByteDown(c, above), p);
    AndIs(c, Up8(p));
    AndIs(above, Back24(p));
    DownBits(c, above, p);
  }

  lemma {:induction false} ByteDownIs(c: bv32, above: bv32, p: bv32)
    ensures ByteDown(c, above) == (c >> 8) | (above << 24) && Up8(p) == p << 8 && Back24(p) == p >> 24
  {
  }

  lemma {:induction false} DownBits(c: bv32, above: bv32, p: bv32)
    ensures ((c >> 8) | (above << 24)) & p != 0 <==> c & (p << 8) != 0 || above & (p >> 24) != 0
  {
  }

  lemma {:induction false} MovedFar(d: bv32, p: bv32)
    ensures And(Up18(d), p) != 0 <==> And(d, Back18(p)) != 0
  {
  }

  lemma {:induction false} LetThrough(b: bv32, mask: bv32, p: bv32)
    ensures And(Masked(b, mask), p) != 0 <==> And(b, Up11(And(p, mask))) != 0
  {
  }

  lemma {:induction false} AndPlus(x: bv32, y: bv32, p: bv32)
    ensures And(Plus(x, y), p) == Plus(And(x, p), And(y, p))
  {
  }

  lemma {:induction false} AllOrNone(x: bv32, p: bv32)
    requires Single(p)
    ensures p != 0 && (And(x, p) == 0 || And(x, p) == p)
  {
  }

  lemma {:induction false} SumAt(x: bv32, y: bv32, p: bv32)
    requires Single(p)
    ensures And(Plus(x, y), p) != 0 <==> (And(x, p) != 0) != (And(y, p) != 0)
  {
    hide *;
    AndPlus(x, y, p);
    AllOrNone(x, p);
    AllOrNone(y, p);
    PlusZero(p);
    PlusZero(0);
  }

  lemma {:induction false} NothingAt(x: bv32)
    ensures And(x, 0) == 0 && And(0, x) == 0
  {
  }

  lemma {:induction false} BitIs(x: bv32, k: int)
    ensures Bit(x, k) <==> And(x, Place(k)) != 0
  {
    hide And, Place;
  }

  lemma {:induction false} ByteUpBit(a: bv32, below: bv32, k: int)
    requires 0 <= k < 32
    ensures Bit(ByteUp(a, below), k) <==> Bit(a, k - 8) || Bit(below, k + 24)
  {
    hide *;
    PlaceMoves(k);
    MovedUp(a, below, Place(k));
    BitIs(ByteUp(a, below), k);
    BitIs(a, k - 8);
    BitIs(below, k + 24);
  }

  lemma {:induction false} ByteDownBit(c: bv32, above: bv32, k: int)
    requires 0 <= k < 32
    ensures Bit(ByteDown(c, above), k) <==> Bit(c, k + 8) || Bit(above, k - 24)
  {
    hide *;
    PlaceMoves(k);
    MovedDown(c, above, Place(k));
    BitIs(ByteDown(c, above), k);
    BitIs(c, k + 8);
    BitIs(above, k - 24);
  }

  lemma {:induction false} NoBit(k: int)
    ensures !Bit(0, k)
  {
    hide *;
    BitIs(0, k);
    NothingAt(Place(k));
  }

  lemma {:induction false} FarBit(d: bv32, k: int)
    requires 0 <= k < 32
    ensures Bit(Up18(d), k) <==> Bit(d, k - 18)
  {
    hide *;
    PlaceMoves(k);
    MovedFar(d, Place(k));
    BitIs(Up18(d), k);
    BitIs(d, k - 18);
  }

  lemma {:induction false} MaskedBit(b: bv32, i: nat, k: nat)
    requires i < 4 && k < 32
    ensures Bit(Masked(b, Mask(i)), k) <==> !MaskedOut(i, k) && Bit(b, k + 11)
  {
    hide *;
    PlaceMasked(k);
    LetThrough(b, Mask(i), Place(k));
    NothingAt(b);
    BitIs(Masked(b, Mask(i)), k);
    BitIs(b, k + 11);
  }

  lemma {:induction false} PlusBit(x: bv32, y: bv32, k: int)
    requires 0 <= k < 32
    ensures Bit(Plus(x, y), k) <==> Bit(x, k) != Bit(y, k)
  {
    hide *;
    OnlyPlace(k);
    SumAt(x, y, Place(k));
    BitIs(x, k);
    BitIs(y, k);
    BitIs(Plus(x, y), k);
  }

  lemma {:induction false} SumBit(a: bv32, x: bv32, m: bv32, y: bv32, z: bv32, k: int)
    requires 0 <= k < 32
    ensures Bit(Plus(Plus(Plus(Plus(a, x), m), y), z), k) <==>
      ((Bit(a, k) != Bit(x, k)) != Bit(m, k)) != (Bit(y, k) != Bit(z, k))
  {
    hide *;
    PlusBit(a, x, k);
    PlusBit(Plus(a, x), m, k);
    PlusBit(Plus(Plus(a, x), m), y, k);
    PlusBit(Plus(Plus(Plus(a, x), m), y), z, k);
  }

  lemma {:induction false} BitsUp(w: W128, i: nat, k: nat)
    requires i < 4 && k < 32
    ensures Bit(WordOf(LShift128(w), i), k) <==> BitFromBelow(w, i, k)
  {
    hide LShift128, RShift128, ByteUp, ByteDown, Bit;
    ShiftedWords(w);
    ByteUpBit(w.u0, 0, k);
    ByteUpBit(w.u1, w.u0, k);
    ByteUpBit(w.u2, w.u1, k);
    ByteUpBit(w.u3, w.u2, k);
    NoBit(k + 24);
  }

  lemma {:induction false} BitsDown(w: W128, i: nat, k: nat)
    requires i < 4 && k < 32
    ensures Bit(WordOf(RShift128(w), i), k) <==> BitFromAbove(w, i, k)
  {
    hide LShift128, RShift128, ByteUp, ByteDown, Bit;
    ShiftedWords(w);
    ByteDownBit(w.u0, w.u1, k);
    ByteDownBit(w.u1, w.u2, k);
    ByteDownBit(w.u2, w.u3, k);
    ByteDownBit(w.u3, 0, k);
    NoBit(k - 24);
  }

  lemma {:induction false} RecursionWord(a: W128, b: W128, c: W128, d: W128, i: nat)
    requires i < 4
    ensures WordOf(Recursion(a, b, c, d), i) ==
      Plus(Plus(Plus(Plus(WordOf(a, i), WordOf(LShift128(a), i)), Masked(WordOf(b, i), Mask(i))),
                WordOf(RShift128(c), i)), Up18(WordOf(d, i)))
  {
    hide Plus, Masked, Mask, Up18, LShift128, RShift128;
  }

  /**
   * Each bit of the recursion is the sum of at most five bits: that of a, the one of a eight bits down in 128, the one
   * of b eleven bits up unless the mask stops it, the one of c eight bits up in 128, and the one of d eighteen bits
   * down.
   */
  lemma {:induction false} RecursionBits(a: W128, b: W128, c: W128, d: W128, i: nat, k: nat)
    requires i < 4 && k < 32
    ensures Bit(WordOf(Recursion(a, b, c, d), i), k) <==>
      ((Bit(WordOf(a, i), k) != BitFromBelow(a, i, k)) != (!MaskedOut(i, k) && Bit(WordOf(b, i), k + 11)))
        != (BitFromAbove(c, i, k) != Bit(WordOf(d, i), k - 18))
  {
    hide *;
    RecursionWord(a, b, c, d, i);
    BitsUp(a, i, k);
    BitsDown(c, i, k);
    MaskedBit(WordOf(b, i), i, k);
    FarBit(WordOf(d, i), k);
    SumBit(WordOf(a, i), WordOf(LShift128(a), i), Masked(WordOf(b, i), Mask(i)), WordOf(RShift128(c), i),
           Up18(WordOf(d, i)), k);
  }

  // ----- the stream

  /** The infinite sequence that the recurrence makes of a state. */
  function Stream(s: seq<W128>, i: nat): W128
    requires |s| == 156
  {
    if i < 156 then s[i] else Recursion(Stream(s, i - 156), Stream(s, i - 34), Stream(s, i - 2), Stream(s, i - 1))
  }

  lemma {:induction false} StreamStart(s: seq<W128>)
    requires |s| == 156
    ensures forall i {:trigger s[i]} :: 0 <= i < 156 ==> s[i] == Stream(s, i)
  {
  }

  lemma {:induction false} StreamStep(s: seq<W128>, i: nat)
    requires |s| == 156
    ensures Stream(s, i + 156) == Recursion(Stream(s, i), Stream(s, i + 122), Stream(s, i + 154), Stream(s, i + 155))
  {
    hide Recursion;
  }

  /** A state with two bits set, one of them where only the shifted and masked word is looked up. */
  function TwoBits(): (s: seq<W128>)
    ensures |s| == 156
  {
    seq(156, i requires 0 <= i < 156 =>
      if i == 0 then W128(1, 0, 0, 0) else if i == 122 then W128(0x800, 0, 0, 0) else W128(0, 0, 0, 0))
  }

  lemma {:induction false} FirstRecursions()
    ensures var o := W128(0, 0, 0, 0);
      && Recursion(W128(1, 0, 0, 0), W128(0x800, 0, 0, 0), o, o) == W128(0x100, 0, 0, 0)
      && Recursion(o, o, o, W128(0x100, 0, 0, 0)) == W128(0x400_0000, 0, 0, 0)
      && Recursion(o, o, W128(0x100, 0, 0, 0), W128(0x400_0000, 0, 0, 0)) == W128(1, 0, 0, 0)
      && Recursion(o, o, W128(0x400_0000, 0, 0, 0), W128(1, 0, 0, 0)) == o
  {
    hide LShift128, RShift128;
    ShiftsBytes(0, 0, 0, 0);
    ShiftsBytes(1, 0, 0, 0);
    ShiftsBytes(0x100, 0, 0, 0);
    ShiftsBytes(0x400_0000, 0, 0, 0);
  }

  /** The first four words that are made from it. */
  lemma {:induction false} FirstWords()
    ensures Stream(TwoBits(), 156) == W128(0x100, 0, 0, 0) && Stream(TwoBits(), 157) == W128(0x400_0000, 0, 0, 0)
    ensures Stream(TwoBits(), 158) == W128(1, 0, 0, 0) && Stream(TwoBits(), 159) == W128(0, 0, 0, 0)
  {
    hide Recursion, Stream;
    StreamStart(TwoBits());
    StreamStep(TwoBits(), 0);
    StreamStep(TwoBits(), 1);
    StreamStep(TwoBits(), 2);
    StreamStep(TwoBits(), 3);
    FirstRecursions();
    var s := TwoBits();
    assert s[0] == Stream(s, 0) && s[1] == Stream(s, 1) && s[2] == Stream(s, 2) && s[3] == Stream(s, 3);
    assert s[122] == Stream(s, 122) && s[123] == Stream(s, 123) && s[124] == Stream(s, 124) && s[125] == Stream(s, 125);
    assert s[154] == Stream(s, 154) && s[155] == Stream(s, 155);
  }

  /** s is a window on the stream of s0, from position n on. */
  ghost predicate Window(s0: seq<W128>, s: seq<W128>, n: nat) {
    |s0| == |s| == 156 && forall j {:trigger s[j]} :: 0 <= j < 156 ==> s[j] == Stream(s0, n + j)
  }

  /** From a window on, the stream is the same, shifted. */
  lemma {:induction false} StreamFrom(s0: seq<W128>, s: seq<W128>, n: nat, i: nat)
    requires Window(s0, s, n)
    ensures Stream(s, i) == Stream(s0, n + i)
    decreases i
  {
    hide Recursion;
    if i >= 156 {
      StreamFrom(s0, s, n, i - 156);
      StreamFrom(s0, s, n, i - 34);
      StreamFrom(s0, s, n, i - 2);
      StreamFrom(s0, s, n, i - 1);
    }
  }

  /** Windows can be chained: any sequence of calls goes on along one and the same stream. */
  lemma {:induction false} WindowsChain(s0: seq<W128>, s: seq<W128>, t: seq<W128>, m: nat, n: nat)
    requires Window(s0, s, m) && Window(s, t, n)
    ensures Window(s0, t, m + n)
  {
    hide Stream;
    forall j | 0 <= j < 156 ensures t[j] == Stream(s0, m + n + j) {
      StreamFrom(s0, s, m, n + j);
    }
  }

  // ----- in place

  ghost predicate HalfDone(s: seq<W128>, t: seq<W128>, i: int) {
    && |s| == |t| == 156 && 0 <= i <= 156
    && (forall j {:trigger t[j]} :: 0 <= j < i ==> t[j] == Stream(s, 156 + j))
    && (forall j {:trigger t[j]} :: i <= j < 156 ==> t[j] == Stream(s, j))
  }

  lemma {:induction false} HalfDoneStart(s: seq<W128>)
    requires |s| == 156
    ensures HalfDone(s, s, 0)
  {
    hide Recursion;
  }

  lemma {:induction false} HalfDoneStep(s: seq<W128>, t: seq<W128>, i: nat, r1: W128, r2: W128, b: W128)
    requires HalfDone(s, t, i) && i < 156 && |t| == 156
    requires r1 == Stream(s, i + 154) && r2 == Stream(s, i + 155) && b == t[if i < 34 then i + 122 else i - 34]
    ensures Recursion(t[i], b, r1, r2) == Stream(s, 156 + i)
    ensures HalfDone(s, t[i := Recursion(t[i], b, r1, r2)], i + 1)
  {
    hide Recursion, Stream;
    StreamStep(s, i);
  }

  lemma {:induction false} HalfDoneEnd(s: seq<W128>, t: seq<W128>)
    requires HalfDone(s, t, 156)
    ensures Window(s, t, 156)
  {
    hide Stream;
  }

  lemma {:induction false} WindowStart(s: seq<W128>)
    requires |s| == 156
    ensures Window(s, s, 0)
  {
    StreamStart(s);
  }

  // ----- parity

  lemma {:induction false} PlusIs(a: bv32, b: bv32)
    ensures Plus(a, b) == a ^ b
  {
  }

  lemma {:induction false} HalfIs(a: bv32)
    ensures Half(a) == a >> 1
  {
  }

  lemma {:induction false} SingleIs(x: bv32)
    ensures Single(x) <==> x != 0 && x & (x - 1) == 0
  {
  }

  lemma {:induction false} FitsIs(x: bv32, m: bv32)
    ensures Fits(x, m) <==> if m == 0 then x == 0 else x & !(m | (m - 1)) == 0
  {
  }

  /** One bit is set, and no other. */
  predicate Single(x: bv32) {
    x != 0 && x & (x - 1) == 0
  }

  /** Whether an odd number of bits of x is set among the n that go down from the bit m. */
  function OddBits(x: bv32, m: bv32, n: nat): bool
    decreases n
  {
    if m == 0 || n == 0 then false
    else if And(x, m) != 0 then !OddBits(Plus(x, m), Half(m), n - 1)
    else OddBits(x, Half(m), n - 1)
  }

  /** m is shifted out to the right within n steps. */
  predicate GoneRight(m: bv32, n: nat)
    decreases n
  {
    if n == 0 then m == 0 else GoneRight(Half(m), n - 1)
  }

  lemma {:induction false} TopGoneRight()
    ensures GoneRight(0x8000_0000, 32)
  {
    assert GoneRight(0x80, 8);
    assert GoneRight(0x8000, 16);
    assert GoneRight(0x80_0000, 24);
  }

  lemma {:induction false} GoneRightStep(m: bv32, n: nat)
    requires GoneRight(m, n) && m != 0
    ensures n > 0 && GoneRight(Half(m), n - 1)
  {
    hide Half;
  }

  /** No bit of x is above m. */
  predicate Fits(x: bv32, m: bv32) {
    if m == 0 then x == 0 else x & !(m | (m - 1)) == 0
  }

  lemma {:induction false} FitsBelow(x: bv32, m: bv32)
    requires Fits(x, m) && Single(m)
    ensures And(x, m) != 0 ==> Fits(Plus(x, m), Half(m))
    ensures And(x, m) == 0 ==> Fits(x, Half(m))
    ensures Half(m) == 0 || Single(Half(m))
  {
    hide *;
    FitsIs(x, m);
    SingleIs(m);
    HalfIs(m);
    AndIs(x, m);
    PlusIs(x, m);
    FitsIs(Plus(x, m), Half(m));
    FitsIs(x, Half(m));
    SingleIs(Half(m));
    FitsBits(x, m);
    HalfBits(m);
  }

  lemma {:induction false} FitsBits(x: bv32, m: bv32)
    requires m != 0 && m & (m - 1) == 0 && x & !(m | (m - 1)) == 0
    ensures x & m != 0 ==> if m >> 1 == 0 then x ^ m == 0 else (x ^ m) & !((m >> 1) | ((m >> 1) - 1)) == 0
    ensures x & m == 0 ==> if m >> 1 == 0 then x == 0 else x & !((m >> 1) | ((m >> 1) - 1)) == 0
  {
  }

  lemma {:induction false} HalfBits(m: bv32)
    requires m != 0 && m & (m - 1) == 0
    ensures m >> 1 == 0 || ((m >> 1) & ((m >> 1) - 1) == 0)
  {
  }

  lemma {:induction false} FitsTop(x: bv32)
    ensures Fits(x, 0x8000_0000) && Single(0x8000_0000)
  {
  }

  // shifts, and with each one step of the folding loop

  function Down16(x: bv32): bv32 {
    x >> 16
  }

  function Fold16(x: bv32): bv32 {
    Plus(x, Down16(x))
  }

  lemma {:induction false} Down16Plus(a: bv32, b: bv32)
    ensures Down16(Plus(a, b)) == Plus(Down16(a), Down16(b))
  {
  }

  lemma {:induction false} Linear16(x: bv32, y: bv32)
    ensures Fold16(Plus(x, y)) == Plus(Fold16(x), Fold16(y))
  {
    hide Plus, Down16;
    Down16Plus(x, y);
    PlusFour(x, y, Down16(x), Down16(y));
  }

  function Down8(x: bv32): bv32 {
    x >> 8
  }

  function Fold8(x: bv32): bv32 {
    Plus(x, Down8(x))
  }

  lemma {:induction false} Down8Plus(a: bv32, b: bv32)
    ensures Down8(Plus(a, b)) == Plus(Down8(a), Down8(b))
  {
  }

  lemma {:induction false} Linear8(x: bv32, y: bv32)
    ensures Fold8(Plus(x, y)) == Plus(Fold8(x), Fold8(y))
  {
    hide Plus, Down8;
    Down8Plus(x, y);
    PlusFour(x, y, Down8(x), Down8(y));
  }

  function Down4(x: bv32): bv32 {
    x >> 4
  }

  function Fold4(x: bv32): bv32 {
    Plus(x, Down4(x))
  }

  lemma {:induction false} Down4Plus(a: bv32, b: bv32)
    ensures Down4(Plus(a, b)) == Plus(Down4(a), Down4(b))
  {
  }

  lemma {:induction false} Linear4(x: bv32, y: bv32)
    ensures Fold4(Plus(x, y)) == Plus(Fold4(x), Fold4(y))
  {
    hide Plus, Down4;
    Down4Plus(x, y);
    PlusFour(x, y, Down4(x), Down4(y));
  }

  function Down2(x: bv32): bv32 {
    x >> 2
  }

  function Fold2(x: bv32): bv32 {
    Plus(x, Down2(x))
  }

  lemma {:induction false} Down2Plus(a: bv32, b: bv32)
    ensures Down2(Plus(a, b)) == Plus(Down2(a), Down2(b))
  {
  }

  lemma {:induction false} Linear2(x: bv32, y: bv32)
    ensures Fold2(Plus(x, y)) == Plus(Fold2(x), Fold2(y))
  {
    hide Plus, Down2;
    Down2Plus(x, y);
    PlusFour(x, y, Down2(x), Down2(y));
  }

  function Down1(x: bv32): bv32 {
    x >> 1
  }

  function Fold1(x: bv32): bv32 {
    Plus(x, Down1(x))
  }

  lemma {:induction false} Down1Plus(a: bv32, b: bv32)
    ensures Down1(Plus(a, b)) == Plus(Down1(a), Down1(b))
  {
  }

  lemma {:induction false} Linear1(x: bv32, y: bv32)
    ensures Fold1(Plus(x, y)) == Plus(Fold1(x), Fold1(y))
  {
    hide Plus, Down1;
    Down1Plus(x, y);
    PlusFour(x, y, Down1(x), Down1(y));
  }

  /** The folding loop. */
  function Fold(x: bv32): bv32 {
    Fold1(Fold2(Fold4(Fold8(Fold16(x)))))
  }

  lemma {:induction false} FoldLinear(x: bv32, y: bv32)
    ensures Fold(Plus(x, y)) == Plus(Fold(x), Fold(y))
  {
    hide Plus, Fold16, Fold8, Fold4, Fold2, Fold1;
    Linear16(x, y);
    Linear8(Fold16(x), Fold16(y));
    Linear4(Fold8(Fold16(x)), Fold8(Fold16(y)));
    Linear2(Fold4(Fold8(Fold16(x))), Fold4(Fold8(Fold16(y))));
    Linear1(Fold2(Fold4(Fold8(Fold16(x)))), Fold2(Fold4(Fold8(Fold16(y)))));
  }

  lemma {:induction false} FoldSingle(x: bv32)
    requires Single(x)
    ensures Odd(Fold(x))
  {
  }

  lemma {:induction false} FoldZero()
    ensures !Odd(Fold(0))
  {
  }

  /** Folding finds the parity. */
  lemma {:induction false} FoldIsParity(x: bv32, m: bv32, n: nat)
    requires Fits(x, m) && (m == 0 || Single(m)) && GoneRight(m, n)
    ensures Odd(Fold(x)) <==> OddBits(x, m, n)
    decreases n
  {
    hide *;
    if m == 0 {
      NoBitsLeft(x, n);
    } else {
      FitsBelow(x, m);
      GoneRightStep(m, n);
      if And(x, m) != 0 {
        FoldIsParity(Plus(x, m), Half(m), n - 1);
        BitHere(x, m, n);
      } else {
        FoldIsParity(x, Half(m), n - 1);
        NoBitHere(x, m, n);
      }
    }
  }

  lemma {:induction false} NoBitsLeft(x: bv32, n: nat)
    requires Fits(x, 0)
    ensures !Odd(Fold(x)) && !OddBits(x, 0, n)
  {
    hide Fold, Odd;
    FoldZero();
  }

  lemma {:induction false} BitHere(x: bv32, m: bv32, n: nat)
    requires m != 0 && Single(m) && And(x, m) != 0 && n > 0
    requires Odd(Fold(Plus(x, m))) <==> OddBits(Plus(x, m), Half(m), n - 1)
    ensures Odd(Fold(x)) <==> OddBits(x, m, n)
  {
    hide Fold, Odd, And, Plus, Half, Single;
    OneBitMore(x, m);
  }

  lemma {:induction false} NoBitHere(x: bv32, m: bv32, n: nat)
    requires m != 0 && And(x, m) == 0 && n > 0
    requires Odd(Fold(x)) <==> OddBits(x, Half(m), n - 1)
    ensures Odd(Fold(x)) <==> OddBits(x, m, n)
  {
    hide Fold, Odd, And, Plus, Half, Single;
  }

  lemma {:induction false} OneBitMore(x: bv32, m: bv32)
    requires Single(m)
    ensures Odd(Fold(x)) <==> !Odd(Fold(Plus(x, m)))
  {
    hide *;
    FoldLinear(x, m);
    FoldSingle(m);
    HalfPlus(Fold(x), Fold(m));
  }

  /** The bits of the state's first words that the parity mask selects, added up. */
  function Inner(w: W128, parity: W128): bv32 {
    Plus(Plus(And(w.u0, parity.u0), And(w.u1, parity.u1)), Plus(And(w.u2, parity.u2), And(w.u3, parity.u3)))
  }

  /** An odd number of bits under the mask. */
  ghost predicate OddParity(w: W128, parity: W128) {
    OddBits(Inner(w, parity), 0x8000_0000, 32)
  }

  lemma {:induction false} ParityIs(w: W128, parity: W128)
    ensures OddParity(w, parity) <==> Odd(Fold(Inner(w, parity)))
  {
    hide Odd, Fold, Inner, OddBits, GoneRight;
    FitsTop(Inner(w, parity));
    TopGoneRight();
    FoldIsParity(Inner(w, parity), 0x8000_0000, 32);
  }

  /** The state's first word with one bit changed. */
  function Flip(w: W128, k: nat, work: bv32): W128 {
    if k == 0 then w.(u0 := Plus(w.u0, work)) else if k == 1 then w.(u1 := Plus(w.u1, work))
    else if k == 2 then w.(u2 := Plus(w.u2, work)) else w.(u3 := Plus(w.u3, work))
  }

  lemma {:induction false} MaskedBits(a: bv32, p: bv32, work: bv32)
    requires work & p == work
    ensures (a ^ work) & p == (a & p) ^ work
  {
  }

  lemma {:induction false} Masks(a: bv32, p: bv32, work: bv32)
    requires And(work, p) == work
    ensures And(Plus(a, work), p) == Plus(And(a, p), work)
  {
    hide *;
    AndIs(work, p);
    PlusIs(a, work);
    AndIs(Plus(a, work), p);
    AndIs(a, p);
    PlusIs(And(a, p), work);
    MaskedBits(a, p, work);
  }

  lemma {:induction false} OneTermMore(a: bv32, b: bv32, c: bv32, d: bv32, x: bv32)
    ensures Plus(Plus(Plus(a, x), b), Plus(c, d)) == Plus(Plus(Plus(a, b), Plus(c, d)), x)
    ensures Plus(Plus(a, Plus(b, x)), Plus(c, d)) == Plus(Plus(Plus(a, b), Plus(c, d)), x)
    ensures Plus(Plus(a, b), Plus(Plus(c, x), d)) == Plus(Plus(Plus(a, b), Plus(c, d)), x)
    ensures Plus(Plus(a, b), Plus(c, Plus(d, x))) == Plus(Plus(Plus(a, b), Plus(c, d)), x)
  {
    hide *;
    PlusAssociates(a, b, x);
    PlusAssociates(a, x, b);
    PlusCommutes(x, b);
    PlusAssociates(c, d, x);
    PlusAssociates(c, x, d);
    PlusCommutes(x, d);
    PlusAssociates(Plus(a, b), Plus(c, d), x);
    PlusAssociates(Plus(a, b), x, Plus(c, d));
    PlusCommutes(x, Plus(c, d));
  }

  lemma {:induction false} InnerIs(w: W128, parity: W128)
    ensures Inner(w, parity) == Plus(Plus(And(w.u0, parity.u0), And(w.u1, parity.u1)),
                                     Plus(And(w.u2, parity.u2), And(w.u3, parity.u3)))
  {
    hide Plus, And;
  }

  lemma {:induction false} FlipIs(w: W128, k: nat, work: bv32)
    requires k < 4
    ensures k == 0 ==> Flip(w, k, work) == W128(Plus(w.u0, work), w.u1, w.u2, w.u3)
    ensures k == 1 ==> Flip(w, k, work) == W128(w.u0, Plus(w.u1, work), w.u2, w.u3)
    ensures k == 2 ==> Flip(w, k, work) == W128(w.u0, w.u1, Plus(w.u2, work), w.u3)
    ensures k == 3 ==> Flip(w, k, work) == W128(w.u0, w.u1, w.u2, Plus(w.u3, work))
  {
    hide Plus;
  }

  lemma {:induction false} InnerFlips0(w: W128, parity: W128, work: bv32)
    requires And(work, parity.u0) == work
    ensures Inner(Flip(w, 0, work), parity) == Plus(Inner(w, parity), work)
  {
    hide *;
    OneTermMore(And(w.u0, parity.u0), And(w.u1, parity.u1), And(w.u2, parity.u2), And(w.u3, parity.u3), work);
    InnerIs(w, parity);
    InnerIs(Flip(w, 0, work), parity);
    FlipIs(w, 0, work);
    Masks(w.u0, parity.u0, work);
  }

  lemma {:induction false} InnerFlips1(w: W128, parity: W128, work: bv32)
    requires And(work, parity.u1) == work
    ensures Inner(Flip(w, 1, work), parity) == Plus(Inner(w, parity), work)
  {
    hide *;
    OneTermMore(And(w.u0, parity.u0), And(w.u1, parity.u1), And(w.u2, parity.u2), And(w.u3, parity.u3), work);
    InnerIs(w, parity);
    InnerIs(Flip(w, 1, work), parity);
    FlipIs(w, 1, work);
    Masks(w.u1, parity.u1, work);
  }

  lemma {:induction false} InnerFlips2(w: W128, parity: W128, work: bv32)
    requires And(work, parity.u2) == work
    ensures Inner(Flip(w, 2, work), parity) == Plus(Inner(w, parity), work)
  {
    hide *;
    OneTermMore(And(w.u0, parity.u0), And(w.u1, parity.u1), And(w.u2, parity.u2), And(w.u3, parity.u3), work);
    InnerIs(w, parity);
    InnerIs(Flip(w, 2, work), parity);
    FlipIs(w, 2, work);
    Masks(w.u2, parity.u2, work);
  }

  lemma {:induction false} InnerFlips3(w: W128, parity: W128, work: bv32)
    requires And(work, parity.u3) == work
    ensures Inner(Flip(w, 3, work), parity) == Plus(Inner(w, parity), work)
  {
    hide *;
    OneTermMore(And(w.u0, parity.u0), And(w.u1, parity.u1), And(w.u2, parity.u2), And(w.u3, parity.u3), work);
    InnerIs(w, parity);
    InnerIs(Flip(w, 3, work), parity);
    FlipIs(w, 3, work);
    Masks(w.u3, parity.u3, work);
  }

  /** Changing a bit under the mask changes the sum. */
  lemma {:induction false} InnerFlips(w: W128, parity: W128, k: nat, work: bv32)
    requires k < 4 && And(work, Part(parity, k)) == work
    ensures Inner(Flip(w, k, work), parity) == Plus(Inner(w, parity), work)
  {
    hide *;
    PartIs(parity);
    if k == 0 { InnerFlips0(w, parity, work); }
    if k == 1 { InnerFlips1(w, parity, work); }
    if k == 2 { InnerFlips2(w, parity, work); }
    if k == 3 { InnerFlips3(w, parity, work); }
  }

  lemma {:induction false} PartIs(w: W128)
    ensures Part(w, 0) == w.u0 && Part(w, 1) == w.u1 && Part(w, 2) == w.u2 && Part(w, 3) == w.u3
  {
  }

  /** And with it the parity. */
  lemma {:induction false} Flipped(w: W128, parity: W128, k: nat, work: bv32)
    requires k < 4 && And(work, Part(parity, k)) == work && Single(work) && !OddParity(w, parity)
    ensures OddParity(Flip(w, k, work), parity)
  {
    hide *;
    InnerFlips(w, parity, k, work);
    ParityIs(w, parity);
    ParityIs(Flip(w, k, work), parity);
    OneBitMore(Inner(w, parity), work);
  }

  // ----- looking for a bit

  /** No bit of p below work. */
  predicate NoneBelow(p: bv32, work: bv32) {
    p & (work - 1) == 0
  }

  /** work is shifted out to the left within n steps. */
  predicate GoneLeft(work: bv32, n: nat)
    decreases n
  {
    if n == 0 then work == 0 else GoneLeft(Next(work), n - 1)
  }

  lemma {:induction false} OneGoneLeft()
    ensures GoneLeft(1, 32)
  {
    assert GoneLeft(0x100_0000, 8);
    assert GoneLeft(0x1_0000, 16);
    assert GoneLeft(0x100, 24);
  }

  lemma {:induction false} GoneLeftStep(work: bv32, n: nat)
    requires GoneLeft(work, n) && work != 0
    ensures n > 0 && GoneLeft(Next(work), n - 1)
  {
    hide Next;
  }

  /** The bits below work have been looked at. */
  predicate Searching(p: bv32, work: bv32) {
    NoneBelow(p, work) && (work != 0 ==> Single(work))
  }

  lemma {:induction false} SearchStep(p: bv32, work: bv32)
    requires Searching(p, work) && work != 0
    ensures And(work, p) != 0 ==> And(work, p) == work && Single(work) && p != 0
    ensures And(work, p) == 0 ==> Searching(p, Next(work))
  {
  }

  lemma {:induction false} SearchEnd(p: bv32, work: bv32)
    requires Searching(p, work) && work == 0
    ensures p == 0
  {
  }

  lemma {:induction false} FirstBits(p: bv32)
    ensures Searching(p, 1)
  {
  }

  function Part(w: W128, k: nat): bv32 {
    if k == 0 then w.u0 else if k == 1 then w.u1 else if k == 2 then w.u2 else w.u3
  }

  /** The stream as 32-bit words. */
  function Word32(s: seq<W128>, i: nat): bv32
    requires |s| == 156
  {
    Part(Stream(s, i / 4), i % 4)
  }

  class State {
    const state: array<W128>
    var idx: nat
    /** The words the generator started with, and where in their stream the state now stands. */
    ghost var origin: seq<W128>
    ghost var at: nat

    ghost predicate Valid()
      reads this, state
    {
      state.Length == 156 && idx <= 624 && Window(origin, state[..], at)
    }

    /** The number of the next 32-bit word of the stream. */
    ghost function Position(): nat
      reads this
    {
      4 * at + idx
    }

    /** As after an initialization, whose first words are not given out. */
    constructor (words: seq<W128>)
      requires |words| == 156
      ensures Valid() && state[..] == words == origin && idx == 624 && at == 0 && fresh(state)
    {
      state := new W128[156](i requires 0 <= i < 156 => words[i]);
      idx, origin, at := 624, words, 0;
      new;
      assert state[..] == words;
      WindowStart(words);
    }

    /** sfmt_genrand_uint32: the next 32-bit word of the stream. */
    method GenRandUint32() returns (r: bv32)
      requires Valid()
      modifies this`idx, this`at, state
      ensures Valid() && |origin| == 156 && r == Word32(origin, old(Position())) && Position() == old(Position()) + 1
    {
      hide Stream, Recursion;
      if idx >= 624 {
        ghost var s := state[..];
        GenRandAll();
        WindowsChain(origin, s, state[..], at, 156);
        at := at + 156;
        idx := 0;
      }
      assert state[..][idx / 4] == Stream(origin, at + idx / 4);
      r := Part(state[idx / 4], idx % 4);
      idx := idx + 1;
    }

    /** sfmt_fill_array32: the next size 32-bit words of the stream, four to an element. */
    method FillArray32(array': array<W128>, size: nat)
      requires Valid() && idx == 624 && size % 4 == 0 && size >= 624 && array'.Length == size / 4 && array' != state
      modifies this`idx, this`at, state, array'
      ensures Valid() && idx == 624 && |origin| == 156 && Position() == old(Position()) + size
      ensures forall i {:trigger array'[i]} :: 0 <= i < size / 4 ==>
        array'[i] == Stream(origin, old(Position()) / 4 + i)
    {
      hide Stream, Recursion;
      ghost var s := state[..];
      GenRandArray(array', size / 4);
      WindowsChain(origin, s, state[..], at, size / 4);
      forall i | 0 <= i < size / 4 ensures array'[i] == Stream(origin, at + 156 + i) {
        StreamFrom(origin, s, at, 156 + i);
      }
      at := at + size / 4;
      idx := 624;
    }

    /** period_certification: the parity of state[0] under the mask is made odd. */
    method PeriodCertification(parity: W128)
      requires state.Length == 156 && parity != W128(0, 0, 0, 0)
      modifies state
      ensures OddParity(state[0], parity) && state[1..] == old(state[1..])
      ensures OddParity(old(state[0]), parity) ==> state[0] == old(state[0])
    {
      hide *;
      var w := state[0];
      var inner := Inner(w, parity);
      ParityIs(w, parity);
      if Odd(Fold(inner)) { return; }
      var i := 0;
      while i < 4
        invariant 0 <= i <= 4 && state[..] == old(state[..]) && forall k {:trigger Part(parity, k)} :: 0 <= k < i ==>
          Part(parity, k) == 0
      {
        var work, found := FirstBit(Part(parity, i));
        if found {
          Flipped(w, parity, i, work);
          state[0] := Flip(w, i, work);
          return;
        }
        i := i + 1;
      }
      NoParity(parity);
      assert false;
    }

    lemma {:induction false} NoParity(parity: W128)
      requires forall k {:trigger Part(parity, k)} :: 0 <= k < 4 ==> Part(parity, k) == 0
      ensures parity == W128(0, 0, 0, 0)
    {
      assert parity.u0 == Part(parity, 0);
      assert parity.u1 == Part(parity, 1);
      assert parity.u2 == Part(parity, 2);
      assert parity.u3 == Part(parity, 3);
    }

    /** The lowest bit of a word, if there is one. */
    method FirstBit(p: bv32) returns (work: bv32, found: bool)
      ensures found <==> p != 0
      ensures found ==> And(work, p) == work && Single(work)
    {
      hide *;
      work := 1;
      ghost var left: nat := 32;
      FirstBits(p);
      OneGoneLeft();
      found := false;
      while work != 0 && !found
        invariant !found ==> Searching(p, work) && GoneLeft(work, left)
        invariant found ==> And(work, p) == work && Single(work) && p != 0
        decreases !found, left
      {
        SearchStep(p, work);
        if And(work, p) != 0 {
          found := true;
        } else {
          GoneLeftStep(work, left);
          work, left := Next(work), left - 1;
        }
      }
      if !found { SearchEnd(p, work); }
    }

    /** sfmt_gen_rand_all: the next 156 words of the stream replace the last. */
    method GenRandAll()
      requires state.Length == 156
      modifies state
      ensures Window(old(state[..]), state[..], 156)
    {
      hide *;
      ghost var s := state[..];
      HalfDoneStart(s);
      StreamStart(s);
      var r1, r2 := state[154], state[155];
      assert r1 == s[154] && r2 == s[155];
      var i := 0;
      while i < 156 - 122
        invariant 0 <= i <= 34 && HalfDone(s, state[..], i) && r1 == Stream(s, i + 154) && r2 == Stream(s, i + 155)
      {
        ghost var t := state[..];
        HalfDoneStep(s, t, i, r1, r2, state[i + 122]);
        state[i] := Recursion(state[i], state[i + 122], r1, r2);
        assert state[..] == t[i := Recursion(t[i], t[i + 122], r1, r2)];
        r1, r2 := r2, state[i];
        i := i + 1;
      }
      while i < 156
        invariant 34 <= i <= 156 && HalfDone(s, state[..], i) && r1 == Stream(s, i + 154) && r2 == Stream(s, i + 155)
      {
        ghost var t := state[..];
        HalfDoneStep(s, t, i, r1, r2, state[i + 122 - 156]);
        state[i] := Recursion(state[i], state[i + 122 - 156], r1, r2);
        assert state[..] == t[i := Recursion(t[i], t[i - 34], r1, r2)];
        r1, r2 := r2, state[i];
        i := i + 1;
      }
      HalfDoneEnd(s, state[..]);
    }

    /** The first i words of the array. */
    ghost predicate Filled(s: seq<W128>, array': seq<W128>, i: int) {
      |s| == 156 && 0 <= i <= |array'| && forall j {:trigger array'[j]} :: 0 <= j < i ==>
        array'[j] == Stream(s, 156 + j)
    }

    lemma {:induction false} FilledStep(s: seq<W128>, a: seq<W128>, i: nat, r1: W128, r2: W128, w: W128, b: W128)
      requires Filled(s, a, i) && i < |a| && r1 == Stream(s, i + 154) && r2 == Stream(s, i + 155)
      requires w == Stream(s, i) && b == Stream(s, i + 122)
      ensures Recursion(w, b, r1, r2) == Stream(s, 156 + i) && Filled(s, a[i := Recursion(w, b, r1, r2)], i + 1)
    {
      hide Recursion, Stream;
      StreamStep(s, i);
    }

    lemma {:induction false} FilledAt(s: seq<W128>, a: seq<W128>, i: int, j: nat)
      requires Filled(s, a, i) && j < i
      ensures i <= |a| && |s| == 156 && a[j] == Stream(s, 156 + j)
    {
      hide Stream;
    }

    /** One step of gen_rand_array. */
    method FillOne(array': array<W128>, i: nat, a: W128, b: W128, r1: W128, r2: W128, ghost s: seq<W128>)
      requires Filled(s, array'[..], i) && i < array'.Length && r1 == Stream(s, i + 154) && r2 == Stream(s, i + 155)
      requires a == Stream(s, i) && b == Stream(s, i + 122)
      modifies array'
      ensures Filled(s, array'[..], i + 1) && array'[i] == Stream(s, i + 156)
    {
      hide *;
      ghost var t := array'[..];
      FilledStep(s, t, i, r1, r2, a, b);
      array'[i] := Recursion(a, b, r1, r2);
      assert array'[..] == t[i := Recursion(a, b, r1, r2)];
    }

    /**
     * gen_rand_array: the next size words of the stream, the last 156 of which become the state; size may lie between
     * 156 and 312, when both overlap, or beyond.
     */
    method GenRandArray(array': array<W128>, size: nat)
      requires state.Length == 156 && array'.Length == size >= 156 && array' != state
      modifies state, array'
      ensures forall j {:trigger array'[j]} :: 0 <= j < size ==> array'[j] == Stream(old(state[..]), 156 + j)
      ensures Window(old(state[..]), state[..], size)
    {
      hide *;
      ghost var s := state[..];
      StreamStart(s);
      NoneFilled(s, array'[..]);
      var r1, r2 := state[154], state[155];
      assert r1 == s[154] && r2 == s[155];
      var i := 0;
      while i < 156 - 122
        invariant 0 <= i <= 34 && state[..] == s && Filled(s, array'[..], i) && r1 == Stream(s, i + 154)
          && r2 == Stream(s, i + 155)
        modifies array'
      {
        assert state[i] == s[i] && state[i + 122] == s[i + 122];
        FillOne(array', i, state[i], state[i + 122], r1, r2, s);
        r1, r2 := r2, array'[i];
        i := i + 1;
      }
      while i < 156
        invariant 34 <= i <= 156 && state[..] == s && Filled(s, array'[..], i) && r1 == Stream(s, i + 154)
          && r2 == Stream(s, i + 155)
        modifies array'
      {
        assert state[i] == s[i];
        FilledAt(s, array'[..], i, i - 34);
        assert array'[i - 34] == array'[..][i - 34];
        FillOne(array', i, state[i], array'[i + 122 - 156], r1, r2, s);
        r1, r2 := r2, array'[i];
        i := i + 1;
      }
      i, r1, r2 := FillOn(array', i, size - 156, r1, r2, s);
      var j := CopyState(array', size, s);
      CopiedStart(s, state[..], j, size);
      while i < size
        invariant 156 <= i <= size && Filled(s, array'[..], i) && r1 == Stream(s, i + 154) && r2 == Stream(s, i + 155)
        invariant 0 <= j == i - (size - 156) <= 156 && Copied(s, state[..], j, size)
      {
        FilledAt(s, array'[..], i, i - 34);
        FilledAt(s, array'[..], i, i - 156);
        assert array'[i - 34] == array'[..][i - 34] && array'[i - 156] == array'[..][i - 156];
        FillOne(array', i, array'[i - 156], array'[i + 122 - 156], r1, r2, s);
        r1, r2 := r2, array'[i];
        ghost var t := state[..];
        CopiedNext(s, t, j, size);
        state[j] := array'[i];
        assert state[..] == t[j := Stream(s, size + j)];
        i, j := i + 1, j + 1;
      }
      AllFilled(s, array'[..], size);
      AllCopied(s, state[..], size);
      assert forall k {:trigger array'[k]} :: 0 <= k < size ==> array'[k] == array'[..][k];
    }

    lemma {:induction false} NoneFilled(s: seq<W128>, a: seq<W128>)
      requires |s| == 156
      ensures Filled(s, a, 0)
    {
    }

    lemma {:induction false} AllFilled(s: seq<W128>, a: seq<W128>, n: nat)
      requires Filled(s, a, n)
      ensures |s| == 156 && n <= |a| && forall j {:trigger a[j]} :: 0 <= j < n ==> a[j] == Stream(s, 156 + j)
    {
      hide Stream;
    }

    /** The third loop: words made of words of the array only. */
    method FillOn(array': array<W128>, i0: nat, end: int, a1: W128, a2: W128, ghost s: seq<W128>)
      returns (i: nat, r1: W128, r2: W128)
      requires i0 == 156 && end <= array'.Length && Filled(s, array'[..], i0) && |s| == 156
      requires a1 == Stream(s, i0 + 154) && a2 == Stream(s, i0 + 155)
      modifies array'
      ensures i == (if end > 156 then end else 156) && Filled(s, array'[..], i) && r1 == Stream(s, i + 154)
        && r2 == Stream(s, i + 155)
    {
      hide *;
      i, r1, r2 := i0, a1, a2;
      while i < end
        invariant 156 <= i && (i <= end || i == 156) && Filled(s, array'[..], i) && r1 == Stream(s, i + 154)
          && r2 == Stream(s, i + 155)
      {
        FilledAt(s, array'[..], i, i - 34);
        FilledAt(s, array'[..], i, i - 156);
        assert array'[i - 34] == array'[..][i - 34] && array'[i - 156] == array'[..][i - 156];
        FillOne(array', i, array'[i - 156], array'[i + 122 - 156], r1, r2, s);
        r1, r2 := r2, array'[i];
        i := i + 1;
      }
    }

    /** The first j words of the new state. */
    ghost predicate Copied(s: seq<W128>, t: seq<W128>, j: int, size: nat) {
      |s| == |t| == 156 && 0 <= j <= 156 && forall k {:trigger t[k]} :: 0 <= k < j ==> t[k] == Stream(s, size + k)
    }

    lemma {:induction false} CopiedStart(s: seq<W128>, t: seq<W128>, j: nat, size: nat)
      requires |s| == |t| == 156 && j <= 156 && forall k {:trigger t[k]} :: 0 <= k < j ==> t[k] == Stream(s, size + k)
      ensures Copied(s, t, j, size)
    {
    }

    lemma {:induction false} CopiedNext(s: seq<W128>, t: seq<W128>, j: nat, size: nat)
      requires Copied(s, t, j, size) && j < 156
      ensures |t| == 156 && |s| == 156 && Copied(s, t[j := Stream(s, size + j)], j + 1, size)
    {
      hide Stream;
    }

    lemma {:induction false} AllCopied(s: seq<W128>, t: seq<W128>, size: nat)
      requires Copied(s, t, 156, size)
      ensures Window(s, t, size)
    {
      hide Stream;
    }

    /** The words of the old part of the array that stay in the state. */
    method CopyState(array': array<W128>, size: nat, ghost s: seq<W128>) returns (j: nat)
      requires state.Length == 156 && array'.Length == size >= 156 && array' != state && |s| == 156
      requires Filled(s, array'[..], if size - 156 > 156 then size - 156 else 156)
      modifies state
      ensures j == (if 312 - size > 0 then 312 - size else 0) && forall k {:trigger state[..][k]} :: 0 <= k < j ==>
        state[..][k] == Stream(s, size + k)
    {
      hide *;
      j := 0;
      while j < 2 * 156 - size
        invariant 0 <= j && (j <= 312 - size || j == 0) && forall k {:trigger state[k]} :: 0 <= k < j ==>
          state[k] == Stream(s, size + k)
      {
        FilledAt(s, array'[..], 156, j + size - 156);
        assert array'[j + size - 156] == array'[..][j + size - 156];
        state[j] := array'[j + size - 156];
        j := j + 1;
      }
    }
  }
}
