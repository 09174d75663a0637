/** Polynomials over the field of two elements, modulo the CRC polynomial, reflected: multmodp and its algebra. */
module Gf2 {
  import opened Powers
  import opened Xors

  /** x^0. */
  const ONE: bv32 := 0x8000_0000

  // ----- words

  function Plus(a: bv32, b: bv32): bv32 {
    a ^ b
  }

  function Half(a: bv32): bv32 {
    a >> 1
  }

  function Next(a: bv32): bv32 {
    a << 1
  }

  predicate Odd(a: bv32) {
    a & 1 == 1
  }

  predicate High(a: bv32) {
    a & 0x8000_0000 != 0
  }

  lemma {:induction false} PlusCommutes(a: bv32, b: bv32)
    ensures Plus(a, b) == Plus(b, a)
  {
  }

  lemma {:induction false} PlusAssociates(a: bv32, b: bv32, c: bv32)
    ensures Plus(Plus(a, b), c) == Plus(a, Plus(b, c))
  {
  }

  lemma {:induction false} PlusZero(a: bv32)
    ensures Plus(a, 0) == a == Plus(0, a) && Plus(a, a) == 0
  {
  }

  /** The middle terms change places. */
  lemma {:induction false} PlusFour(a: bv32, b: bv32, c: bv32, d: bv32)
    ensures Plus(Plus(a, b), Plus(c, d)) == Plus(Plus(a, c), Plus(b, d))
  {
    hide *;
    PlusAssociates(a, b, Plus(c, d));
    PlusAssociates(b, c, d);
    PlusCommutes(b, c);
    PlusAssociates(c, b, d);
    PlusAssociates(a, c, Plus(b, d));
  }

  /** A term that occurs twice disappears. */
  lemma {:induction false} PlusTwice(a: bv32, b: bv32)
    ensures Plus(Plus(a, b), b) == a == Plus(b, Plus(b, a))
  {
    hide *;
    PlusAssociates(a, b, b);
    PlusAssociates(b, b, a);
    PlusZero(a);
    PlusZero(b);
  }

  lemma {:induction false} HalfPlus(a: bv32, b: bv32)
    ensures Half(Plus(a, b)) == Plus(Half(a), Half(b)) && (Odd(Plus(a, b)) <==> Odd(a) != Odd(b))
  {
  }

  // ----- multiplication

  /** Multiplication by x. */
  function X(b: bv32): bv32 {
    if Odd(b) then Plus(Half(b), 0xedb8_8320) else Half(b)
  }

  /** Multiplication by x^n. */
  function XN(b: bv32, n: nat): bv32 {
    if n == 0 then b else X(XN(b, n - 1))
  }

  /** b if the highest bit of a is set. */
  function Term(a: bv32, b: bv32): bv32 {
    if High(a) then b else 0
  }

  /** b times the polynomial whose coefficients are the highest k bits of a. */
  function MulBits(a: bv32, b: bv32, k: nat): bv32
    decreases k
  {
    if k == 0 then 0 else Plus(Term(a, b), MulBits(Next(a), X(b), k - 1))
  }

  /** The product. */
  function Mul(a: bv32, b: bv32): bv32 {
    MulBits(a, b, 32)
  }

  lemma {:induction false} XLinear(a: bv32, b: bv32)
    ensures X(Plus(a, b)) == Plus(X(a), X(b))
  {
    hide Plus, Half, Odd;
    HalfPlus(a, b);
    var p: bv32 := 0xedb8_8320;
    PlusFour(Half(a), p, Half(b), p);
    PlusZero(p);
    PlusZero(Plus(Half(a), Half(b)));
    PlusAssociates(Half(a), Half(b), p);
    PlusAssociates(Half(a), p, Half(b));
    PlusCommutes(p, Half(b));
  }

  lemma {:induction false} XZero()
    ensures X(0) == 0
  {
  }

  lemma {:induction false} TermLinear(a: bv32, b: bv32, c: bv32)
    ensures Term(a, Plus(b, c)) == Plus(Term(a, b), Term(a, c)) && X(Term(a, b)) == Term(a, X(b)) && Term(a, 0) == 0
  {
    hide Plus, X, High;
    PlusZero(0);
    XZero();
  }

  lemma {:induction false} XNLinear(a: bv32, b: bv32, n: nat)
    ensures XN(Plus(a, b), n) == Plus(XN(a, n), XN(b, n))
  {
    hide X, Plus;
    if n > 0 {
      XNLinear(a, b, n - 1);
      XLinear(XN(a, n - 1), XN(b, n - 1));
    }
  }

  lemma {:induction false} XNZero(n: nat)
    ensures XN(0, n) == 0
  {
    hide X;
    if n > 0 {
      XNZero(n - 1);
      XZero();
    }
  }

  lemma {:induction false} XNAdd(b: bv32, m: nat, n: nat)
    ensures XN(XN(b, m), n) == XN(b, m + n)
    decreases n
  {
    hide X;
    if n > 0 { XNAdd(b, m, n - 1); }
  }

  lemma {:induction false} MulStep(a: bv32, b: bv32, k: nat)
    ensures MulBits(a, b, 0) == 0 && MulBits(a, b, k + 1) == Plus(Term(a, b), MulBits(Next(a), X(b), k))
  {
    hide Plus, Term, X, Next;
  }

  /** The product is linear in its second factor. */
  lemma {:induction false} MulLinear(a: bv32, b: bv32, c: bv32, k: nat)
    ensures MulBits(a, Plus(b, c), k) == Plus(MulBits(a, b, k), MulBits(a, c, k))
    decreases k
  {
    hide *;
    if k == 0 {
      MulStep(a, b, 0);
      MulStep(a, c, 0);
      MulStep(a, Plus(b, c), 0);
      PlusZero(0);
    } else {
      MulStep(a, b, k - 1);
      MulStep(a, c, k - 1);
      MulStep(a, Plus(b, c), k - 1);
      XLinear(b, c);
      MulLinear(Next(a), X(b), X(c), k - 1);
      TermLinear(a, b, c);
      PlusFour(Term(a, b), Term(a, c), MulBits(Next(a), X(b), k - 1), MulBits(Next(a), X(c), k - 1));
    }
  }

  lemma {:induction false} MulZero(a: bv32, k: nat)
    ensures MulBits(a, 0, k) == 0
    decreases k
  {
    hide *;
    MulStep(a, 0, if k > 0 then k - 1 else 0);
    if k > 0 {
      XZero();
      MulZero(Next(a), k - 1);
      TermLinear(a, 0, 0);
      PlusZero(0);
    }
  }

  lemma {:induction false} MulX(a: bv32, b: bv32, k: nat)
    ensures MulBits(a, X(b), k) == X(MulBits(a, b, k))
    decreases k
  {
    hide *;
    MulStep(a, X(b), if k > 0 then k - 1 else 0);
    MulStep(a, b, if k > 0 then k - 1 else 0);
    TermLinear(a, b, 0);
    XZero();
    if k > 0 {
      MulX(Next(a), X(b), k - 1);
      XLinear(Term(a, b), MulBits(Next(a), X(b), k - 1));
    }
  }

  lemma {:induction false} TermMul(a: bv32, b: bv32, c: bv32, m: nat)
    ensures Term(a, MulBits(b, c, m)) == MulBits(b, Term(a, c), m)
  {
    hide MulBits, High;
    MulZero(b, m);
  }

  /** Multiplications commute. */
  lemma {:induction false} MulSwap(a: bv32, b: bv32, c: bv32, k: nat, m: nat)
    ensures MulBits(a, MulBits(b, c, m), k) == MulBits(b, MulBits(a, c, k), m)
    decreases k
  {
    hide *;
    MulStep(a, MulBits(b, c, m), if k > 0 then k - 1 else 0);
    MulStep(a, c, if k > 0 then k - 1 else 0);
    if k == 0 {
      MulZero(b, m);
    } else {
      MulX(b, c, m);
      MulSwap(Next(a), b, X(c), k - 1, m);
      MulLinear(b, Term(a, c), MulBits(Next(a), X(c), k - 1), m);
      TermMul(a, b, c, m);
    }
  }

  // ----- one

  /** Nothing is left of a after k shifts. */
  predicate Spent(a: bv32, k: nat)
    decreases k
  {
    if k == 0 then a == 0 else Spent(Next(a), k - 1)
  }

  function Shift8(a: bv32): bv32 {
    a << 8
  }

  lemma {:induction false} NextEight(a: bv32)
    ensures Next(Next(Next(Next(Next(Next(Next(Next(a)))))))) == Shift8(a)
  {
  }

  lemma {:induction false} SpentEight(a: bv32, k: nat)
    requires Spent(Shift8(a), k)
    ensures Spent(a, k + 8)
  {
    hide *;
    NextEight(a);
    var n1 := Next(a); var n2 := Next(n1); var n3 := Next(n2); var n4 := Next(n3);
    var n5 := Next(n4); var n6 := Next(n5); var n7 := Next(n6);
    SpentNext(n7, k);
    SpentNext(n6, k + 1);
    SpentNext(n5, k + 2);
    SpentNext(n4, k + 3);
    SpentNext(n3, k + 4);
    SpentNext(n2, k + 5);
    SpentNext(n1, k + 6);
    SpentNext(a, k + 7);
  }

  lemma {:induction false} AllSpent(a: bv32)
    ensures Spent(a, 32)
  {
    hide *;
    SpentNone(Shift8(Shift8(Shift8(Shift8(a)))));
    FourShifts(a);
    SpentEight(Shift8(Shift8(Shift8(a))), 0);
    SpentEight(Shift8(Shift8(a)), 8);
    SpentEight(Shift8(a), 16);
    SpentEight(a, 24);
  }

  lemma {:induction false} SpentNone(a: bv32)
    ensures a == 0 ==> Spent(a, 0)
  {
  }

  lemma {:induction false} FourShifts(a: bv32)
    ensures Shift8(Shift8(Shift8(Shift8(a)))) == 0
  {
  }

  lemma {:induction false} SpentNext(a: bv32, k: nat)
    ensures Spent(a, 0) <==> a == 0
    ensures Spent(a, k + 1) <==> Spent(Next(a), k)
  {
    hide Next;
  }

  /** The highest bit and the rest. */
  lemma {:induction false} TopAndRest(a: bv32)
    ensures a == Plus(Term(a, 0x8000_0000), X(Next(a)))
  {
    hide Plus, Half, Next, Odd, High;
    HalfNext(a);
    if High(a) { WithTop(a); } else { WithoutTop(a); PlusZero(a); }
  }

  lemma {:induction false} HalfNext(a: bv32)
    ensures !Odd(Next(a)) && Half(Next(a)) == a & 0x7fff_ffff
  {
  }

  lemma {:induction false} WithTop(a: bv32)
    requires High(a)
    ensures a == Plus(0x8000_0000, a & 0x7fff_ffff)
  {
  }

  lemma {:induction false} WithoutTop(a: bv32)
    requires !High(a)
    ensures a == a & 0x7fff_ffff
  {
  }

  lemma {:induction false} UnitBits(a: bv32, k: nat)
    requires Spent(a, k)
    ensures MulBits(a, 0x8000_0000, k) == a
    decreases k
  {
    hide *;
    SpentNext(a, if k > 0 then k - 1 else 0);
    MulStep(a, 0x8000_0000, if k > 0 then k - 1 else 0);
    if k > 0 {
      UnitBits(Next(a), k - 1);
      MulX(Next(a), 0x8000_0000, k - 1);
      TopAndRest(a);
    }
  }

  /** One is neutral. */
  lemma {:induction false} MulOne(a: bv32)
    ensures Mul(a, ONE) == a
  {
    hide MulBits;
    AllSpent(a);
    UnitBits(a, 32);
  }


  lemma {:induction false} MulIs(a: bv32, b: bv32)
    ensures Mul(a, b) == MulBits(a, b, 32)
  {
    hide MulBits;
  }

  lemma {:induction false} MulCommutes(a: bv32, b: bv32)
    ensures Mul(a, b) == Mul(b, a)
  {
    hide *;
    MulIs(a, b);
    MulIs(b, a);
    MulIs(b, ONE);
    MulIs(a, ONE);
    MulOne(a);
    MulOne(b);
    MulSwap(a, b, ONE, 32, 32);
  }

  lemma {:induction false} MulAssociates(a: bv32, b: bv32, c: bv32)
    ensures Mul(Mul(a, b), c) == Mul(a, Mul(b, c))
  {
    hide *;
    MulIs(a, b);
    MulIs(c, b);
    MulCommutes(Mul(a, b), c);
    MulIs(c, Mul(a, b));
    MulIs(a, Mul(c, b));
    MulSwap(c, a, b, 32, 32);
    MulCommutes(c, b);
  }

  lemma {:induction false} MulDistributes(a: bv32, b: bv32, c: bv32)
    ensures Mul(a, Plus(b, c)) == Plus(Mul(a, b), Mul(a, c)) && Mul(Plus(b, c), a) == Plus(Mul(b, a), Mul(c, a))
  {
    hide *;
    MulIs(a, b);
    MulIs(a, c);
    MulIs(a, Plus(b, c));
    MulLinear(a, b, c, 32);
    MulCommutes(a, b);
    MulCommutes(a, c);
    MulCommutes(a, Plus(b, c));
  }

  lemma {:induction false} MulTimesX(a: bv32, b: bv32)
    ensures Mul(a, X(b)) == X(Mul(a, b)) == Mul(X(a), b)
  {
    hide *;
    MulIs(a, b);
    MulIs(a, X(b));
    MulX(a, b, 32);
    MulCommutes(X(a), b);
    MulIs(b, X(a));
    MulX(b, a, 32);
    MulIs(b, a);
    MulCommutes(a, b);
  }

  // ----- powers of x

  lemma {:induction false} MulXN(a: bv32, b: bv32, n: nat)
    ensures Mul(a, XN(b, n)) == XN(Mul(a, b), n)
  {
    hide X, Mul;
    if n > 0 {
      MulXN(a, b, n - 1);
      MulTimesX(a, XN(b, n - 1));
    }
  }

  /** Multiplying by x^n is multiplying by the residue of x^n. */
  lemma {:induction false} XNMul(b: bv32, n: nat)
    ensures Mul(XN(ONE, n), b) == XN(b, n)
  {
    hide *;
    MulCommutes(XN(ONE, n), b);
    MulXN(b, ONE, n);
    MulOne(b);
  }

  /** Powers multiply by adding exponents. */
  lemma {:induction false} PowersAdd(m: nat, n: nat)
    ensures Mul(XN(ONE, m), XN(ONE, n)) == XN(ONE, m + n)
  {
    hide *;
    XNMul(XN(ONE, n), m);
    XNAdd(ONE, n, m);
  }

  lemma {:induction false} XNonZero(b: bv32)
    requires b != 0
    ensures X(b) != 0
  {
  }

  /** x is invertible: no power of it vanishes. */
  lemma {:induction false} XNNonZero(b: bv32, n: nat)
    requires b != 0
    ensures XN(b, n) != 0
  {
    hide X;
    if n > 0 {
      XNNonZero(b, n - 1);
      XNonZero(XN(b, n - 1));
    }
  }

  // ----- squares

  /** Bit by bit, x^(2i) for each x^i. */
  function SquareBits(a: bv32, c: bv32, k: nat): bv32
    decreases k
  {
    if k == 0 then 0 else Plus(Term(a, c), SquareBits(Next(a), X(X(c)), k - 1))
  }

  lemma {:induction false} SquareStep(a: bv32, c: bv32, k: nat)
    ensures SquareBits(a, c, 0) == 0 && SquareBits(a, c, k + 1) == Plus(Term(a, c), SquareBits(Next(a), X(X(c)), k))
  {
    hide Plus, Term, X, Next;
  }

  lemma {:induction false} SquareX(a: bv32, c: bv32, k: nat)
    ensures SquareBits(a, X(c), k) == X(SquareBits(a, c, k))
    decreases k
  {
    hide *;
    SquareStep(a, X(c), if k > 0 then k - 1 else 0);
    SquareStep(a, c, if k > 0 then k - 1 else 0);
    TermLinear(a, c, 0);
    XZero();
    if k > 0 {
      SquareX(Next(a), X(X(c)), k - 1);
      XLinear(Term(a, c), SquareBits(Next(a), X(X(c)), k - 1));
    }
  }

  /** The square of a sum is the sum of the squares. */
  lemma {:induction false} SquareOfSum(a: bv32, b: bv32)
    ensures Mul(Plus(a, b), Plus(a, b)) == Plus(Mul(a, a), Mul(b, b))
  {
    hide *;
    MulDistributes(Plus(a, b), a, b);
    MulDistributes(a, a, b);
    MulDistributes(b, a, b);
    MulCommutes(a, b);
    PlusFour(Mul(a, a), Mul(b, a), Mul(b, a), Mul(b, b));
    PlusCommutes(Mul(b, a), Mul(b, b));
    PlusFour(Mul(a, a), Mul(b, a), Mul(b, b), Mul(b, a));
    PlusZero(Mul(b, a));
    PlusZero(Plus(Mul(a, a), Mul(b, b)));
  }

  lemma {:induction false} SquareIs(a: bv32, k: nat)
    requires Spent(a, k)
    ensures Mul(a, a) == SquareBits(a, ONE, k)
    decreases k
  {
    hide *;
    SpentNext(a, if k > 0 then k - 1 else 0);
    SquareStep(a, ONE, if k > 0 then k - 1 else 0);
    if k == 0 {
      MulIs(0, 0);
      MulZero(0, 32);
    } else {
      var n := Next(a);
      SquareIs(n, k - 1);
      SquareX(n, ONE, k - 1);
      SquareX(n, X(ONE), k - 1);
      OneIs();
      TopAndRest(a);
      SquareOfSum(Term(a, ONE), X(n));
      MulTimesX(X(n), n);
      MulTimesX(n, n);
      TermSquare(a);
    }
  }

  lemma {:induction false} OneIs()
    ensures ONE == 0x8000_0000
  {
  }

  lemma {:induction false} TermSquare(a: bv32)
    ensures Mul(Term(a, ONE), Term(a, ONE)) == Term(a, ONE)
  {
    hide MulBits, Mul, High;
    MulOne(ONE);
    MulIs(0, 0);
    MulZero(0, 32);
  }

  /** c if the bit of the mask is set in a. */
  function Masked(a: bv32, mask: bv32, c: bv32): bv32 {
    if a & mask != 0 then c else 0
  }

  /** Eight terms at once. */
  function Eight(a: bv32, c0: bv32, c1: bv32, c2: bv32, c3: bv32, c4: bv32, c5: bv32, c6: bv32, c7: bv32): bv32 {
    Plus(Masked(a, 0x8000_0000, c0),
         Plus(Masked(a, 0x4000_0000, c1), Plus(Masked(a, 0x2000_0000, c2), Plus(Masked(a, 0x1000_0000, c3),
    Plus(Masked(a, 0x0800_0000, c4),
         Plus(Masked(a, 0x0400_0000, c5), Plus(Masked(a, 0x0200_0000, c6), Masked(a, 0x0100_0000, c7))))))))
  }

  function XX(c: bv32): bv32 {
    X(X(c))
  }

  lemma {:induction false} HighNext(a: bv32)
    ensures High(a) <==> a & 0x8000_0000 != 0
    ensures High(Next(a)) <==> a & 0x4000_0000 != 0
    ensures High(Next(Next(a))) <==> a & 0x2000_0000 != 0
    ensures High(Next(Next(Next(a)))) <==> a & 0x1000_0000 != 0
  {
  }

  lemma {:induction false} HighLater(a: bv32)
    ensures High(Next(Next(Next(Next(a))))) <==> a & 0x0800_0000 != 0
    ensures High(Next(Next(Next(Next(Next(a)))))) <==> a & 0x0400_0000 != 0
    ensures High(Next(Next(Next(Next(Next(Next(a))))))) <==> a & 0x0200_0000 != 0
    ensures High(Next(Next(Next(Next(Next(Next(Next(a)))))))) <==> a & 0x0100_0000 != 0
  {
  }

  lemma {:induction false} PlusEight(t0: bv32, t1: bv32, t2: bv32, t3: bv32, t4: bv32, t5: bv32, t6: bv32, t7: bv32,
                                     rest: bv32)
    ensures Plus(t0, Plus(t1, Plus(t2, Plus(t3, Plus(t4, Plus(t5, Plus(t6, Plus(t7, rest))))))))
         == Plus(Plus(t0, Plus(t1, Plus(t2, Plus(t3, Plus(t4, Plus(t5, Plus(t6, t7))))))), rest)
  {
    hide *;
    var s6 := Plus(t6, t7); var s5 := Plus(t5, s6); var s4 := Plus(t4, s5); var s3 := Plus(t3, s4); var s2 :=
      Plus(t2, s3); var s1 := Plus(t1, s2);
    PlusAssociates(t6, t7, rest);
    PlusAssociates(t5, s6, rest);
    PlusAssociates(t4, s5, rest);
    PlusAssociates(t3, s4, rest);
    PlusAssociates(t2, s3, rest);
    PlusAssociates(t1, s2, rest);
    PlusAssociates(t0, s1, rest);
  }

  lemma {:induction false} TermMasked(a: bv32, b: bv32, mask: bv32, c: bv32)
    requires High(a) <==> b & mask != 0
    ensures Term(a, c) == Masked(b, mask, c)
  {
  }

  lemma {:induction false} SquareEight(a: bv32, c: bv32, k: nat)
    ensures SquareBits(a, c, k + 8) ==
            Plus(Eight(a, c, XX(c), XX(XX(c)), XX(XX(XX(c))), XX(XX(XX(XX(c)))), XX(XX(XX(XX(XX(c))))),
                       XX(XX(XX(XX(XX(XX(c)))))), XX(XX(XX(XX(XX(XX(XX(c)))))))),
                 SquareBits(Shift8(a), XX(XX(XX(XX(XX(XX(XX(XX(c)))))))), k))
  {
    hide *;
    NextEight(a);
    HighNext(a);
    HighLater(a);
    var n1 := Next(a); var n2 := Next(n1); var n3 := Next(n2); var n4 := Next(n3);
    var n5 := Next(n4); var n6 := Next(n5); var n7 := Next(n6);
    var d1 := XX(c); var d2 := XX(d1); var d3 := XX(d2); var d4 := XX(d3); var d5 := XX(d4); var d6 := XX(d5); var d7 :=
      XX(d6);
    SquareFour(a, c, k + 4);
    SquareFour(n4, d4, k);
    EightTerms(a, n1, n2, n3, n4, n5, n6, n7, c, d1, d2, d3, d4, d5, d6, d7);
    EightFold(Term(a, c), Term(n1, d1), Term(n2, d2), Term(n3, d3), Term(n4, d4), Term(n5, d5), Term(n6, d6),
              Term(n7, d7),
              SquareBits(a, c, k + 8), SquareBits(n4, d4, k + 4), SquareBits(Next(n7), XX(d7), k));
  }

  lemma {:induction false} EightFold(t0: bv32, t1: bv32, t2: bv32, t3: bv32, t4: bv32, t5: bv32, t6: bv32, t7: bv32,
                                     s: bv32, s4: bv32, rest: bv32)
    requires s == Plus(t0, Plus(t1, Plus(t2, Plus(t3, s4)))) && s4 == Plus(t4, Plus(t5, Plus(t6, Plus(t7, rest))))
    ensures s == Plus(Plus(t0, Plus(t1, Plus(t2, Plus(t3, Plus(t4, Plus(t5, Plus(t6, t7))))))), rest)
  {
    hide *;
    PlusEight(t0, t1, t2, t3, t4, t5, t6, t7, rest);
  }

  lemma {:induction false} SquareFour(a: bv32, c: bv32, k: nat)
    ensures SquareBits(a, c, k + 4) ==
            Plus(Term(a, c),
                 Plus(Term(Next(a), XX(c)),
                      Plus(Term(Next(Next(a)), XX(XX(c))), Plus(Term(Next(Next(Next(a))), XX(XX(XX(c)))),
                 SquareBits(Next(Next(Next(Next(a)))), XX(XX(XX(XX(c)))), k)))))
  {
    hide *;
    StepXX(a, c, k + 3);
    StepXX(Next(a), XX(c), k + 2);
    StepXX(Next(Next(a)), XX(XX(c)), k + 1);
    StepXX(Next(Next(Next(a))), XX(XX(XX(c))), k);
  }

  lemma {:induction false} EightTerms(a: bv32, n1: bv32, n2: bv32, n3: bv32, n4: bv32, n5: bv32, n6: bv32, n7: bv32,
                                      c0: bv32, c1: bv32, c2: bv32, c3: bv32, c4: bv32, c5: bv32, c6: bv32, c7: bv32)
    requires (High(a) <==> a & 0x8000_0000 != 0) && (High(n1) <==> a & 0x4000_0000 != 0)
      && (High(n2) <==> a & 0x2000_0000 != 0)
    requires (High(n3) <==> a & 0x1000_0000 != 0) && (High(n4) <==> a & 0x0800_0000 != 0)
      && (High(n5) <==> a & 0x0400_0000 != 0)
    requires (High(n6) <==> a & 0x0200_0000 != 0) && (High(n7) <==> a & 0x0100_0000 != 0)
    ensures Eight(a, c0, c1, c2, c3, c4, c5, c6, c7) ==
      Plus(Term(a, c0),
           Plus(Term(n1, c1),
                Plus(Term(n2, c2),
                     Plus(Term(n3, c3), Plus(Term(n4, c4), Plus(Term(n5, c5), Plus(Term(n6, c6), Term(n7, c7))))))))
  {
    hide Plus, Masked, Term, High;
    TermMasked(a, a, 0x8000_0000, c0);
    TermMasked(n1, a, 0x4000_0000, c1);
    TermMasked(n2, a, 0x2000_0000, c2);
    TermMasked(n3, a, 0x1000_0000, c3);
    TermMasked(n4, a, 0x0800_0000, c4);
    TermMasked(n5, a, 0x0400_0000, c5);
    TermMasked(n6, a, 0x0200_0000, c6);
    TermMasked(n7, a, 0x0100_0000, c7);
  }

  lemma {:induction false} StepXX(a: bv32, c: bv32, k: nat)
    ensures SquareBits(a, c, k + 1) == Plus(Term(a, c), SquareBits(Next(a), XX(c), k))
  {
    hide Plus, Term, X, Next;
  }

  /** The square as one expression. */
  function Square(a: bv32): bv32 {
    Plus(Eight(a, 0x80000000, 0x20000000, 0x08000000, 0x02000000, 0x00800000, 0x00200000, 0x00080000, 0x00020000),
    Plus(Eight(Shift8(a), 0x00008000, 0x00002000, 0x00000800, 0x00000200, 0x00000080, 0x00000020, 0x00000008,
               0x00000002),
    Plus(Eight(Shift8(Shift8(a)), 0xedb88320, 0x3b6e20c8, 0x0edb8832, 0xee0e612c, 0x3b83984b, 0x958424a2, 0xc8d98a08,
               0x32366282),
         Eight(Shift8(Shift8(Shift8(a))), 0xe1351b80, 0x384d46e0, 0x0e1351b8, 0x0384d46e, 0xed59b63b, 0xa032af3e,
               0xc5b428ef, 0xaa09c88b))))
  }

  lemma {:induction false} SquarePowers0()
    ensures XX(0x80000000) == 0x20000000 && XX(0x20000000) == 0x08000000 && XX(0x08000000) == 0x02000000
      && XX(0x02000000) == 0x00800000
    ensures XX(0x00800000) == 0x00200000 && XX(0x00200000) == 0x00080000 && XX(0x00080000) == 0x00020000
      && XX(0x00020000) == 0x00008000
  {
  }

  lemma {:induction false} SquarePowers8()
    ensures XX(0x00008000) == 0x00002000 && XX(0x00002000) == 0x00000800 && XX(0x00000800) == 0x00000200
      && XX(0x00000200) == 0x00000080
    ensures XX(0x00000080) == 0x00000020 && XX(0x00000020) == 0x00000008 && XX(0x00000008) == 0x00000002
      && XX(0x00000002) == 0xedb88320
  {
  }

  lemma {:induction false} SquarePowers16()
    ensures XX(0xedb88320) == 0x3b6e20c8 && XX(0x3b6e20c8) == 0x0edb8832 && XX(0x0edb8832) == 0xee0e612c
      && XX(0xee0e612c) == 0x3b83984b
    ensures XX(0x3b83984b) == 0x958424a2 && XX(0x958424a2) == 0xc8d98a08 && XX(0xc8d98a08) == 0x32366282
      && XX(0x32366282) == 0xe1351b80
  {
  }

  lemma {:induction false} SquarePowers24()
    ensures XX(0xe1351b80) == 0x384d46e0 && XX(0x384d46e0) == 0x0e1351b8 && XX(0x0e1351b8) == 0x0384d46e
      && XX(0x0384d46e) == 0xed59b63b
    ensures XX(0xed59b63b) == 0xa032af3e && XX(0xa032af3e) == 0xc5b428ef && XX(0xc5b428ef) == 0xaa09c88b
      && XX(0xaa09c88b) == 0xb1e6b092
  {
  }

  lemma {:induction false} MulSquare(a: bv32)
    ensures Mul(a, a) == Square(a)
  {
    hide Mul, Plus, Eight, Shift8, XX, SquareBits, Spent;
    AllSpent(a);
    SquareIs(a, 32);
    OneIs();
    SquarePowers0();
    SquarePowers8();
    SquarePowers16();
    SquarePowers24();
    SquareEight(a, 0x80000000, 24);
    SquareEight(Shift8(a), 0x00008000, 16);
    SquareEight(Shift8(Shift8(a)), 0xedb88320, 8);
    SquareEight(Shift8(Shift8(Shift8(a))), 0xe1351b80, 0);
    SquareStep(Shift8(Shift8(Shift8(Shift8(a)))), 0xb1e6b092, 0);
    PlusZero(Eight(Shift8(Shift8(Shift8(a))), 0xe1351b80, 0x384d46e0, 0x0e1351b8, 0x0384d46e, 0xed59b63b, 0xa032af3e,
                   0xc5b428ef, 0xaa09c88b));
  }

  // ----- the powers x^(2^k), which repeat after 32

  /** x2n_table as crc32.h gives it. */
  function SquaresOfX(): (t: seq<bv32>)
    ensures |t| == 32
  {
    [0x40000000, 0x20000000, 0x08000000, 0x00800000, 0x00008000, 0xedb88320, 0xb1e6b092, 0xa06a2517,
     0xed627dae, 0x88d14467, 0xd7bbfe6a, 0xec447f11, 0x8e7ea170, 0x6427800e, 0x4d47bae0, 0x09fe548f,
     0x83852d0f, 0x30362f1a, 0x7b5a9cc3, 0x31fec169, 0x9fec022a, 0x6c8dedc4, 0x15d6874d, 0x5fde7a4e,
     0xbad90e37, 0x2e4e5eef, 0x4eaba214, 0xa8a472c0, 0x429a969e, 0x148d302a, 0xc40ba6d0, 0xc4e22c3c]
  }

  lemma {:induction false} SquaresFrom0()
    ensures Square(0x40000000) == 0x20000000 && Square(0x20000000) == 0x08000000
    ensures Square(0x08000000) == 0x00800000 && Square(0x00800000) == 0x00008000
  {
  }

  lemma {:induction false} SquaresFrom4()
    ensures Square(0x00008000) == 0xedb88320 && Square(0xedb88320) == 0xb1e6b092
    ensures Square(0xb1e6b092) == 0xa06a2517 && Square(0xa06a2517) == 0xed627dae
  {
  }

  lemma {:induction false} SquaresFrom8()
    ensures Square(0xed627dae) == 0x88d14467 && Square(0x88d14467) == 0xd7bbfe6a
    ensures Square(0xd7bbfe6a) == 0xec447f11 && Square(0xec447f11) == 0x8e7ea170
  {
  }

  lemma {:induction false} SquaresFrom12()
    ensures Square(0x8e7ea170) == 0x6427800e && Square(0x6427800e) == 0x4d47bae0
    ensures Square(0x4d47bae0) == 0x09fe548f && Square(0x09fe548f) == 0x83852d0f
  {
  }

  lemma {:induction false} SquaresFrom16()
    ensures Square(0x83852d0f) == 0x30362f1a && Square(0x30362f1a) == 0x7b5a9cc3
    ensures Square(0x7b5a9cc3) == 0x31fec169 && Square(0x31fec169) == 0x9fec022a
  {
  }

  lemma {:induction false} SquaresFrom20()
    ensures Square(0x9fec022a) == 0x6c8dedc4 && Square(0x6c8dedc4) == 0x15d6874d
    ensures Square(0x15d6874d) == 0x5fde7a4e && Square(0x5fde7a4e) == 0xbad90e37
  {
  }

  lemma {:induction false} SquaresFrom24()
    ensures Square(0xbad90e37) == 0x2e4e5eef && Square(0x2e4e5eef) == 0x4eaba214
    ensures Square(0x4eaba214) == 0xa8a472c0 && Square(0xa8a472c0) == 0x429a969e
  {
  }

  lemma {:induction false} SquaresFrom28()
    ensures Square(0x429a969e) == 0x148d302a && Square(0x148d302a) == 0xc40ba6d0
    ensures Square(0xc40ba6d0) == 0xc4e22c3c && Square(0xc4e22c3c) == 0x40000000
  {
  }

  /** Each entry of the table is the square of the one before, and the first that of the last. */
  lemma {:induction false} SquareTable(k: nat)
    requires k < 32
    ensures Mul(SquaresOfX()[k], SquaresOfX()[k]) == SquaresOfX()[if k == 31 then 0 else k + 1]
  {
    hide Mul, Square;
    MulSquare(SquaresOfX()[k]);
    if k < 8 {
      SquaresFrom0();
      SquaresFrom4();
    } else if k < 16 {
      SquaresFrom8();
      SquaresFrom12();
    } else if k < 24 {
      SquaresFrom16();
      SquaresFrom20();
    } else {
      SquaresFrom24();
      SquaresFrom28();
    }
  }

  lemma {:induction false} FirstPower()
    ensures SquaresOfX()[0] == XN(ONE, 1)
  {
    assert XN(ONE, 1) == X(XN(ONE, 0));
  }

  /** x^(2^k), for every k: the table is cyclic. */
  lemma {:induction false} PowerTable(k: nat)
    ensures XN(ONE, Pow2(k)) == SquaresOfX()[k % 32]
  {
    hide Mul, XN, SquaresOfX;
    if k == 0 {
      FirstPower();
    } else {
      PowerTable(k - 1);
      PowersAdd(Pow2(k - 1), Pow2(k - 1));
      SquareTable((k - 1) % 32);
    }
  }

  // ----- what the product means: polynomials of any degree, modulo x^32 + x^26 + ... + 1

  /** The residue of the polynomial whose coefficients are the bits of v, the constant one the lowest. */
  function Residue(v: nat): bv32 {
    if v == 0 then 0 else Plus(if v % 2 == 1 then 0x8000_0000 else 0, X(Residue(v / 2)))
  }

  /** The product of two polynomials: multiplication without carries. */
  function Carryless(u: nat, v: nat): nat {
    if u == 0 then 0 else Xor(if u % 2 == 1 then v else 0, 2 * Carryless(u / 2, v))
  }

  lemma {:induction false} ResidueOdd(v: nat)
    ensures Residue(v) == Plus(if v % 2 == 1 then 0x8000_0000 else 0, X(Residue(v / 2)))
  {
    hide Plus, X;
    XZero();
    PlusZero(0);
  }

  lemma {:induction false} ResidueXor(u: nat, v: nat)
    ensures Residue(Xor(u, v)) == Plus(Residue(u), Residue(v))
    decreases u + v
  {
    hide *;
    ResidueZero();
    XorZero(u);
    XorZero(v);
    PlusZero(Residue(u));
    PlusZero(Residue(v));
    if u > 0 && v > 0 {
      XorHalf(u, v);
      ResidueXor(u / 2, v / 2);
      ResidueOdd(u);
      ResidueOdd(v);
      ResidueOdd(Xor(u, v));
      XLinear(Residue(u / 2), Residue(v / 2));
      var a: bv32 := if u % 2 == 1 then 0x8000_0000 else 0;
      var b: bv32 := if v % 2 == 1 then 0x8000_0000 else 0;
      PlusFour(a, X(Residue(u / 2)), b, X(Residue(v / 2)));
      PlusZero(a);
      PlusZero(b);
    }
  }

  lemma {:induction false} ResidueZero()
    ensures Residue(0) == 0
  {
  }

  lemma {:induction false} ResidueDouble(v: nat)
    ensures Residue(2 * v) == X(Residue(v))
  {
    hide Plus, X;
    ResidueOdd(2 * v);
    PlusZero(X(Residue(v)));
  }

  /** multmodp's product of residues is the residue of the product. */
  lemma {:induction false} ResidueProduct(u: nat, v: nat)
    ensures Residue(Carryless(u, v)) == Mul(Residue(u), Residue(v))
    decreases u
  {
    hide Residue, X, Plus, Mul, Xor;
    ResidueZero();
    if u == 0 {
      MulCommutes(0, Residue(v));
      MulIs(Residue(v), 0);
      MulZero(Residue(v), 32);
    } else {
      ResidueProduct(u / 2, v);
      var w := Carryless(u / 2, v);
      ResidueXor(if u % 2 == 1 then v else 0, 2 * w);
      ResidueDouble(w);
      ResidueOdd(u);
      var a: bv32 := if u % 2 == 1 then 0x8000_0000 else 0;
      MulDistributes(Residue(v), a, X(Residue(u / 2)));
      MulTimesX(Residue(u / 2), Residue(v));
      OneIs();
      MulOne(Residue(v));
      MulCommutes(ONE, Residue(v));
      MulCommutes(0, Residue(v));
      MulIs(Residue(v), 0);
      MulZero(Residue(v), 32);
    }
  }

  /** The residue of the CRC polynomial itself, x^32 included, is zero. */
  lemma {:induction false} ResidueOfPolynomial()
    ensures Residue(0x1_04c1_1db7) == 0
  {
    assert Residue(0x1) == 0x80000000;
    assert Residue(0x2) == 0x40000000;
    assert Residue(0x4) == 0x20000000;
    assert Residue(0x8) == 0x10000000;
    assert Residue(0x10) == 0x08000000;
    assert Residue(0x20) == 0x04000000;
    assert Residue(0x41) == 0x82000000;
    assert Residue(0x82) == 0x41000000;
    assert Residue(0x104) == 0x20800000;
    assert Residue(0x209) == 0x90400000;
    assert Residue(0x413) == 0xc8200000;
    assert Residue(0x826) == 0x64100000;
    assert Residue(0x104c) == 0x32080000;
    assert Residue(0x2098) == 0x19040000;
    assert Residue(0x4130) == 0x0c820000;
    assert Residue(0x8260) == 0x06410000;
    assert Residue(0x104c1) == 0x83208000;
    assert Residue(0x20982) == 0x41904000;
    assert Residue(0x41304) == 0x20c82000;
    assert Residue(0x82608) == 0x10641000;
    assert Residue(0x104c11) == 0x88320800;
    assert Residue(0x209823) == 0xc4190400;
    assert Residue(0x413047) == 0xe20c8200;
    assert Residue(0x82608e) == 0x71064100;
    assert Residue(0x104c11d) == 0xb8832080;
    assert Residue(0x209823b) == 0xdc419040;
    assert Residue(0x4130476) == 0x6e20c820;
    assert Residue(0x82608ed) == 0xb7106410;
    assert Residue(0x104c11db) == 0xdb883208;
    assert Residue(0x209823b6) == 0x6dc41904;
    assert Residue(0x4130476d) == 0xb6e20c82;
    assert Residue(0x82608edb) == 0xdb710641;
    assert Residue(0x104c11db7) == 0x00000000;
  }
}
