/** Exclusive or of numbers, bit by bit. */
module Xors {
  import opened Powers

  function Xor(a: nat, b: nat): nat
    decreases a + b
  {
    if a == 0 && b == 0 then 0 else 2 * Xor(a / 2, b / 2) + (a % 2 + b % 2) % 2
  }

  lemma {:induction false} XorHalf(a: nat, b: nat)
    ensures Xor(a, b) / 2 == Xor(a / 2, b / 2) && Xor(a, b) % 2 == (a % 2 + b % 2) % 2
  {
  }

  lemma {:induction false} Halves(a: nat, b: nat)
    requires a / 2 == b / 2 && a % 2 == b % 2
    ensures a == b
  {
  }

  lemma {:induction false} XorZero(a: nat)
    ensures Xor(a, 0) == a == Xor(0, a)
  {
    if a > 0 { XorZero(a / 2); }
  }

  lemma {:induction false} XorSelf(a: nat)
    ensures Xor(a, a) == 0
  {
    if a > 0 { XorSelf(a / 2); }
  }

  lemma {:induction false} XorCommutes(a: nat, b: nat)
    ensures Xor(a, b) == Xor(b, a)
    decreases a + b
  {
    if a + b > 0 { XorCommutes(a / 2, b / 2); }
  }

  lemma {:induction false} XorAssociates(a: nat, b: nat, c: nat)
    ensures Xor(Xor(a, b), c) == Xor(a, Xor(b, c))
    decreases a + b + c
  {
    hide *;
    if a + b + c > 0 {
      XorHalf(a, b);
      XorHalf(b, c);
      XorHalf(Xor(a, b), c);
      XorHalf(a, Xor(b, c));
      XorAssociates(a / 2, b / 2, c / 2);
      Halves(Xor(Xor(a, b), c), Xor(a, Xor(b, c)));
    } else {
      XorZero(0);
    }
  }

  /** A term that occurs twice disappears. */
  lemma {:induction false} XorTwice(a: nat, b: nat)
    ensures Xor(Xor(a, b), b) == a == Xor(b, Xor(b, a))
  {
    hide *;
    XorAssociates(a, b, b);
    XorAssociates(b, b, a);
    XorSelf(b);
    XorZero(a);
  }

  lemma {:induction false} XorBound(a: nat, b: nat, k: nat)
    requires a < Pow2(k) && b < Pow2(k)
    ensures Xor(a, b) < Pow2(k)
  {
    if k > 0 {
      XorHalf(a, b);
      XorBound(a / 2, b / 2, k - 1);
    }
  }

  lemma {:induction false} LowStep(v: nat, k: nat)
    ensures Low(v, k + 1) == 2 * Low(v / 2, k) + v % 2 && Low(v, k + 1) / 2 == Low(v / 2, k)
      && Low(v, k + 1) % 2 == v % 2
    ensures Low(v, 0) == 0
  {
  }

  lemma {:induction false} LowXor(a: nat, b: nat, k: nat)
    ensures Low(Xor(a, b), k) == Xor(Low(a, k), Low(b, k))
  {
    hide *;
    LowStep(Xor(a, b), 0);
    LowStep(a, 0);
    LowStep(b, 0);
    if k > 0 {
      LowStep(a, k - 1);
      LowStep(b, k - 1);
      LowStep(Xor(a, b), k - 1);
      XorHalf(a, b);
      XorHalf(Low(a, k), Low(b, k));
      LowXor(a / 2, b / 2, k - 1);
      Halves(Low(Xor(a, b), k), Xor(Low(a, k), Low(b, k)));
    } else {
      XorZero(0);
    }
  }

  lemma {:induction false} ShrXor(a: nat, b: nat, k: nat)
    ensures Shr(Xor(a, b), k) == Xor(Shr(a, k), Shr(b, k))
  {
    if k > 0 {
      XorHalf(a, b);
      ShrXor(a / 2, b / 2, k - 1);
    }
  }

  /** Bits that do not overlap are added. */
  lemma {:induction false} XorDisjoint(h: nat, l: nat, k: nat)
    requires l < Pow2(k)
    ensures Xor(Shl(h, k), l) == Shl(h, k) + l
  {
    if k == 0 {
      XorZero(h);
    } else {
      XorHalf(Shl(h, k), l);
      assert Shl(h, k) / 2 == Shl(h, k - 1) && Shl(h, k) % 2 == 0;
      XorDisjoint(h, l / 2, k - 1);
    }
  }

  lemma {:induction false} ShlXor(a: nat, b: nat, k: nat)
    ensures Shl(Xor(a, b), k) == Xor(Shl(a, k), Shl(b, k))
  {
    if k > 0 {
      ShlXor(a, b, k - 1);
      XorHalf(Shl(a, k), Shl(b, k));
      assert Shl(a, k) / 2 == Shl(a, k - 1) && Shl(b, k) / 2 == Shl(b, k - 1);
    }
  }
}
