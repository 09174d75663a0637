/** UPDATE_HASH: the running hash of three bytes. */
module HashKey {
  import opened Bytes
  import opened Powers
  import opened Xors

  lemma {:induction false} LowXorSame(a: nat, a': nat, b: nat, k: nat)
    requires Low(a, k) == Low(a', k)
    ensures Low(Xor(a, b), k) == Low(Xor(a', b), k)
  {
    hide *;
    LowXor(a, b, k);
    LowXor(a', b, k);
  }

  /** Exclusive or can be cancelled. */
  lemma {:induction false} XorCancel(a: nat, c: nat, d: nat, k: nat)
    requires Low(Xor(a, c), k) == Low(Xor(a, d), k)
    ensures Low(c, k) == Low(d, k)
  {
    hide *;
    LowXor(a, c, k);
    LowXor(a, d, k);
    XorTwice(Low(c, k), Low(a, k));
    XorTwice(Low(d, k), Low(a, k));
  }

  lemma {:induction false} ShiftedOut(v: nat, s: nat, k: nat)
    ensures Low(Shl(v, s), k) == if k <= s then 0 else Shl(Low(v, k - s), s)
    decreases k
  {
    if k > 0 {
      if s > 0 {
        assert Shl(v, s) / 2 == Shl(v, s - 1) && Shl(v, s) % 2 == 0;
        ShiftedOut(v, s - 1, k - 1);
      }
    }
  }

  // ----- the hash

  /** The parameters that deflateInit2_ sets: three shifts push the oldest byte out. */
  predicate Params(bits: nat, shift: nat) {
    8 <= bits <= 16 && shift == (bits + 2) / 3
  }

  function Update(bits: nat, shift: nat, h: nat, c: byte): (r: nat)
    ensures r < Pow2(bits)
  {
    Low(Xor(Shl(h, shift), c), bits)
  }

  function Key(bits: nat, shift: nat, a: byte, b: byte, c: byte): (r: nat)
    ensures r < Pow2(bits)
  {
    Update(bits, shift, Update(bits, shift, Update(bits, shift, 0, a), b), c)
  }

  /** Only the low bits that are not shifted out matter to the next value. */
  lemma {:induction false} UpdateLow(bits: nat, shift: nat, g: nat, h: nat, c: byte, k: nat)
    requires k <= bits && (k > shift ==> Low(g, k - shift) == Low(h, k - shift))
    ensures Low(Update(bits, shift, g, c), k) == Low(Update(bits, shift, h, c), k)
  {
    hide Xor, Shl;
    ShiftedOut(g, shift, k);
    ShiftedOut(h, shift, k);
    LowLow(Xor(Shl(g, shift), c), k, bits);
    LowLow(Xor(Shl(h, shift), c), k, bits);
    LowXorSame(Shl(g, shift), Shl(h, shift), c, k);
  }

  /** After three updates the value before no longer matters. */
  lemma {:induction false} UpdatesForget(bits: nat, shift: nat, h: nat, a: byte, b: byte, c: byte)
    requires Params(bits, shift)
    ensures Update(bits, shift, Update(bits, shift, Update(bits, shift, h, a), b), c) == Key(bits, shift, a, b, c)
  {
    hide Update, Low, Pow2;
    var h1, g1 := Update(bits, shift, h, a), Update(bits, shift, 0, a);
    var h2, g2 := Update(bits, shift, h1, b), Update(bits, shift, g1, b);
    if bits > 2 * shift { UpdateLow(bits, shift, h, 0, a, bits - 2 * shift); }
    if bits > shift { UpdateLow(bits, shift, h1, g1, b, bits - shift); }
    UpdateLow(bits, shift, h2, g2, c, bits);
    LowSmall(Update(bits, shift, h2, c), bits);
    LowSmall(Update(bits, shift, g2, c), bits);
  }

  /** Equal keys and equal first two bytes leave no choice for the third. */
  lemma {:induction false} ThirdByte(bits: nat, shift: nat, a: byte, b: byte, c: byte, d: byte)
    requires Params(bits, shift) && Key(bits, shift, a, b, c) == Key(bits, shift, a, b, d)
    ensures c == d
  {
    hide Xor, Shl, Low;
    XorCancel(Shl(Update(bits, shift, Update(bits, shift, 0, a), b), shift), c, d, bits);
    Pow2Monotone(8, bits);
    Pow2Values();
    LowSmall(c, bits);
    LowSmall(d, bits);
  }

  /** What was shifted out before matters no more than what is shifted out now. */
  lemma {:induction false} LowShifted(v: nat, s: nat, k: nat)
    ensures Low(Shl(Low(v, k), s), k) == Low(Shl(v, s), k)
  {
    hide *;
    ShiftedOut(v, s, k);
    ShiftedOut(Low(v, k), s, k);
    if k > s { LowLow(v, k - s, k); }
  }

  lemma {:induction false} UpdateIs(bits: nat, shift: nat, h: nat, c: byte)
    ensures Update(bits, shift, h, c) == Low(Xor(Shl(h, shift), c), bits)
  {
  }

  /** An update in terms of the value that has not been cut off yet. */
  lemma {:induction false} UpdateUncut(bits: nat, shift: nat, x: nat, c: byte)
    ensures Update(bits, shift, Low(x, bits), c) == Low(Xor(Shl(x, shift), c), bits)
  {
    hide *;
    UpdateIs(bits, shift, Low(x, bits), c);
    LowShifted(x, shift, bits);
    LowXor(Shl(Low(x, bits), shift), c, bits);
    LowXor(Shl(x, shift), c, bits);
  }

  lemma {:induction false} KeyIs(bits: nat, shift: nat, a: byte, b: byte, c: byte)
    ensures Key(bits, shift, a, b, c) == Update(bits, shift, Update(bits, shift, Update(bits, shift, 0, a), b), c)
  {
  }

  lemma {:induction false} ShlTwice(v: nat, s: nat, t: nat)
    ensures Shl(Shl(v, s), t) == Shl(v, s + t) && Shl(0, s) == 0
  {
    hide *;
    if t > 0 {
      ShlTwice(v, s, t - 1);
      ShlIs(Shl(v, s), t);
      ShlIs(v, s + t);
    }
    ShlZero(s);
    ShlIs(Shl(v, s), 0);
  }

  lemma {:induction false} ShlIs(v: nat, n: nat)
    ensures Shl(v, n) == if n == 0 then v else 2 * Shl(v, n - 1)
  {
  }

  /** The key is made of the three bytes, each shifted by shift against the next, as far as they fit. */
  lemma {:induction false} KeyOfBytes(bits: nat, shift: nat, a: byte, b: byte, c: byte)
    ensures Key(bits, shift, a, b, c) == Low(Xor(Xor(Shl(a, 2 * shift), Shl(b, shift)), c), bits)
  {
    hide *;
    KeyIs(bits, shift, a, b, c);
    UpdateIs(bits, shift, 0, a);
    ShlTwice(0, shift, 0);
    XorZero(a);
    UpdateUncut(bits, shift, a, b);
    UpdateUncut(bits, shift, Xor(Shl(a, shift), b), c);
    ShlXor(Shl(a, shift), b, shift);
    ShlTwice(a, shift, shift);
  }
}
