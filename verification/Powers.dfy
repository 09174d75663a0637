/** Powers of two, shifts and masks on unbounded integers. */
module Powers {

  function Pow2(k: nat): (p: nat)
    ensures p >= 1
  {
    if k == 0 then 1 else 2 * Pow2(k - 1)
  }

  /** v << n. */
  function Shl(v: nat, n: nat): nat {
    if n == 0 then v else 2 * Shl(v, n - 1)
  }

  /** v >> n. */
  function Shr(v: nat, n: nat): nat {
    if n == 0 then v else Shr(v / 2, n - 1)
  }

  /** The low n bits of v: v & ((1 << n) - 1). */
  function Low(v: nat, n: nat): (r: nat)
    ensures r < Pow2(n)
  {
    if n == 0 then 0 else 2 * Low(v / 2, n - 1) + v % 2
  }

  lemma {:induction false} Pow2Monotone(j: nat, k: nat)
    requires j <= k
    ensures Pow2(j) <= Pow2(k)
    decreases k - j
  {
    if j < k { Pow2Monotone(j, k - 1); }
  }

  lemma {:induction false} Pow2Values()
    ensures Pow2(1) == 2 && Pow2(3) == 8 && Pow2(5) == 32 && Pow2(8) == 256 && Pow2(15) == 0x8000
    ensures Pow2(20) == 0x10_0000 && Pow2(21) == 0x20_0000 && Pow2(24) == 0x100_0000
    ensures Pow2(31) == 0x8000_0000 && Pow2(32) == 0x1_0000_0000
  {
    assert Pow2(8) == 256;
    assert Pow2(16) == 0x1_0000;
    assert Pow2(24) == 0x100_0000;
  }

  lemma {:induction false} ShlZero(n: nat)
    ensures Shl(0, n) == 0
  {
    if n > 0 { ShlZero(n - 1); }
  }

  lemma {:induction false} ShlByte(v: nat)
    ensures Shl(v, 8) == 256 * v
  {
    var v4 := Shl(v, 4);
    assert v4 == 2 * Shl(v, 3) && Shl(v, 3) == 2 * Shl(v, 2) && Shl(v, 2) == 2 * Shl(v, 1)
      && Shl(v, 1) == 2 * Shl(v, 0);
    assert Shl(v, 8) == 2 * Shl(v, 7) && Shl(v, 7) == 2 * Shl(v, 6) && Shl(v, 6) == 2 * Shl(v, 5)
      && Shl(v, 5) == 2 * v4;
  }

  lemma {:induction false} ShlAdd(a: nat, b: nat, n: nat)
    ensures Shl(a + b, n) == Shl(a, n) + Shl(b, n)
  {
    if n > 0 { ShlAdd(a, b, n - 1); }
  }

  lemma {:induction false} ShlShl(v: nat, m: nat, n: nat)
    ensures Shl(Shl(v, m), n) == Shl(v, m + n)
  {
    if n > 0 { ShlShl(v, m, n - 1); }
  }

  lemma {:induction false} ShrShl(v: nat, k: nat, m: nat)
    ensures Shr(Shl(v, k), m) == if k <= m then Shr(v, m - k) else Shl(v, k - m)
  {
    if k > 0 && m > 0 {
      assert Shl(v, k) / 2 == Shl(v, k - 1);
      ShrShl(v, k - 1, m - 1);
    }
  }

  lemma {:induction false} LowShl(v: nat, k: nat, n: nat)
    requires k <= n
    ensures Low(Shl(v, k), n) == Shl(Low(v, n - k), k)
  {
    if k > 0 {
      assert Shl(v, k) / 2 == Shl(v, k - 1) && Shl(v, k) % 2 == 0;
      LowShl(v, k - 1, n - 1);
    }
  }

  lemma {:induction false} LowSmall(v: nat, n: nat)
    requires v < Pow2(n)
    ensures Low(v, n) == v
  {
    if n > 0 { LowSmall(v / 2, n - 1); }
  }

  /** High and low part make up the whole. */
  lemma {:induction false} HighLow(v: nat, n: nat)
    ensures v == Shl(Shr(v, n), n) + Low(v, n)
  {
    if n > 0 {
      HighLow(v / 2, n - 1);
    }
  }

  lemma {:induction false} ShrBound(v: nat, m: nat, n: nat)
    requires v < Pow2(m + n)
    ensures Shr(v, n) < Pow2(m)
  {
    if n > 0 { ShrBound(v / 2, m, n - 1); }
  }

  lemma {:induction false} ShlBound(p: nat, m: nat, v: nat, n: nat)
    requires p < Pow2(m) && v < Pow2(n)
    ensures Shl(p, n) + v < Pow2(m + n)
  {
    if n > 0 { ShlBound(p, m, v / 2, n - 1); }
  }

  lemma {:induction false} ShrMonotone(v: nat, w: nat, n: nat)
    requires v <= w
    ensures Shr(v, n) <= Shr(w, n)
  {
    if n > 0 { ShrMonotone(v / 2, w / 2, n - 1); }
  }

  lemma {:induction false} ShlMonotone(v: nat, w: nat, n: nat)
    ensures v <= w <==> Shl(v, n) <= Shl(w, n)
  {
    if n > 0 { ShlMonotone(v, w, n - 1); }
  }

  lemma {:induction false} ShlOne(n: nat)
    ensures Shl(1, n) == Pow2(n)
  {
    if n > 0 { ShlOne(n - 1); }
  }

  lemma {:induction false} ShlOfPow2(m: nat, n: nat)
    ensures Shl(Pow2(m), n) == Pow2(m + n)
  {
    if n > 0 { ShlOfPow2(m, n - 1); }
  }

  lemma {:induction false} LowLow(v: nat, j: nat, k: nat)
    requires j <= k
    ensures Low(Low(v, k), j) == Low(v, j)
  {
    if j > 0 { LowLow(v / 2, j - 1, k - 1); }
  }

  /** An odd multiple of 2^h that fits below a power of two leaves room for one more 2^h. */
  lemma {:induction false} MultiplesOfPower(q: nat, h: nat, m: nat)
    requires q >= 1 && q * Pow2(h + 1) + Pow2(h) <= Pow2(m)
    ensures (q + 1) * Pow2(h + 1) <= Pow2(m)
  {
    PowerNext(h);
    if m <= h + 1 {
      Pow2Monotone(m, h + 1);
      hide Pow2;
      NextMultiple(q, Pow2(h), 1);
    } else {
      PowerSplits(h + 1, m);
      hide Pow2;
      NextMultiple(q, Pow2(h), Pow2(m - h - 1));
    }
  }

  lemma {:induction false} PowerNext(h: nat)
    ensures Pow2(h + 1) == 2 * Pow2(h)
  {
  }

  lemma {:induction false} NextMultiple(q: nat, p: nat, r: nat)
    requires q >= 1 && p >= 1 && q * (2 * p) + p <= r * (2 * p)
    ensures (q + 1) * (2 * p) <= r * (2 * p) && r >= 2
  {
    assert r <= q ==> r * (2 * p) <= q * (2 * p);
    assert (q + 1) * (2 * p) <= r * (2 * p);
  }

  lemma {:induction false} PowerSplits(j: nat, m: nat)
    requires j <= m
    ensures Pow2(m) == Pow2(m - j) * Pow2(j)
  {
    if j > 0 { PowerSplits(j - 1, m - 1); }
  }

  lemma {:induction false} OddAbove(q: nat, p: nat, v: nat)
    requires v == q * (2 * p) + p && v > p
    ensures q >= 1
  {
  }
}
