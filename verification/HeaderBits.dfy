/** The bitmap bhtab of bucket headers, 32 bits a word, and the word-skipping scans over it. */
module HeaderBits {

  function Mask(k: nat): bv32
    requires k < 32
  {
    1 << (k as bv32)
  }

  function Bit(w: bv32, k: nat): bool
    requires k < 32
  {
    w & Mask(k) != 0
  }

  function SetIn(w: bv32, k: nat): bv32
    requires k < 32
  {
    w | Mask(k)
  }

  function ClearIn(w: bv32, k: nat): bv32
    requires k < 32
  {
    w & !Mask(k)
  }

  lemma {:induction false} AsWord(k: nat)
    requires k < 32
    ensures k == 0 ==> k as bv32 == 0
    ensures k == 1 ==> k as bv32 == 1
    ensures k == 2 ==> k as bv32 == 2
    ensures k == 3 ==> k as bv32 == 3
    ensures k == 4 ==> k as bv32 == 4
    ensures k == 5 ==> k as bv32 == 5
    ensures k == 6 ==> k as bv32 == 6
    ensures k == 7 ==> k as bv32 == 7
    ensures k == 8 ==> k as bv32 == 8
    ensures k == 9 ==> k as bv32 == 9
    ensures k == 10 ==> k as bv32 == 10
    ensures k == 11 ==> k as bv32 == 11
    ensures k == 12 ==> k as bv32 == 12
    ensures k == 13 ==> k as bv32 == 13
    ensures k == 14 ==> k as bv32 == 14
    ensures k == 15 ==> k as bv32 == 15
    ensures k == 16 ==> k as bv32 == 16
    ensures k == 17 ==> k as bv32 == 17
    ensures k == 18 ==> k as bv32 == 18
    ensures k == 19 ==> k as bv32 == 19
    ensures k == 20 ==> k as bv32 == 20
    ensures k == 21 ==> k as bv32 == 21
    ensures k == 22 ==> k as bv32 == 22
    ensures k == 23 ==> k as bv32 == 23
    ensures k == 24 ==> k as bv32 == 24
    ensures k == 25 ==> k as bv32 == 25
    ensures k == 26 ==> k as bv32 == 26
    ensures k == 27 ==> k as bv32 == 27
    ensures k == 28 ==> k as bv32 == 28
    ensures k == 29 ==> k as bv32 == 29
    ensures k == 30 ==> k as bv32 == 30
    ensures k == 31 ==> k as bv32 == 31
  {
  }

  lemma {:induction false} AsWordBack(k: nat)
    requires k < 32
    ensures k as bv32 < 32 && (k as bv32) as int == k
  {
    AsWord(k);
  }

  lemma {:induction false} ShiftedOnes(k: bv32, m: bv32)
    requires k < 32 && m < 32
    ensures k != m ==> ((1 as bv32) << k) & ((1 as bv32) << m) == 0
    ensures (1 as bv32) << k != 0
  {
  }

  lemma {:induction false} MasksApart(k: nat, m: nat)
    requires k < 32 && m < 32
    ensures k != m ==> Mask(k) & Mask(m) == 0
    ensures Mask(k) != 0
  {
    AsWordBack(k);
    AsWordBack(m);
    ShiftedOnes(k as bv32, m as bv32);
  }

  lemma {:induction false} OrElsewhere(w: bv32, a: bv32, b: bv32)
    requires a & b == 0
    ensures (w | a) & b == w & b
  {
  }

  lemma {:induction false} OrHere(w: bv32, a: bv32)
    ensures (w | a) & a == a
  {
  }

  lemma {:induction false} ClearElsewhere(w: bv32, a: bv32, b: bv32)
    requires a & b == 0
    ensures (w & !a) & b == w & b
  {
  }

  lemma {:induction false} ClearHere(w: bv32, a: bv32)
    ensures (w & !a) & a == 0
  {
  }

  lemma {:induction false} FullWord(a: bv32)
    ensures 0xffff_ffff & a == a && 0 & a == 0
  {
  }

  lemma {:induction false} TestOr(w: bv32, a: bv32, b: bv32)
    ensures a & b == 0 ==> ((w | a) & b != 0) == (w & b != 0)
    ensures a != 0 ==> (w | a) & a != 0
  {
    OrHere(w, a);
    if a & b == 0 { OrElsewhere(w, a, b); }
  }

  lemma {:induction false} BitIs(w: bv32, k: nat)
    requires k < 32
    ensures Bit(w, k) == (w & Mask(k) != 0)
  {
  }

  lemma {:induction false} BitOr(w: bv32, k: nat, m: nat)
    requires k < 32 && m < 32
    ensures Bit(w | Mask(k), m) == (m == k || Bit(w, m))
  {
    hide *;
    MasksApart(k, m);
    TestOr(w, Mask(k), Mask(m));
    BitIs(w | Mask(k), m);
    BitIs(w, m);
  }

  lemma {:induction false} BitClear(w: bv32, k: nat, m: nat)
    requires k < 32 && m < 32
    ensures Bit(w & !Mask(k), m) == (m != k && Bit(w, m))
  {
    hide *;
    BitIs(w & !Mask(k), m);
    if m == k {
      ClearHere(w, Mask(k));
    } else {
      MasksApart(k, m);
      BitIs(w, m);
      ClearElsewhere(w, Mask(k), Mask(m));
    }
  }

  /** v is w with bit k set to b. */
  ghost predicate WordUpdate(w: bv32, v: bv32, k: nat, b: bool) {
    forall m {:trigger Bit(v, m)} :: 0 <= m < 32 ==> Bit(v, m) == if m == k then b else Bit(w, m)
  }

  lemma {:induction false} BitOrAll(w: bv32, k: nat)
    requires k < 32
    ensures WordUpdate(w, SetIn(w, k), k, true)
  {
    hide Bit, Mask;
    forall m | 0 <= m < 32 ensures Bit(w | Mask(k), m) == (m == k || Bit(w, m)) {
      BitOr(w, k, m);
    }
  }

  lemma {:induction false} BitClearAll(w: bv32, k: nat)
    requires k < 32
    ensures WordUpdate(w, ClearIn(w, k), k, false)
  {
    hide Bit, Mask;
    forall m | 0 <= m < 32 ensures Bit(w & !Mask(k), m) == (m != k && Bit(w, m)) {
      BitClear(w, k, m);
    }
  }

  lemma {:induction false} BitOfFull(k: nat)
    requires k < 32
    ensures Bit(0xffff_ffff, k) && !Bit(0, k)
  {
    hide Mask;
    MasksApart(k, k);
    FullWord(Mask(k));
  }

  /** The bitmap as a sequence of header flags. */
  ghost function Flags(bh: seq<bv32>): (s: seq<bool>)
    ensures |s| == 32 * |bh|
  {
    seq(32 * |bh|, z requires 0 <= z < 32 * |bh| => Bit(bh[z / 32], z % 32))
  }

  lemma {:induction false} FlagAt(bh: seq<bv32>, z: nat)
    requires z < 32 * |bh|
    ensures Flags(bh)[z] == Bit(bh[z / 32], z % 32)
  {
  }

  /** ISSET_BH. */
  method IsSet(bhtab: array<bv32>, z: nat) returns (b: bool)
    requires z < 32 * bhtab.Length
    ensures b == Flags(bhtab[..])[z]
  {
    hide *;
    FlagAt(bhtab[..], z);
    b := Bit(bhtab[z / 32], z % 32);
  }

  /** SET_BH. */
  method SetBH(bhtab: array<bv32>, zz: nat)
    requires zz < 32 * bhtab.Length
    modifies bhtab
    ensures Flags(bhtab[..]) == Flags(old(bhtab[..]))[zz := true]
  {
    hide *;
    ghost var bh := bhtab[..];
    var i, k := zz / 32, zz % 32;
    BitOrAll(bh[i], k);
    bhtab[i] := SetIn(bhtab[i], k);
    assert bhtab[..] == bh[i := SetIn(bh[i], k)];
    FlagsUpdate(bh, SetIn(bh[i], k), zz, true);
  }

  /** CLEAR_BH. */
  method ClearBH(bhtab: array<bv32>, zz: nat)
    requires zz < 32 * bhtab.Length
    modifies bhtab
    ensures Flags(bhtab[..]) == Flags(old(bhtab[..]))[zz := false]
  {
    hide *;
    ghost var bh := bhtab[..];
    var i, k := zz / 32, zz % 32;
    BitClearAll(bh[i], k);
    bhtab[i] := ClearIn(bhtab[i], k);
    assert bhtab[..] == bh[i := ClearIn(bh[i], k)];
    FlagsUpdate(bh, ClearIn(bh[i], k), zz, false);
  }

  lemma {:induction false} FlagsUpdate(bh: seq<bv32>, w: bv32, zz: nat, b: bool)
    requires zz < 32 * |bh|
    requires WordUpdate(bh[zz / 32], w, zz % 32, b)
    ensures Flags(bh[zz / 32 := w]) == Flags(bh)[zz := b]
  {
    hide Bit, Flags;
    var bh' := bh[zz / 32 := w];
    forall z | 0 <= z < 32 * |bh| ensures Flags(bh')[z] == Flags(bh)[zz := b][z] {
      FlagAt(bh, z);
      FlagAt(bh', z);
      if z / 32 == zz / 32 && z % 32 == zz % 32 { assert z == zz; }
    }
  }

  lemma {:induction false} WordFlags(bh: seq<bv32>, k: nat)
    requires k % 32 == 0 && k < 32 * |bh|
    ensures bh[k / 32] == 0xffff_ffff ==> forall z :: k <= z < k + 32 ==> Flags(bh)[z]
    ensures bh[k / 32] == 0 ==> forall z :: k <= z < k + 32 ==> !Flags(bh)[z]
  {
    forall z | k <= z < k + 32
      ensures bh[k / 32] == 0xffff_ffff ==> Flags(bh)[z]
      ensures bh[k / 32] == 0 ==> !Flags(bh)[z]
    {
      assert z / 32 == k / 32;
      FlagAt(bh, z);
      BitOfFull(z % 32);
    }
  }

  /** The first clear flag from k0 on, found a word at a time; stop is any clear flag. */
  method NextClear(bhtab: array<bv32>, k0: nat, ghost stop: nat) returns (k: nat)
    requires k0 <= stop < 32 * bhtab.Length && !Flags(bhtab[..])[stop]
    ensures k0 <= k <= stop && !Flags(bhtab[..])[k]
    ensures forall z :: k0 <= z < k ==> Flags(bhtab[..])[z]
  {
    hide *;
    k := k0;
    var b := IsSet(bhtab, k);
    while b && k % 32 != 0
      invariant k0 <= k <= stop && b == Flags(bhtab[..])[k]
      invariant forall z :: k0 <= z < k ==> Flags(bhtab[..])[z]
      decreases stop - k
    {
      k := k + 1;
      b := IsSet(bhtab, k);
    }
    if b {
      while bhtab[k / 32] == 0xffff_ffff
        invariant k0 <= k <= stop && k % 32 == 0
        invariant forall z :: k0 <= z < k ==> Flags(bhtab[..])[z]
        decreases stop - k
      {
        WordFlags(bhtab[..], k);
        k := k + 32;
      }
      b := IsSet(bhtab, k);
      while b
        invariant k0 <= k <= stop && b == Flags(bhtab[..])[k]
        invariant forall z :: k0 <= z < k ==> Flags(bhtab[..])[z]
        decreases stop - k
      {
        k := k + 1;
        b := IsSet(bhtab, k);
      }
    }
  }

  /** The first set flag from k0 on; stop is any set flag. */
  method NextSet(bhtab: array<bv32>, k0: nat, ghost stop: nat) returns (k: nat)
    requires k0 <= stop < 32 * bhtab.Length && Flags(bhtab[..])[stop]
    ensures k0 <= k <= stop && Flags(bhtab[..])[k]
    ensures forall z :: k0 <= z < k ==> !Flags(bhtab[..])[z]
  {
    hide *;
    k := k0;
    var b := IsSet(bhtab, k);
    while !b && k % 32 != 0
      invariant k0 <= k <= stop && b == Flags(bhtab[..])[k]
      invariant forall z :: k0 <= z < k ==> !Flags(bhtab[..])[z]
      decreases stop - k
    {
      k := k + 1;
      b := IsSet(bhtab, k);
    }
    if !b {
      while bhtab[k / 32] == 0
        invariant k0 <= k <= stop && k % 32 == 0
        invariant forall z :: k0 <= z < k ==> !Flags(bhtab[..])[z]
        decreases stop - k
      {
        WordFlags(bhtab[..], k);
        k := k + 32;
      }
      b := IsSet(bhtab, k);
      while !b
        invariant k0 <= k <= stop && b == Flags(bhtab[..])[k]
        invariant forall z :: k0 <= z < k ==> !Flags(bhtab[..])[z]
        decreases stop - k
      {
        k := k + 1;
        b := IsSet(bhtab, k);
      }
    }
  }
}
