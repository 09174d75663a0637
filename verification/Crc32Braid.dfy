/** The braided calculation of crc32_z: five registers over interleaved words of four or eight bytes. */
module Crc32Braid {
  import opened Powers
  import opened Gf2
  import opened Crc32

  /** Braids. */
  const N := 5

  /** Bytes in a word: 8 where there is a 64-bit type to hold it, or else 4. */
  type Width = w: nat | w == 4 || w == 8 witness 4

  /** Where word j starts. */
  function Off(w: Width, j: nat): nat {
    if w == 4 then 4 * j else 8 * j
  }

  // ----- words; those of four bytes leave the upper half empty

  /** A byte below a word. */
  function Cons(x: bv64, b: bv8): bv64 {
    (x << 8) | (b as bv64)
  }

  /** A word in memory, the first byte the lowest. */
  function Load(buf: seq<bv8>, p: nat, n: nat): bv64
    requires p + n <= |buf|
    decreases n
  {
    if n == 0 then 0 else Cons(Load(buf, p + 1, n - 1), buf[p])
  }

  function Lowest(x: bv64): bv32 {
    (x & 0xff) as bv32
  }

  function Rest(x: bv64): bv64 {
    x >> 8
  }

  function Xor(x: bv64, y: bv64): bv64 {
    x ^ y
  }

  function Wide(c: bv32): bv64 {
    c as bv64
  }

  function Narrow(x: bv64): bv32 {
    (x & 0xffff_ffff) as bv32
  }

  /** x >> 8 * n: x without its n lowest bytes. */
  function Above(x: bv64, n: nat): bv64 {
    if n == 0 then x else Above(Rest(x), n - 1)
  }

  lemma {:induction false} AboveNext(x: bv64, n: nat)
    ensures Above(x, n + 1) == Rest(Above(x, n)) && Above(x, 0) == x
    decreases n
  {
    hide Rest;
    if n > 0 { AboveNext(Rest(x), n - 1); }
  }

  lemma {:induction false} ConsParts(x: bv64, b: bv8)
    requires x < 0x100_0000_0000_0000
    ensures Rest(Cons(x, b)) == x && Lowest(Cons(x, b)) == Byte32(b)
  {
  }

  lemma {:induction false} XorParts(x: bv64, y: bv64)
    ensures Rest(Xor(x, y)) == Xor(Rest(x), Rest(y)) && Lowest(Xor(x, y)) == Plus(Lowest(x), Lowest(y))
  {
  }

  lemma {:induction false} WideParts(c: bv32)
    ensures Rest(Wide(c)) == Wide(HighBytes(c)) && Lowest(Wide(c)) == LowByte(c)
  {
  }

  lemma {:induction false} LowestIsByte(x: bv64)
    ensures LowByte(Lowest(x)) == Lowest(x) && Lowest(0) == 0 && Rest(0) == 0
  {
  }

  lemma {:induction false} ConsSmall(x: bv64, b: bv8)
    ensures x < 1 ==> Cons(x, b) < 0x100
    ensures x < 0x100 ==> Cons(x, b) < 0x1_0000
    ensures x < 0x1_0000 ==> Cons(x, b) < 0x100_0000
    ensures x < 0x100_0000 ==> Cons(x, b) < 0x1_0000_0000
  {
  }

  lemma {:induction false} ConsLarger(x: bv64, b: bv8)
    ensures x < 0x1_0000_0000 ==> Cons(x, b) < 0x100_0000_0000
    ensures x < 0x100_0000_0000 ==> Cons(x, b) < 0x1_0000_0000_0000
    ensures x < 0x1_0000_0000_0000 ==> Cons(x, b) < 0x100_0000_0000_0000
  {
  }

  /** What n bytes stay below. */
  function Bound(n: nat): bv64
    requires n <= 7
  {
    if n == 0 then 1 else if n == 1 then 0x100 else if n == 2 then 0x1_0000 else if n == 3 then 0x100_0000
    else if n == 4 then 0x1_0000_0000 else if n == 5 then 0x100_0000_0000 else if n == 6 then 0x1_0000_0000_0000
    else 0x100_0000_0000_0000
  }

  lemma {:induction false} BoundNext(x: bv64, b: bv8, n: nat)
    requires 1 <= n <= 7 && x < Bound(n - 1)
    ensures Cons(x, b) < Bound(n)
  {
    hide Cons;
    ConsSmall(x, b);
    ConsLarger(x, b);
  }

  lemma {:induction false} BoundLargest(x: bv64, n: nat)
    requires n <= 7 && x < Bound(n)
    ensures x < 0x100_0000_0000_0000
  {
  }

  lemma {:induction false} LoadSmall(buf: seq<bv8>, p: nat, n: nat)
    requires p + n <= |buf| && n <= 7
    ensures Load(buf, p, n) < Bound(n)
    decreases n
  {
    hide Cons;
    if n > 0 {
      LoadSmall(buf, p + 1, n - 1);
      hide Bound;
      BoundNext(Load(buf, p + 1, n - 1), buf[p], n);
    }
  }

  lemma {:induction false} LoadParts(buf: seq<bv8>, p: nat, n: nat)
    requires 1 <= n <= 8 && p + n <= |buf|
    ensures Rest(Load(buf, p, n)) == Load(buf, p + 1, n - 1) && Lowest(Load(buf, p, n)) == Byte32(buf[p])
  {
    hide Cons, Bound, Rest, Lowest, Byte32;
    LoadSmall(buf, p + 1, n - 1);
    BoundLargest(Load(buf, p + 1, n - 1), n - 1);
    ConsParts(Load(buf, p + 1, n - 1), buf[p]);
  }

  // ----- what a word amounts to

  /** The n bytes of x one after the other, m steps on from the first. */
  function Taken(x: bv64, n: nat, m: nat): bv32
    requires 8 * n <= m
  {
    if n == 0 then 0 else Plus(XN(Lowest(x), m), Taken(Rest(x), n - 1, m - 8))
  }

  lemma {:induction false} TakenIs(x: bv64, n: nat, m: nat)
    requires 8 * n <= m
    ensures n == 0 ==> Taken(x, n, m) == 0
    ensures n > 0 ==> Taken(x, n, m) == Plus(XN(Lowest(x), m), Taken(Rest(x), n - 1, m - 8))
  {
    hide XN, Plus, Lowest, Rest;
  }

  lemma {:induction false} TakenPlus(x: bv64, y: bv64, n: nat, m: nat)
    requires 8 * n <= m
    ensures Taken(Xor(x, y), n, m) == Plus(Taken(x, n, m), Taken(y, n, m))
    decreases n
  {
    hide *;
    TakenIs(x, n, m);
    TakenIs(y, n, m);
    TakenIs(Xor(x, y), n, m);
    if n == 0 {
      PlusZero(0);
    } else {
      XorParts(x, y);
      TakenPlus(Rest(x), Rest(y), n - 1, m - 8);
      XNLinear(Lowest(x), Lowest(y), m);
      PlusFour(XN(Lowest(x), m), XN(Lowest(y), m), Taken(Rest(x), n - 1, m - 8), Taken(Rest(y), n - 1, m - 8));
    }
  }

  /** c without its n lowest bytes. */
  function Down(c: bv32, n: nat): bv32 {
    if n == 0 then c else Down(HighBytes(c), n - 1)
  }

  lemma {:induction false} DownNone(n: nat)
    ensures Down(0, n) == 0
  {
    if n > 0 { DownNone(n - 1); }
  }

  lemma {:induction false} AllDown(c: bv32, n: nat)
    requires n >= 4
    ensures Down(c, n) == 0
  {
    var d := HighBytes(HighBytes(HighBytes(HighBytes(c))));
    AllHigh(c);
    hide HighBytes;
    assert Down(c, n) == Down(HighBytes(c), n - 1) == Down(HighBytes(HighBytes(c)), n - 2)
      == Down(HighBytes(HighBytes(HighBytes(c))), n - 3) == Down(d, n - 4);
    DownNone(n - 4);
  }

  lemma {:induction false} AllHigh(c: bv32)
    ensures HighBytes(HighBytes(HighBytes(HighBytes(c)))) == 0
  {
  }

  /** Taking a register apart: its lowest byte goes through eight steps more than the rest. */
  lemma {:induction false} RegisterParts(c: bv32, m: nat)
    ensures XN(c, 8 + m) == Plus(XN(LowByte(c), 8 + m), XN(HighBytes(c), m))
  {
    hide *;
    EightSteps(c);
    XNAdd(c, 8, m);
    XNLinear(HighBytes(c), XN(LowByte(c), 8), m);
    XNAdd(LowByte(c), 8, m);
    PlusCommutes(XN(HighBytes(c), m), XN(LowByte(c), 8 + m));
  }

  lemma {:induction false} TakenSome(c: bv32, n: nat, m: nat)
    requires 8 * n <= m && Down(c, n) == 0
    ensures Taken(Wide(c), n, m) == XN(c, m)
    decreases n
  {
    hide Taken, XN, Plus, Wide, HighBytes, LowByte, Lowest, Rest;
    TakenIs(Wide(c), n, m);
    if n == 0 {
      XNZero(m);
    } else {
      WideParts(c);
      TakenSome(HighBytes(c), n - 1, m - 8);
      RegisterParts(c, m - 8);
    }
  }

  /** A register added to a word goes through all steps. */
  lemma {:induction false} TakenWide(c: bv32, n: nat, m: nat)
    requires 4 <= n && 8 * n <= m
    ensures Taken(Wide(c), n, m) == XN(c, m)
  {
    hide *;
    AllDown(c, n);
    TakenSome(c, n, m);
  }

  lemma {:induction false} RegisterFront(c: bv32, buf: seq<bv8>, p: nat, n: nat)
    requires p + n < |buf|
    ensures Register(c, buf, p, n + 1) == Register(XN(Plus(c, Byte32(buf[p])), 8), buf, p + 1, n)
  {
    hide XN, Plus, Byte32;
    RegisterSplit(c, buf, p, 1, n);
    assert Register(c, buf, p, 1) == XN(Plus(Register(c, buf, p, 0), Byte32(buf[p])), 8);
  }

  lemma {:induction false} RegisterFrom(c: bv32, buf: seq<bv8>, p: nat, n: nat)
    requires p + n <= |buf|
    ensures Register(c, buf, p, n) == Plus(XN(c, 8 * n), Register(0, buf, p, n))
  {
    hide *;
    PlusZero(c);
    RegisterLinear(c, 0, buf, p, n);
  }

  /** A word read from memory amounts to the register over its bytes. */
  lemma {:induction false} TakenLoad(buf: seq<bv8>, p: nat, n: nat, m: nat)
    requires n <= 8 && p + n <= |buf| && 8 * n <= m
    ensures Taken(Load(buf, p, n), n, m) == XN(Register(0, buf, p, n), m - 8 * n)
    decreases n
  {
    hide *;
    TakenIs(Load(buf, p, n), n, m);
    if n == 0 {
      RegisterNone(0, buf, p);
      XNZero(m);
    } else {
      var b := Byte32(buf[p]);
      LoadParts(buf, p, n);
      TakenLoad(buf, p + 1, n - 1, m - 8);
      RegisterFront(0, buf, p, n - 1);
      PlusZero(b);
      RegisterFrom(XN(b, 8), buf, p + 1, n - 1);
      XNAdd(b, 8, 8 * (n - 1));
      var r := Register(0, buf, p + 1, n - 1);
      XNLinear(XN(b, 8 * n), r, m - 8 * n);
      XNAdd(b, 8 * n, m - 8 * n);
    }
  }

  /** A register and a word, m steps on. */
  lemma {:induction false} TakenWord(c: bv32, buf: seq<bv8>, p: nat, w: Width, m: nat)
    requires p + w <= |buf| && 8 * w <= m
    ensures Taken(Xor(Wide(c), Load(buf, p, w)), w, m)
      == Plus(XN(c, m), XN(Register(0, buf, p, w), m - 8 * w))
  {
    hide *;
    TakenPlus(Wide(c), Load(buf, p, w), w, m);
    TakenWide(c, w, m);
    TakenLoad(buf, p, w, m);
  }

  /** Going over the bytes of a word is adding the word and taking it as a whole. */
  lemma {:induction false} WordOfBytes(c: bv32, buf: seq<bv8>, p: nat, w: Width)
    requires p + w <= |buf|
    ensures Register(c, buf, p, w) == Taken(Xor(Wide(c), Load(buf, p, w)), w, 8 * w)
  {
    hide *;
    TakenWord(c, buf, p, w, 8 * w);
    RegisterFrom(c, buf, p, w);
    NoSteps(Register(0, buf, p, w));
  }

  // ----- crc_word

  /** After k bytes of x the register is c. */
  ghost predicate PartTaken(x: bv64, w: Width, k: nat, c: bv32) {
    k <= w && Taken(x, w, 8 * w) == Plus(Taken(Above(x, k), w - k, 8 * (w - k)), XN(c, 8 * (w - k)))
  }

  lemma {:induction false} PartStart(x: bv64, w: Width)
    ensures PartTaken(x, w, 0, 0) && Xor(Above(x, 0), Wide(0)) == x
  {
    XNZero(8 * w);
    PlusZero(Taken(x, w, 8 * w));
  }

  lemma {:induction false} PartEnd(x: bv64, w: Width, c: bv32)
    requires PartTaken(x, w, w, c) && Above(x, w) == 0
    ensures Narrow(Xor(Above(x, w), Wide(c))) == c == Taken(x, w, 8 * w)
  {
    NoSteps(c);
    PlusZero(c);
    hide XN, Plus, Above;
  }

  lemma {:induction false} PartOpen(x: bv64, w: Width, k: nat, c: bv32)
    requires k <= w
    ensures PartTaken(x, w, k, c) <==>
      Taken(x, w, 8 * w) == Plus(Taken(Above(x, k), w - k, 8 * (w - k)), XN(c, 8 * (w - k)))
  {
    hide Taken, XN, Plus, Above;
  }

  lemma {:induction false} PartNext(x: bv64, w: Width, k: nat, c: bv32, e: bv32)
    requires PartTaken(x, w, k, c) && k < w && e == XN(Plus(Lowest(Above(x, k)), LowByte(c)), 8)
    ensures PartTaken(x, w, k + 1, Plus(HighBytes(c), e))
  {
    hide *;
    var y, m := Above(x, k), 8 * (w - k) - 8;
    PartOpen(x, w, k, c);
    PartOpen(x, w, k + 1, Plus(HighBytes(c), e));
    TakenIs(y, w - k, 8 * (w - k));
    AboveNext(x, k);
    RegisterParts(c, m);
    XNLinear(HighBytes(c), e, m);
    XNAdd(Plus(Lowest(y), LowByte(c)), 8, m);
    XNLinear(Lowest(y), LowByte(c), 8 + m);
    Crossed(XN(Lowest(y), 8 + m), Taken(Rest(y), w - k - 1, m), XN(LowByte(c), 8 + m), XN(HighBytes(c), m));
  }

  lemma {:induction false} Crossed(a: bv32, t: bv32, l: bv32, h: bv32)
    ensures Plus(Plus(a, t), Plus(l, h)) == Plus(t, Plus(h, Plus(a, l)))
  {
    hide *;
    PlusFour(a, t, l, h);
    PlusCommutes(Plus(a, l), Plus(t, h));
    PlusAssociates(t, h, Plus(a, l));
  }

  /** One step on a word is one on the bytes still in it and on the register. */
  lemma {:induction false} WordStep(table: seq<bv32>, x: bv64, k: nat, c: bv32)
    requires CrcTableOk(table)
    ensures var y := Xor(Above(x, k), Wide(c));
      var v := Plus(Lowest(Above(x, k)), LowByte(c));
      Index(Lowest(y)) < |table| && Xor(Rest(y), Wide(table[Index(Lowest(y))]))
        == Xor(Above(x, k + 1), Wide(Plus(HighBytes(c), XN(v, 8))))
  {
    hide *;
    var y := Xor(Above(x, k), Wide(c));
    XorParts(Above(x, k), Wide(c));
    WideParts(c);
    AboveNext(x, k);
    LowestIsByte(y);
    TableAt(table, Lowest(y));
    Regrouped(Rest(Above(x, k)), HighBytes(c), table[Index(Lowest(y))]);
  }

  lemma {:induction false} Regrouped(x: bv64, c: bv32, d: bv32)
    ensures Xor(Xor(x, Wide(c)), Wide(d)) == Xor(x, Wide(Plus(c, d)))
  {
    hide *;
    XorAssociates(x, Wide(c), Wide(d));
    WideSum(c, d);
  }

  lemma {:induction false} XorAssociates(x: bv64, y: bv64, z: bv64)
    ensures Xor(Xor(x, y), z) == Xor(x, Xor(y, z))
  {
  }

  lemma {:induction false} WideSum(c: bv32, d: bv32)
    ensures Xor(Wide(c), Wide(d)) == Wide(Plus(c, d))
  {
  }

  /** crc_word. */
  method CrcWord(table: seq<bv32>, x: bv64, w: Width) returns (crc: bv32)
    requires CrcTableOk(table) && Above(x, w) == 0
    ensures crc == Taken(x, w, 8 * w)
  {
    hide *;
    var data := x;
    ghost var c: bv32 := 0;
    PartStart(x, w);
    var k: nat := 0;
    while k < w
      invariant 0 <= k <= w && data == Xor(Above(x, k), Wide(c)) && PartTaken(x, w, k, c)
    {
      WordStep(table, x, k, c);
      PartNext(x, w, k, c, XN(Plus(Lowest(Above(x, k)), LowByte(c)), 8));
      c := Plus(HighBytes(c), XN(Plus(Lowest(Above(x, k)), LowByte(c)), 8));
      data := Xor(Rest(data), Wide(table[Index(Lowest(data))]));
      k := k + 1;
    }
    PartEnd(x, w, c);
    crc := Narrow(data);
  }

  // ----- the braid tables

  /** Table k takes byte k of a word over the rest of a block of words. */
  ghost predicate BraidTableOk(table: seq<bv32>, w: Width, k: nat) {
    && k < w && |table| == 256
    && forall i {:trigger table[i]} :: 0 <= i < 256 ==> table[i] == XN(ByteNo(i), 40 * w - 8 * k)
  }

  ghost predicate BraidTablesOk(tables: seq<seq<bv32>>, w: Width) {
    |tables| == w && forall k {:trigger tables[k]} :: 0 <= k < w ==> BraidTableOk(tables[k], w, k)
  }

  lemma {:induction false} BraidAt(tables: seq<seq<bv32>>, w: Width, k: nat, x: bv64)
    requires BraidTablesOk(tables, w) && k < w
    ensures k < |tables| && Index(Lowest(x)) < |tables[k]|
      && tables[k][Index(Lowest(x))] == XN(Lowest(x), 40 * w - 8 * k)
  {
    hide XN, Index, ByteNo, LowByte, Lowest;
    assert BraidTableOk(tables[k], w, k);
    IndexIs(Lowest(x));
    LowestIsByte(x);
  }

  function TopByte(i: bv32): bv32 {
    i << 24
  }

  lemma {:induction false} TopByteDown(i: bv32)
    requires i < 256
    ensures TopByte(i) & 0xff == 0 && HighBytes(TopByte(i)) & 0xff == 0 && HighBytes(HighBytes(TopByte(i))) & 0xff == 0
    ensures HighBytes(HighBytes(HighBytes(TopByte(i)))) == i && (i != 0 ==> TopByte(i) != 0)
  {
  }

  /** A byte at the top of a word comes down in 24 steps. */
  lemma {:induction false} ByteFromTop(i: bv32, n: nat)
    requires i < 256
    ensures XN(TopByte(i), 24 + n) == XN(i, n)
  {
    hide *;
    TopByteDown(i);
    var a := TopByte(i);
    ShiftOut(a);
    ShiftOut(HighBytes(a));
    ShiftOut(HighBytes(HighBytes(a)));
    XNAdd(a, 8, 16 + n);
    XNAdd(HighBytes(a), 8, 8 + n);
    XNAdd(HighBytes(HighBytes(a)), 8, n);
  }

  /** One of the tables that braid makes. */
  method BraidTable(x2n: seq<bv32>, w: Width, k: nat) returns (table: seq<bv32>)
    requires PowerTableOk(x2n) && k < w
    ensures BraidTableOk(table, w, k)
  {
    hide *;
    var e := (N * w + 3 - k) * 8;
    SizesAre();
    NoShiftLeft(e);
    var p := X2nModP(x2n, e, 0);
    table := [0];
    ByteNoSmall(0);
    XNZero(40 * w - 8 * k);
    var i := 1;
    while i < 256
      invariant 1 <= i <= 256 && |table| == i && forall j {:trigger table[j]} :: 0 <= j < i ==>
        table[j] == XN(ByteNo(j), 40 * w - 8 * k)
    {
      var b := ByteNo(i);
      ByteNoSmall(i);
      TopByteDown(b);
      var q := MultModP(TopByte(b), p);
      MulCommutes(TopByte(b), p);
      XNMul(TopByte(b), e);
      ByteFromTop(b, 40 * w - 8 * k);
      table := table + [q];
      i := i + 1;
    }
    BraidDone(table, w, k);
  }

  lemma {:induction false} SizesAre()
    ensures N == 5
  {
  }

  lemma {:induction false} NoShiftLeft(e: nat)
    ensures Shl(e, 0) == e
  {
  }

  lemma {:induction false} BraidDone(table: seq<bv32>, w: Width, k: nat)
    requires k < w && |table| == 256 && forall j {:trigger table[j]} :: 0 <= j < 256 ==>
      table[j] == XN(ByteNo(j), 40 * w - 8 * k)
    ensures BraidTableOk(table, w, k)
  {
    hide XN;
  }

  /** braid. */
  method MakeBraidTables(x2n: seq<bv32>, w: Width) returns (tables: seq<seq<bv32>>)
    requires PowerTableOk(x2n)
    ensures BraidTablesOk(tables, w)
  {
    hide PowerTableOk, BraidTableOk;
    tables := [];
    var k: nat := 0;
    while k < w
      invariant 0 <= k <= w && |tables| == k
      invariant forall j {:trigger tables[j]} :: 0 <= j < k ==> BraidTableOk(tables[j], w, j)
    {
      var table := BraidTable(x2n, w, k);
      tables := tables + [table];
      k := k + 1;
    }
  }

  /** The first k bytes have been looked up. */
  ghost predicate LookedUp(x: bv64, w: Width, k: nat, crc: bv32) {
    k <= w && Taken(x, w, 40 * w) == Plus(crc, Taken(Above(x, k), w - k, 40 * w - 8 * k))
  }

  lemma {:induction false} LookUpFirst(x: bv64, w: Width)
    ensures LookedUp(x, w, 1, XN(Lowest(x), 40 * w)) && Above(x, 0) == x
  {
    hide XN, Plus, Taken, Above, Lowest, Rest;
    TakenIs(x, w, 40 * w);
    AboveNext(x, 0);
  }

  lemma {:induction false} LookUpNext(x: bv64, w: Width, k: nat, crc: bv32)
    requires LookedUp(x, w, k, crc) && k < w
    ensures LookedUp(x, w, k + 1, Plus(crc, XN(Lowest(Above(x, k)), 40 * w - 8 * k)))
  {
    hide XN, Plus, Taken, Above, Lowest, Rest;
    var y, m := Above(x, k), 40 * w - 8 * k;
    TakenIs(y, w - k, m);
    AboveNext(x, k);
    PlusAssociates(crc, XN(Lowest(y), m), Taken(Rest(y), w - k - 1, m - 8));
  }

  lemma {:induction false} LookUpEnd(x: bv64, w: Width, crc: bv32)
    requires LookedUp(x, w, w, crc)
    ensures crc == Taken(x, w, 40 * w)
  {
    hide XN, Above;
    PlusZero(crc);
  }

  /** A word taken over a block of words, byte by byte through the tables. */
  method BraidWord(tables: seq<seq<bv32>>, w: Width, word: bv64) returns (crc: bv32)
    requires BraidTablesOk(tables, w)
    ensures crc == Taken(word, w, 40 * w)
  {
    hide *;
    BraidAt(tables, w, 0, word);
    LookUpFirst(word, w);
    crc := tables[0][Index(Lowest(word))];
    var k: nat := 1;
    while k < w
      invariant 1 <= k <= w && LookedUp(word, w, k, crc)
    {
      BraidAt(tables, w, k, Above(word, k));
      LookUpNext(word, w, k, crc);
      crc := Plus(crc, tables[k][Index(Lowest(Above(word, k)))]);
      k := k + 1;
    }
    LookUpEnd(word, w, crc);
  }

  // ----- blocks of five words

  /** What the first n registers amount to, put into the words of a block. */
  function Folded(crcs: seq<bv32>, w: Width, n: nat): bv32
    requires n <= |crcs|
  {
    if n == 0 then 0 else XN(Plus(Folded(crcs, w, n - 1), crcs[n - 1]), 8 * w)
  }

  /** The next word with its register, and what the words before it came to. */
  function Joined(c: bv32, buf: seq<bv8>, q: nat, w: Width, before: bv32): bv64
    requires q + w <= |buf|
  {
    Xor(Xor(Wide(c), Load(buf, q, w)), Wide(before))
  }

  /** The registers combined over the first n words at p. */
  function Combined(crcs: seq<bv32>, buf: seq<bv8>, p: nat, w: Width, n: nat): bv32
    requires n <= |crcs| && p + Off(w, n) <= |buf|
  {
    if n == 0 then 0
    else Taken(Joined(crcs[n - 1], buf, p + Off(w, n - 1), w, Combined(crcs, buf, p, w, n - 1)), w, 8 * w)
  }

  lemma {:induction false} OffNext(w: Width, n: nat)
    ensures Off(w, n + 1) == Off(w, n) + w && Off(w, 0) == 0 && Off(w, 1) == w && Off(w, 5) == 5 * w
  {
  }

  lemma {:induction false} JoinedIs(c: bv32, buf: seq<bv8>, q: nat, w: Width, before: bv32)
    requires q + w <= |buf|
    ensures Taken(Joined(c, buf, q, w, before), w, 8 * w)
      == Plus(Plus(XN(c, 8 * w), Register(0, buf, q, w)), XN(before, 8 * w))
  {
    hide Taken, XN, Plus, Register, Xor, Wide, Load;
    TakenPlus(Xor(Wide(c), Load(buf, q, w)), Wide(before), w, 8 * w);
    TakenWide(before, w, 8 * w);
    TakenWord(c, buf, q, w, 8 * w);
    NoSteps(Register(0, buf, q, w));
  }

  lemma {:induction false} CombinedStep(crcs: seq<bv32>, buf: seq<bv8>, p: nat, w: Width, n: nat)
    requires 1 <= n <= |crcs| && p + Off(w, n) <= |buf|
    ensures p + Off(w, n - 1) + w <= |buf|
    ensures Combined(crcs, buf, p, w, n)
      == Plus(Plus(XN(crcs[n - 1], 8 * w), Register(0, buf, p + Off(w, n - 1), w)),
              XN(Combined(crcs, buf, p, w, n - 1), 8 * w))
  {
    hide Taken, XN, Plus, Register, Xor, Wide, Load, Joined, Off;
    OffNext(w, n - 1);
    JoinedIs(crcs[n - 1], buf, p + Off(w, n - 1), w, Combined(crcs, buf, p, w, n - 1));
  }

  lemma {:induction false} CombinedIs(crcs: seq<bv32>, buf: seq<bv8>, p: nat, w: Width, n: nat)
    requires n <= |crcs| && p + Off(w, n) <= |buf|
    ensures Combined(crcs, buf, p, w, n) == Plus(Folded(crcs, w, n), Register(0, buf, p, Off(w, n)))
  {
    hide XN, Plus, Load, Taken, Xor, Wide, Joined, Register, Off;
    OffNext(w, 0);
    if n == 0 {
      PlusZero(0);
      RegisterNone(0, buf, p);
    } else {
      OffNext(w, n - 1);
      var q := p + Off(w, n - 1);
      var f, r := Folded(crcs, w, n - 1), Register(0, buf, p, Off(w, n - 1));
      CombinedStep(crcs, buf, p, w, n);
      CombinedIs(crcs, buf, p, w, n - 1);
      RegisterSplit(0, buf, p, Off(w, n - 1), w);
      RegisterFrom(r, buf, q, w);
      XNLinear(f, r, 8 * w);
      XNLinear(f, crcs[n - 1], 8 * w);
      Rearranged(XN(crcs[n - 1], 8 * w), Register(0, buf, q, w), XN(f, 8 * w), XN(r, 8 * w));
    }
  }

  lemma {:induction false} Rearranged(c: bv32, l: bv32, f: bv32, r: bv32)
    ensures Plus(Plus(c, l), Plus(f, r)) == Plus(Plus(f, c), Plus(r, l))
  {
    hide *;
    PlusFour(c, l, f, r);
    PlusCommutes(c, f);
    PlusCommutes(l, r);
  }

  /** After a block, each register has its word taken over the block. */
  ghost predicate Advanced(crcs: seq<bv32>, crcs': seq<bv32>, buf: seq<bv8>, p: nat, w: Width) {
    && |crcs| == |crcs'| == 5 && p + Off(w, 5) <= |buf|
    && forall j {:trigger crcs'[j]} :: 0 <= j < 5 ==> AdvancedAt(crcs[j], crcs'[j], buf, p + Off(w, j), w)
  }

  ghost predicate AdvancedAt(c: bv32, c': bv32, buf: seq<bv8>, q: nat, w: Width) {
    q + w <= |buf| && c' == Taken(Xor(Wide(c), Load(buf, q, w)), w, 40 * w)
  }

  lemma {:induction false} AdvancedIs(c: bv32, c': bv32, buf: seq<bv8>, q: nat, w: Width)
    requires AdvancedAt(c, c', buf, q, w)
    ensures q + w <= |buf| && c' == Plus(XN(c, 40 * w), XN(Register(0, buf, q, w), 32 * w))
  {
    hide Taken, XN, Plus, Register, Xor, Wide, Load;
    TakenWord(c, buf, q, w, 40 * w);
  }

  lemma {:induction false} FoldedNext(crcs: seq<bv32>, crcs': seq<bv32>, buf: seq<bv8>, p: nat, w: Width, n: nat)
    requires Advanced(crcs, crcs', buf, p, w) && n <= 5
    ensures p + Off(w, n) <= |buf| && Folded(crcs', w, n) == XN(Combined(crcs, buf, p, w, n), 40 * w)
  {
    hide XN, Plus, Load, Taken, Xor, Wide, Joined, Register, AdvancedAt;
    if n == 0 {
      XNZero(40 * w);
    } else {
      FoldedNext(crcs, crcs', buf, p, w, n - 1);
      var c, m, q := crcs[n - 1], Combined(crcs, buf, p, w, n - 1), p + Off(w, n - 1);
      var r := Register(0, buf, q, w);
      AdvancedIs(c, crcs'[n - 1], buf, q, w);
      CombinedStep(crcs, buf, p, w, n);
      hide Combined;
      OverBlock(c, m, r, w);
    }
  }

  lemma {:induction false} OverBlock(c: bv32, m: bv32, r: bv32, w: Width)
    ensures XN(Plus(XN(m, 40 * w), Plus(XN(c, 40 * w), XN(r, 32 * w))), 8 * w)
      == XN(Plus(Plus(XN(c, 8 * w), r), XN(m, 8 * w)), 40 * w)
  {
    hide *;
    XNLinear(XN(m, 40 * w), Plus(XN(c, 40 * w), XN(r, 32 * w)), 8 * w);
    XNLinear(XN(c, 40 * w), XN(r, 32 * w), 8 * w);
    XNAdd(m, 40 * w, 8 * w);
    XNAdd(c, 40 * w, 8 * w);
    XNAdd(r, 32 * w, 8 * w);
    XNLinear(Plus(XN(c, 8 * w), r), XN(m, 8 * w), 40 * w);
    XNLinear(XN(c, 8 * w), r, 40 * w);
    XNAdd(c, 8 * w, 40 * w);
    XNAdd(m, 8 * w, 40 * w);
    PlusCommutes(XN(m, 48 * w), Plus(XN(c, 48 * w), XN(r, 40 * w)));
  }

  /** The registers stand for register c in front of the next block. */
  ghost predicate Stands(crcs: seq<bv32>, w: Width, c: bv32) {
    |crcs| == 5 && Folded(crcs, w, 5) == XN(c, 40 * w)
  }

  lemma {:induction false} FoldedFirst(c: bv32, w: Width, n: nat)
    requires 1 <= n <= 5
    ensures Folded([c, 0, 0, 0, 0], w, n) == XN(c, 8 * w * n)
  {
    hide XN, Plus;
    var crcs := [c, 0, 0, 0, 0];
    if n == 1 {
      PlusZero(c);
      assert Folded(crcs, w, 0) == 0;
    } else {
      FoldedFirst(c, w, n - 1);
      PlusZero(XN(c, 8 * w * (n - 1)));
      XNAdd(c, 8 * w * (n - 1), 8 * w);
      assert crcs[n - 1] == 0;
    }
  }

  lemma {:induction false} StandsStart(c: bv32, w: Width)
    ensures Stands([c, 0, 0, 0, 0], w, c)
  {
    hide XN, Plus, Folded;
    FoldedFirst(c, w, 5);
  }

  /** The last block gives the register over all bytes. */
  lemma {:induction false} StandsEnd(crcs: seq<bv32>, c: bv32, buf: seq<bv8>, p: nat, w: Width)
    requires Stands(crcs, w, c) && p + Off(w, 5) <= |buf|
    ensures |crcs| == 5 && Combined(crcs, buf, p, w, 5) == Register(c, buf, p, Off(w, 5))
  {
    hide XN, Plus, Folded, Combined, Register, Off;
    OffNext(w, 0);
    CombinedIs(crcs, buf, p, w, 5);
    RegisterFrom(c, buf, p, Off(w, 5));
  }

  lemma {:induction false} StandsNext(crcs: seq<bv32>, crcs': seq<bv32>, c: bv32, buf: seq<bv8>, p: nat, w: Width)
    requires Stands(crcs, w, c) && Advanced(crcs, crcs', buf, p, w)
    ensures p + Off(w, 5) <= |buf| && |crcs'| == 5 && Stands(crcs', w, Register(c, buf, p, Off(w, 5)))
  {
    hide XN, Plus, Folded, Combined, Register, AdvancedAt;
    FoldedNext(crcs, crcs', buf, p, w, 5);
    StandsEnd(crcs, c, buf, p, w);
  }

  /** One block on all braids. */
  method BraidBlock(tables: seq<seq<bv32>>, w: Width, crcs: seq<bv32>, buf: seq<bv8>, p: nat)
    returns (crcs': seq<bv32>)
    requires BraidTablesOk(tables, w) && |crcs| == 5 && p + Off(w, 5) <= |buf|
    ensures Advanced(crcs, crcs', buf, p, w)
  {
    hide Taken, Xor, Wide, Load, BraidTablesOk;
    crcs' := [];
    var j := 0;
    while j < 5
      invariant 0 <= j <= 5 && |crcs'| == j
      invariant forall i {:trigger crcs'[i]} :: 0 <= i < j ==>
        AdvancedAt(crcs[i], crcs'[i], buf, p + Off(w, i), w)
    {
      var c := BraidWord(tables, w, Xor(Wide(crcs[j]), Load(buf, p + Off(w, j), w)));
      crcs' := crcs' + [c];
      j := j + 1;
    }
  }

  lemma {:induction false} WordFits(c: bv32, buf: seq<bv8>, q: nat, w: Width, before: bv32)
    requires q + w <= |buf|
    ensures Above(Joined(c, buf, q, w, before), w) == 0
  {
    var x := Joined(c, buf, q, w, before);
    if w == 4 {
      LoadSmall(buf, q, 4);
      hide Load;
      AboveFour(x);
    } else {
      AboveEight(x);
    }
  }

  lemma {:induction false} AboveSplit(x: bv64, m: nat, n: nat)
    ensures Above(x, m + n) == Above(Above(x, m), n)
    decreases m
  {
    hide Rest;
    if m > 0 { AboveSplit(Rest(x), m - 1, n); }
  }

  lemma {:induction false} AboveTwo(x: bv64)
    ensures Above(x, 2) == Rest(Rest(x))
  {
    hide Rest;
    AboveNext(x, 0);
    AboveNext(x, 1);
  }

  lemma {:induction false} AboveFourIs(x: bv64)
    ensures Above(x, 4) == Rest(Rest(Rest(Rest(x)))) && Above(x, 8) == Above(Above(x, 4), 4)
  {
    hide *;
    AboveTwo(x);
    AboveTwo(Rest(Rest(x)));
    AboveSplit(x, 2, 2);
    AboveSplit(x, 4, 4);
  }

  lemma {:induction false} AboveFour(x: bv64)
    requires x < 0x1_0000_0000
    ensures Above(x, 4) == 0
  {
    AboveFourIs(x);
  }

  lemma {:induction false} AboveEight(x: bv64)
    ensures Above(x, 8) == 0
  {
    var y := Rest(Rest(Rest(Rest(x))));
    assert y < 0x1_0000_0000;
    hide Rest, Above;
    AboveFourIs(x);
    AboveFour(y);
  }

  /** The last block, combining the braids. */
  method LastBlock(table: seq<bv32>, w: Width, crcs: seq<bv32>, buf: seq<bv8>, p: nat) returns (crc: bv32)
    requires CrcTableOk(table) && |crcs| == 5 && p + Off(w, 5) <= |buf|
    ensures crc == Combined(crcs, buf, p, w, 5)
  {
    hide Taken, Joined, CrcTableOk, Above;
    crc := 0;
    var j := 0;
    while j < 5
      invariant 0 <= j <= 5 && crc == Combined(crcs, buf, p, w, j)
    {
      WordFits(crcs[j], buf, p + Off(w, j), w, crc);
      crc := CrcWord(table, Joined(crcs[j], buf, p + Off(w, j), w, crc), w);
      j := j + 1;
    }
  }

  lemma {:induction false} OffBlocks(w: Width, m: nat, n: nat)
    ensures Off(w, 5 * (m + n)) == Off(w, 5 * m) + Off(w, 5 * n) && Off(w, 0) == 0
  {
  }

  /** blks blocks of five words. */
  method Braided(table: seq<bv32>, tables: seq<seq<bv32>>, w: Width, c: bv32, buf: seq<bv8>, p: nat, blks: nat)
    returns (crc: bv32)
    requires CrcTableOk(table) && BraidTablesOk(tables, w) && blks >= 1 && p + Off(w, 5 * blks) <= |buf|
    ensures crc == Register(c, buf, p, Off(w, 5 * blks))
  {
    hide *;
    var crcs := [c, 0, 0, 0, 0];
    StandsStart(c, w);
    RegisterNone(c, buf, p);
    OffBlocks(w, 0, 0);
    var q, left := p, blks - 1;
    while left != 0
      invariant 0 <= left && q == p + Off(w, 5 * (blks - 1 - left)) && |crcs| == 5 && p <= q <= |buf|
      invariant Stands(crcs, w, Register(c, buf, p, q - p))
      decreases left
    {
      OffBlocks(w, blks - 1 - left, 1);
      OffBlocks(w, blks - left, left);
      var crcs' := BraidBlock(tables, w, crcs, buf, q);
      StandsNext(crcs, crcs', Register(c, buf, p, q - p), buf, q, w);
      RegisterSplit(c, buf, p, q - p, Off(w, 5));
      crcs, q, left := crcs', q + Off(w, 5), left - 1;
    }
    OffBlocks(w, blks - 1, 1);
    StandsEnd(crcs, Register(c, buf, p, q - p), buf, q, w);
    RegisterSplit(c, buf, p, q - p, Off(w, 5));
    crc := LastBlock(table, w, crcs, buf, q);
  }

  function Misaligned(w: Width, a: nat): (r: nat)
    ensures r < w
  {
    a % w
  }

  lemma {:induction false} NextAligned(w: Width, a: nat)
    ensures Misaligned(w, a) != 0 ==> Misaligned(w, a + 1) == (if Misaligned(w, a) == w - 1 then 0 else
      Misaligned(w, a) + 1)
  {
    if w == 4 { assert Misaligned(4, a) == a % 4; } else { assert Misaligned(8, a) == a % 8; }
  }

  lemma {:induction false} WholeBlocks(w: Width, len: nat)
    requires len >= N * w
    ensures len / (N * w) >= 1 && Off(w, 5 * (len / (N * w))) <= len
    ensures len / (N * w) * N * w == Off(w, 5 * (len / (N * w)))
  {
    if w == 4 { assert N * w == 20; } else { assert N * w == 40; }
  }

  /**
   * crc32_z: bytes up to a word boundary, blocks of words, and the bytes that are left, for words of four or eight
   * bytes. addr is where buf lies.
   */
  method Crc32Z(table: seq<bv32>, tables: seq<seq<bv32>>, w: Width, crc0: bv32, buf: seq<bv8>, addr: nat)
    returns (crc: bv32)
    requires CrcTableOk(table) && BraidTablesOk(tables, w)
    ensures crc == Crc(crc0, buf)
  {
    hide *;
    crc := Inverted(crc0);
    ghost var c := crc;
    SizesAre();
    var p, len := 0, |buf|;
    RegisterNone(c, buf, 0);
    if len >= N * w + w - 1 {
      while len != 0 && Misaligned(w, addr + p) != 0
        invariant 0 <= p && 0 <= len && p + len == |buf| && crc == Register(c, buf, 0, p)
        invariant p + (if Misaligned(w, addr + p) == 0 then 0 else w - Misaligned(w, addr + p)) <= w - 1
        decreases len
      {
        NextAligned(w, addr + p);
        RegisterNext(c, buf, 0, p);
        TableStep(table, crc, buf[p]);
        crc := Plus(HighBytes(crc), table[Index(Plus(crc, Byte32(buf[p])))]);
        p, len := p + 1, len - 1;
      }
      WholeBlocks(w, len);
      var blks := len / (N * w);
      len := len - blks * N * w;
      crc := Braided(table, tables, w, crc, buf, p, blks);
      RegisterSplit(c, buf, 0, p, Off(w, 5 * blks));
      p := p + Off(w, 5 * blks);
    }
    ghost var r := crc;
    crc := Bytewise(table, crc, buf, p, len);
    RegisterSplit(c, buf, 0, p, len);
    CrcIs(crc0, buf);
    crc := Inverted(crc);
  }

  lemma {:induction false} CrcIs(crc: bv32, buf: seq<bv8>)
    ensures Crc(crc, buf) == Inverted(Register(Inverted(crc), buf, 0, |buf|))
  {
    hide Register, Inverted;
  }
}
