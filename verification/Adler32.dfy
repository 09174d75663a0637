/** adler32: the checksum with deferred reductions, and the combination of two checksums. */
module Adler32 {
  import opened Bytes

  type u32 = x: int | 0 <= x < 0x1_0000_0000
  type i64 = x: int | -0x8000_0000_0000_0000 <= x < 0x8000_0000_0000_0000

  /** The largest prime below 65536. */
  const BASE := 65521

  // ----- the checksum by definition: both sums reduced at every byte (section 2.2 of RFC 1950)

  function SumA(a: nat, s: seq<byte>, n: nat): nat
    requires n <= |s|
  {
    if n == 0 then a % 65521 else (SumA(a, s, n - 1) + s[n - 1] as nat) % 65521
  }

  function SumB(a: nat, b: nat, s: seq<byte>, n: nat): nat
    requires n <= |s|
  {
    if n == 0 then b % 65521 else (SumB(a, b, s, n - 1) + SumA(a, s, n)) % 65521
  }

  /** The checksum of s, going on from that of what came before. */
  function Adler(adler: nat, s: seq<byte>): nat {
    SumA(adler % 0x1_0000, s, |s|) + 0x1_0000 * SumB(adler % 0x1_0000, adler / 0x1_0000 % 0x1_0000, s, |s|)
  }

  // ----- the same without reductions

  function RawA(a: nat, s: seq<byte>, p: nat, n: nat): nat
    requires p + n <= |s|
  {
    if n == 0 then a else RawA(a, s, p, n - 1) + s[p + n - 1] as nat
  }

  function RawB(a: nat, b: nat, s: seq<byte>, p: nat, n: nat): nat
    requires p + n <= |s|
  {
    if n == 0 then b else RawB(a, b, s, p, n - 1) + RawA(a, s, p, n)
  }

  /** Sums that agree with the definition after p bytes agree after n more, up to a reduction. */
  lemma {:induction false} Deferred(a0: nat, b0: nat, a: nat, b: nat, s: seq<byte>, p: nat, n: nat)
    requires p + n <= |s| && a % 65521 == SumA(a0, s, p) % 65521 && b % 65521 == SumB(a0, b0, s, p) % 65521
    ensures RawA(a, s, p, n) % 65521 == SumA(a0, s, p + n) % 65521
    ensures RawB(a, b, s, p, n) % 65521 == SumB(a0, b0, s, p + n) % 65521
  {
    hide *;
    NothingAdded(a, b, s, p);
    if n > 0 {
      var c: nat := s[p + n - 1];
      Deferred(a0, b0, a, b, s, p, n - 1);
      OneAdded(a, b, s, p, n - 1);
      SumNext(a0, b0, s, p + n - 1);
      ModAdd(RawA(a, s, p, n - 1), SumA(a0, s, p + n - 1), c);
      ModTwice(SumA(a0, s, p + n - 1) + c);
      ModAddBoth(RawB(a, b, s, p, n - 1), SumB(a0, b0, s, p + n - 1), RawA(a, s, p, n), SumA(a0, s, p + n));
      ModTwice(SumB(a0, b0, s, p + n - 1) + SumA(a0, s, p + n));
    }
  }

  lemma {:induction false} SumNext(a0: nat, b0: nat, s: seq<byte>, n: nat)
    requires n + 1 <= |s|
    ensures SumA(a0, s, n + 1) == (SumA(a0, s, n) + s[n] as nat) % 65521
    ensures SumB(a0, b0, s, n + 1) == (SumB(a0, b0, s, n) + SumA(a0, s, n + 1)) % 65521
  {
  }

  lemma {:induction false} ModTwice(x: nat)
    ensures x % 65521 % 65521 == x % 65521
  {
  }

  lemma {:induction false} ModAdd(x: nat, y: nat, c: nat)
    requires x % 65521 == y % 65521
    ensures (x + c) % 65521 == (y + c) % 65521
  {
  }

  lemma {:induction false} ModAddBoth(x: nat, y: nat, c: nat, d: nat)
    requires x % 65521 == y % 65521 && c % 65521 == d % 65521
    ensures (x + c) % 65521 == (y + d) % 65521
  {
  }

  lemma {:induction false} Reduced(a0: nat, b0: nat, s: seq<byte>, n: nat)
    requires n <= |s|
    ensures SumA(a0, s, n) < 65521 && SumB(a0, b0, s, n) < 65521
  {
  }

  /** No sum over NMAX bytes exceeds 32 bits. */
  lemma {:induction false} RawBound(a: nat, b: nat, s: seq<byte>, p: nat, n: nat)
    requires p + n <= |s| && a <= 65535 && b <= 65535
    ensures RawA(a, s, p, n) <= 65535 + 255 * n
    ensures 2 * RawB(a, b, s, p, n) <= 131070 * (n + 1) + 255 * Triangle(n)
  {
    if n > 0 { RawBound(a, b, s, p, n - 1); }
  }

  /** n(n + 1). */
  function Triangle(n: nat): nat {
    if n == 0 then 0 else Triangle(n - 1) + 2 * n
  }

  lemma {:induction false} TriangleIs(n: nat)
    ensures Triangle(n) == n * (n + 1)
  {
    if n > 0 { TriangleIs(n - 1); }
  }

  lemma {:induction false} TriangleGrows(m: nat, n: nat)
    requires m <= n
    ensures Triangle(m) <= Triangle(n)
    decreases n
  {
    if m < n { TriangleGrows(m, n - 1); }
  }

  /**
   * So many as 5552 bytes can be added up before the sums must be reduced, even to halves that are not reduced
   * themselves; one more would be too much even for those that are.
   */
  lemma {:induction false} NmaxFits(n: nat)
    requires n <= 5552
    ensures 65535 + 255 * n < 0x1_0000_0000 && 131070 * (n + 1) + 255 * Triangle(n) < 0x2_0000_0000
    ensures 131040 * (5553 + 1) + 255 * Triangle(5553) >= 0x2_0000_0000
  {
    TriangleIs(5552);
    TriangleIs(5553);
    TriangleGrows(n, 5552);
  }

  // ----- reductions without division: 65536 is 15 modulo BASE, and 2^32 is 225

  method Chop(a: nat) returns (r: nat)
    ensures r % 65521 == a % 65521 && r <= 65535 + 15 * (a / 0x1_0000)
  {
    var tmp := a / 0x1_0000;
    r := a % 0x1_0000;
    r := r + (16 * tmp - tmp);
    Chopped(a, tmp, a % 0x1_0000);
  }

  lemma {:induction false} Chopped(a: nat, tmp: nat, low: nat)
    requires a == 0x1_0000 * tmp + low
    ensures (low + 15 * tmp) % 65521 == a % 65521
  {
    assert a == low + 15 * tmp + tmp * 65521;
    Multiples(tmp, low + 15 * tmp);
  }

  method Mod28(a: u32) returns (r: u32)
    requires a < 0x1000_0000
    ensures r == a % 65521
  {
    r := Chop(a);
    if r >= BASE { r := r - BASE; }
  }

  method Mod(a: u32) returns (r: u32)
    ensures r == a % 65521
  {
    r := Chop(a);
    r := Mod28(r);
  }

  method Mod63(a: i64) returns (r: i64)
    requires a >= 0
    ensures r == a % 65521
  {
    hide *;
    BaseIs();
    var tmp := a / 0x1_0000_0000;
    WideParts(a);
    r := a % 0x1_0000_0000;
    r := r + (256 * tmp - 32 * tmp + tmp);
    var t := Chop(r);
    t := Chop(t);
    if t >= 65521 { t := t - 65521; }
    r := t;
  }

  lemma {:induction false} WideParts(a: nat)
    requires a < 0x8000_0000_0000_0000
    ensures 0 <= a / 0x1_0000_0000 < 0x8000_0000
    ensures (a % 0x1_0000_0000 + 225 * (a / 0x1_0000_0000)) % 65521 == a % 65521
  {
    var q := a / 0x1_0000_0000;
    assert a == a % 0x1_0000_0000 + 225 * q + (65551 * q) * 65521;
    Multiples(65551 * q, a % 0x1_0000_0000 + 225 * q);
  }

  // ----- adler32_z

  /** n bytes added to both sums, without reduction. */
  method AddBytes(a: u32, b: u32, buf: seq<byte>, p: nat, n: nat) returns (adler: u32, sum2: u32)
    requires p + n <= |buf| && a <= 65535 && b <= 65535 && n <= 5552
    ensures adler == RawA(a, buf, p, n) && sum2 == RawB(a, b, buf, p, n)
    ensures adler <= 65535 + 255 * n
  {
    hide RawA, RawB, Triangle;
    adler, sum2 := a, b;
    NothingAdded(a, b, buf, p);
    var i := 0;
    while i < n
      invariant 0 <= i <= n && adler == RawA(a, buf, p, i) && sum2 == RawB(a, b, buf, p, i) && adler <= 65535 + 255 * i
    {
      RawBound(a, b, buf, p, i + 1);
      NmaxFits(i + 1);
      OneAdded(a, b, buf, p, i);
      adler := adler + buf[p + i];
      sum2 := sum2 + adler;
      i := i + 1;
    }
  }

  lemma {:induction false} NothingAdded(a: nat, b: nat, s: seq<byte>, p: nat)
    requires p <= |s|
    ensures RawA(a, s, p, 0) == a && RawB(a, b, s, p, 0) == b
  {
  }

  lemma {:induction false} OneAdded(a: nat, b: nat, s: seq<byte>, p: nat, n: nat)
    requires p + n + 1 <= |s|
    ensures RawA(a, s, p, n + 1) == RawA(a, s, p, n) + s[p + n] as nat
    ensures RawB(a, b, s, p, n + 1) == RawB(a, b, s, p, n) + RawA(a, s, p, n + 1)
  {
  }

  /** Both sums are, up to a reduction, what the definition says after p bytes. */
  ghost predicate Agrees(a0: nat, b0: nat, a: nat, b: nat, s: seq<byte>, p: nat) {
    && p <= |s| && a <= 65535 && b <= 65535
    && a % 65521 == SumA(a0, s, p) && b % 65521 == SumB(a0, b0, s, p)
  }

  lemma {:induction false} AgreesStart(a0: nat, b0: nat, s: seq<byte>)
    requires a0 <= 65535 && b0 <= 65535
    ensures Agrees(a0, b0, a0, b0, s, 0)
  {
  }

  lemma {:induction false} AgreesIs(a0: nat, b0: nat, a: nat, b: nat, s: seq<byte>, p: nat)
    requires Agrees(a0, b0, a, b, s, p)
    ensures a <= 65535 && b <= 65535 && a % 65521 == SumA(a0, s, p) && b % 65521 == SumB(a0, b0, s, p)
  {
  }

  lemma {:induction false} AgreesNext(a0: nat, b0: nat, a: nat, b: nat, s: seq<byte>, p: nat, n: nat)
    requires Agrees(a0, b0, a, b, s, p) && p + n <= |s|
    ensures Agrees(a0, b0, RawA(a, s, p, n) % 65521, RawB(a, b, s, p, n) % 65521, s, p + n)
  {
    hide SumA, SumB, RawA, RawB;
    ModTwice(a);
    ModTwice(b);
    Deferred(a0, b0, a, b, s, p, n);
    Reduced(a0, b0, s, p + n);
    ModTwice(RawA(a, s, p, n));
    ModTwice(RawB(a, b, s, p, n));
    Within(SumA(a0, s, p + n));
    Within(SumB(a0, b0, s, p + n));
  }

  lemma {:induction false} Within(x: nat)
    requires x < 65521
    ensures x % 65521 == x
  {
  }

  /** A single byte takes the second sum so far up that one subtraction does not reduce it. */
  predicate OneTooMuch(adler: nat, buf: seq<byte>) {
    |buf| == 1 && adler / 0x1_0000 + (adler % 0x1_0000 + buf[0] as nat) % 65521 >= 2 * 65521
  }

  /** Never if the checksum so far is reduced. */
  lemma {:induction false} ReducedEnough(adler: nat, buf: seq<byte>)
    requires adler / 0x1_0000 < 65521
    ensures !OneTooMuch(adler, buf)
  {
  }

  /**
   * adler32_z, for every length and every 32-bit number to go on from: the definition, except for a single byte
   * that takes an unreduced second sum too far. The 32-bit sums never overflow.
   */
  method Adler32Z(adler0: u32, buf: seq<byte>) returns (r: u32)
    ensures r == Adler(adler0, buf) <==> !OneTooMuch(adler0, buf)
  {
    hide *;
    BaseIs();
    var adler: u32, sum2: u32 := adler0 % 0x1_0000, adler0 / 0x1_0000 % 0x1_0000;
    ghost var a0, b0 := adler, sum2;
    TooMuchIs(adler0, buf);
    if |buf| == 1 {
      adler, sum2 := OneByte(adler, sum2, buf);
      OneEnd(adler0, a0, b0, adler, sum2, buf);
      return adler + sum2 * 0x1_0000;
    } else if |buf| < 16 {
      adler, sum2 := FewBytes(adler, sum2, buf);
    } else {
      adler, sum2 := ManyBytes(adler, sum2, buf);
    }
    AgreesEnd(adler0, a0, b0, adler, sum2, buf);
    r := adler + sum2 * 0x1_0000;
  }

  lemma {:induction false} TooMuchIs(adler: nat, buf: seq<byte>)
    requires adler < 0x1_0000_0000
    ensures adler / 0x1_0000 % 0x1_0000 == adler / 0x1_0000
    ensures |buf| != 1 ==> !OneTooMuch(adler, buf)
  {
  }

  /** With one byte the result is the definition exactly if its second sum is reduced. */
  lemma {:induction false} OneEnd(adler0: nat, a0: nat, b0: nat, a: nat, b: nat, s: seq<byte>)
    requires |s| == 1 && a0 == adler0 % 0x1_0000 && b0 == adler0 / 0x1_0000 == adler0 / 0x1_0000 % 0x1_0000
    requires a == (a0 + s[0] as nat) % 65521 && b == if b0 + a >= 65521 then b0 + a - 65521 else b0 + a
    requires b0 <= 65535
    ensures a + 0x1_0000 * b == Adler(adler0, s) <==> !OneTooMuch(adler0, s)
  {
    hide SumA, SumB;
    OneSums(a0, b0, s, a);
  }

  lemma {:induction false} OneSums(a0: nat, b0: nat, s: seq<byte>, a: nat)
    requires |s| == 1 && a == (a0 + s[0] as nat) % 65521
    ensures SumA(a0, s, 1) == a && SumB(a0, b0, s, 1) == (b0 + a) % 65521
  {
    hide *;
    SumNone(a0, b0, s);
    SumNext(a0, b0, s, 0);
    ModTwice(a0);
    ModTwice(b0);
    ModAdd(a0, a0 % 65521, s[0] as nat);
    ModAdd(b0, b0 % 65521, a);
  }

  lemma {:induction false} SumNone(a0: nat, b0: nat, s: seq<byte>)
    ensures SumA(a0, s, 0) == a0 % 65521 && SumB(a0, b0, s, 0) == b0 % 65521
  {
  }

  /** In case the caller gives one byte at a time. */
  method OneByte(a0: u32, b0: u32, buf: seq<byte>) returns (adler: u32, sum2: u32)
    requires a0 <= 65535 && b0 <= 65535 && |buf| == 1
    ensures adler == (a0 + buf[0]) % 65521 && sum2 == if b0 + adler >= 65521 then b0 + adler - 65521 else b0 + adler
  {
    adler := a0 + buf[0];
    if adler >= 65521 { adler := adler - 65521; }
    sum2 := b0 + adler;
    if sum2 >= 65521 { sum2 := sum2 - 65521; }
  }

  /** Short lengths, where one subtraction reduces adler. */
  method FewBytes(a0: u32, b0: u32, buf: seq<byte>) returns (adler: u32, sum2: u32)
    requires a0 <= 65535 && b0 <= 65535 && |buf| < 16
    ensures Agrees(a0, b0, adler, sum2, buf, |buf|) && adler < 65521 && sum2 < 65521
  {
    hide *;
    AgreesStart(a0, b0, buf);
    AgreesNext(a0, b0, a0, b0, buf, 0, |buf|);
    RawBound(a0, b0, buf, 0, |buf|);
    FewFit(|buf|);
    adler, sum2 := AddBytes(a0, b0, buf, 0, |buf|);
    if adler >= 65521 { adler := adler - 65521; }
    sum2 := Mod28(sum2);
  }

  /** Blocks of NMAX bytes, and the bytes that are left. */
  method ManyBytes(a0: u32, b0: u32, buf: seq<byte>) returns (adler: u32, sum2: u32)
    requires a0 <= 65535 && b0 <= 65535 && |buf| >= 16
    ensures Agrees(a0, b0, adler, sum2, buf, |buf|) && adler < 65521 && sum2 < 65521
  {
    hide *;
    AgreesStart(a0, b0, buf);
    adler, sum2 := a0, b0;
    var len, p := |buf|, 0;
    while len >= 5552
      invariant 0 <= p && 0 <= len && p + len == |buf| && Agrees(a0, b0, adler, sum2, buf, p)
      invariant len == 0 ==> adler < 65521 && sum2 < 65521
      decreases len
    {
      adler, sum2 := Block(adler, sum2, buf, p, 5552, a0, b0);
      p, len := p + 5552, len - 5552;
    }
    if len != 0 {
      adler, sum2 := Block(adler, sum2, buf, p, len, a0, b0);
    }
  }

  lemma {:induction false} BaseIs()
    ensures BASE == 65521
  {
  }

  /** Up to NMAX bytes, then one reduction. */
  method Block(a: u32, b: u32, buf: seq<byte>, p: nat, n: nat, ghost a0: nat, ghost b0: nat)
    returns (adler: u32, sum2: u32)
    requires Agrees(a0, b0, a, b, buf, p) && p + n <= |buf| && n <= 5552
    ensures Agrees(a0, b0, adler, sum2, buf, p + n) && adler < 65521 && sum2 < 65521
  {
    hide *;
    AgreesIs(a0, b0, a, b, buf, p);
    AgreesNext(a0, b0, a, b, buf, p, n);
    adler, sum2 := AddBytes(a, b, buf, p, n);
    adler := Mod(adler);
    sum2 := Mod(sum2);
  }

  lemma {:induction false} FewFit(n: nat)
    requires n < 16
    ensures 65535 + 255 * n < 131042 && 131070 * (n + 1) + 255 * Triangle(n) < 0x1000_0000
  {
    TriangleGrows(n, 15);
    TriangleIs(15);
  }

  lemma {:induction false} AgreesEnd(adler0: nat, a0: nat, b0: nat, a: nat, b: nat, s: seq<byte>)
    requires Agrees(a0, b0, a, b, s, |s|) && a < 65521 && b < 65521 && a0 == adler0 % 0x1_0000
      && b0 == adler0 / 0x1_0000 % 0x1_0000
    ensures a + 0x1_0000 * b == Adler(adler0, s)
  {
  }

  // ----- adler32_combine_

  lemma {:induction false} SumRaw(a: nat, b: nat, s: seq<byte>, n: nat)
    requires n <= |s| && a < 65521 && b < 65521
    ensures SumA(a, s, n) == RawA(a, s, 0, n) % 65521 && SumB(a, b, s, n) == RawB(a, b, s, 0, n) % 65521
  {
    Deferred(a, b, a, b, s, 0, n);
    Reduced(a, b, s, n);
  }

  lemma {:induction false} RawSplit(a: nat, b: nat, s: seq<byte>, t: seq<byte>, n: nat)
    requires n <= |t|
    ensures RawA(a, s + t, 0, |s|) == RawA(a, s, 0, |s|) && RawB(a, b, s + t, 0, |s|) == RawB(a, b, s, 0, |s|)
    ensures RawA(a, s + t, 0, |s| + n) == RawA(RawA(a, s, 0, |s|), t, 0, n)
    ensures RawB(a, b, s + t, 0, |s| + n) == RawB(RawA(a, s, 0, |s|), RawB(a, b, s, 0, |s|), t, 0, n)
  {
    hide RawA, RawB;
    RawPrefix(a, b, s, t, |s|);
    NothingAdded(RawA(a, s, 0, |s|), RawB(a, b, s, 0, |s|), t, 0);
    if n > 0 {
      RawSplit(a, b, s, t, n - 1);
      OneAdded(a, b, s + t, 0, |s| + n - 1);
      OneAdded(RawA(a, s, 0, |s|), RawB(a, b, s, 0, |s|), t, 0, n - 1);
    }
  }

  lemma {:induction false} RawPrefix(a: nat, b: nat, s: seq<byte>, t: seq<byte>, n: nat)
    requires n <= |s|
    ensures RawA(a, s + t, 0, n) == RawA(a, s, 0, n) && RawB(a, b, s + t, 0, n) == RawB(a, b, s, 0, n)
  {
    if n > 0 { RawPrefix(a, b, s, t, n - 1); }
  }

  /** What the sums would be from other starting values. */
  lemma {:induction false} RawLinear(a: nat, b: nat, t: seq<byte>, n: nat)
    requires n <= |t|
    ensures RawA(a, t, 0, n) + 1 == RawA(1, t, 0, n) + a
    ensures RawB(a, b, t, 0, n) + n == RawB(1, 0, t, 0, n) + b + n * a
  {
    if n > 0 {
      RawLinear(a, b, t, n - 1);
      NextMultiple(n - 1, a);
    }
  }

  lemma {:induction false} NextMultiple(n: nat, a: nat)
    ensures (n + 1) * a == n * a + a
  {
  }

  lemma {:induction false} ModTimes(n: nat, a: nat)
    ensures (n % 65521) * a % 65521 == n * a % 65521
  {
    var q := n / 65521;
    assert n * a == (q * 65521 + n % 65521) * a == (q * a) * 65521 + (n % 65521) * a;
    Multiples(q * a, (n % 65521) * a);
  }

  lemma {:induction false} Multiples(q: nat, x: nat)
    ensures (q * 65521 + x) % 65521 == x % 65521
  {
  }

  lemma {:induction false} ProductFits(x: nat, y: nat)
    requires x <= 65520 && y <= 65520
    ensures x * y <= 65520 * 65520
  {
    assert x * y <= 65520 * y;
  }

  /** The halves of a checksum. */
  lemma {:induction false} Halves(s: seq<byte>)
    ensures Adler(1, s) % 0x1_0000 == RawA(1, s, 0, |s|) % 65521 < 65521
      && Adler(1, s) / 0x1_0000 == RawB(1, 0, s, 0, |s|) % 65521 < 65521
    ensures 0 <= Adler(1, s) < 0x1_0000_0000
  {
    hide RawA, RawB, SumA, SumB;
    SumRaw(1, 0, s, |s|);
    TwoHalves(SumA(1, s, |s|), SumB(1, 0, s, |s|));
  }

  lemma {:induction false} TwoHalves(a: nat, b: nat)
    requires a < 65521 && b < 65521
    ensures (a + 0x1_0000 * b) % 0x1_0000 == a && (a + 0x1_0000 * b) / 0x1_0000 == b && a + 0x1_0000 * b < 0x1_0000_0000
  {
  }

  /** The sums of the concatenation, from the sums of its parts and the length of the second. */
  lemma {:induction false} Concatenated(s: seq<byte>, t: seq<byte>, a1: nat, b1: nat, a2: nat, b2: nat, rem: nat)
    requires a1 == RawA(1, s, 0, |s|) % 65521 && b1 == RawB(1, 0, s, 0, |s|) % 65521
    requires a2 == RawA(1, t, 0, |t|) % 65521 && b2 == RawB(1, 0, t, 0, |t|) % 65521 && rem == |t| % 65521
    ensures RawA(1, s + t, 0, |s + t|) % 65521 == (a1 + a2 + 65520) % 65521
    ensures RawB(1, 0, s + t, 0, |s + t|) % 65521 == (rem * a1 % 65521 + b1 + b2 + 65521 - rem) % 65521
  {
    hide RawA, RawB;
    var a, b := RawA(1, s, 0, |s|), RawB(1, 0, s, 0, |s|);
    RawSplit(1, 0, s, t, |t|);
    RawLinear(a, b, t, |t|);
    SumMod(RawA(a, t, 0, |t|), RawA(1, t, 0, |t|), a);
    ModTimes(|t|, a);
    ModTimes(a, rem);
    Commutes(a, rem);
    Commutes(a1, rem);
    ProductMod(RawB(a, b, t, 0, |t|), |t|, RawB(1, 0, t, 0, |t|), b, |t| * a, rem * a1);
  }

  lemma {:induction false} Commutes(x: nat, y: nat)
    ensures x * y == y * x
  {
  }

  lemma {:induction false} SumMod(x: nat, y: nat, a: nat)
    requires x + 1 == y + a
    ensures x % 65521 == (a % 65521 + y % 65521 + 65520) % 65521
  {
  }

  lemma {:induction false} ProductMod(x: nat, n: nat, y: nat, b: nat, m: nat, k: nat)
    requires x + n == y + b + m && m % 65521 == k % 65521
    ensures x % 65521 == (k % 65521 + b % 65521 + y % 65521 + 65521 - n % 65521) % 65521
  {
  }

  lemma {:induction false} SmallMod(x: nat)
    requires x < 4 * 65521
    ensures x % 65521 == if x >= 3 * 65521 then x - 3 * 65521 else if x >= 2 * 65521 then x - 2 * 65521
      else if x >= 65521 then x - 65521 else x
  {
  }

  lemma {:induction false} WholeFrom(x: nat)
    ensures x == x % 0x1_0000 + x / 0x1_0000 * 0x1_0000
  {
  }

  lemma {:induction false} HalvesSmall(x: nat)
    requires x < 0x1_0000_0000
    ensures x / 0x1_0000 % 0x1_0000 == x / 0x1_0000
  {
  }

  /** The four subtractions at the end. */
  method ReduceSums(sum1: u32, sum2: u32) returns (s1: u32, s2: u32)
    requires sum1 < 3 * 65521 && sum2 < 4 * 65521
    ensures s1 == sum1 % 65521 && s2 == sum2 % 65521
  {
    hide *;
    SmallMod(sum1);
    SmallMod(sum2);
    s1, s2 := sum1, sum2;
    if s1 >= 65521 { s1 := s1 - 65521; }
    if s1 >= 65521 { s1 := s1 - 65521; }
    if s2 >= 131042 { s2 := s2 - 131042; }
    if s2 >= 65521 { s2 := s2 - 65521; }
  }

  /** The checksum of a concatenation. A negative length gives an impossible checksum. */
  method Adler32Combine(adler1: u32, adler2: u32, len2: i64, ghost s: seq<byte>, ghost t: seq<byte>) returns (r: u32)
    requires adler1 == Adler(1, s) && adler2 == Adler(1, t)
    ensures len2 == |t| ==> r == Adler(1, s + t)
    ensures len2 < 0 ==> r == 0xffff_ffff
  {
    hide *;
    if len2 < 0 { return 0xffff_ffff; }
    BaseIs();
    Halves(s);
    Halves(t);
    Halves(s + t);
    HalvesSmall(adler1);
    HalvesSmall(adler2);
    var m := Mod63(len2);
    var rem: u32 := m;
    var sum1: u32 := adler1 % 0x1_0000;
    ProductFits(rem, sum1);
    var sum2: u32 := rem * sum1;
    sum2 := Mod(sum2);
    sum1 := sum1 + (adler2 % 0x1_0000 + 65521 - 1);
    sum2 := sum2 + (adler1 / 0x1_0000 % 0x1_0000 + adler2 / 0x1_0000 % 0x1_0000 + 65521 - rem);
    if len2 == |t| {
      Concatenated(s, t, adler1 % 0x1_0000, adler1 / 0x1_0000, adler2 % 0x1_0000, adler2 / 0x1_0000, rem);
    }
    sum1, sum2 := ReduceSums(sum1, sum2);
    r := sum1 + sum2 * 0x1_0000;
    WholeFrom(Adler(1, s + t));
  }

  lemma {:induction false} SmallStep(s: seq<byte>, n: nat, a: nat, b: nat, c: byte)
    requires n < |s| && s[n] == c && a < 30000 && b < 30000 && SumA(1, s, n) == a && SumB(1, 0, s, n) == b
    ensures SumA(1, s, n + 1) == a + c && SumB(1, 0, s, n + 1) == b + a + c
  {
    hide SumA, SumB;
    SumNext(1, 0, s, n);
  }

  /** The checksum of the nine letters of "Wikipedia". */
  lemma {:induction false} CheckValue()
    ensures Adler(1, [0x57, 0x69, 0x6b, 0x69, 0x70, 0x65, 0x64, 0x69, 0x61]) == 0x11e6_0398
  {
    hide Adler, SumA, SumB;
    var s: seq<byte> := [0x57, 0x69, 0x6b, 0x69, 0x70, 0x65, 0x64, 0x69, 0x61];
    SumNone(1, 0, s);
    SmallStep(s, 0, 1, 0, 87);
    SmallStep(s, 1, 88, 88, 105);
    SmallStep(s, 2, 193, 281, 107);
    SmallStep(s, 3, 300, 581, 105);
    SmallStep(s, 4, 405, 986, 112);
    SmallStep(s, 5, 517, 1503, 101);
    SmallStep(s, 6, 618, 2121, 100);
    SmallStep(s, 7, 718, 2839, 105);
    SmallStep(s, 8, 823, 3662, 97);
    AdlerIs(1, s);
  }

  lemma {:induction false} AdlerIs(adler: nat, s: seq<byte>)
    ensures Adler(adler, s) == SumA(adler % 0x1_0000, s, |s|)
      + 0x1_0000 * SumB(adler % 0x1_0000, adler / 0x1_0000 % 0x1_0000, s, |s|)
  {
  }

  lemma {:induction false} SumsReduced(a: nat, b: nat, s: seq<byte>, n: nat)
    requires n <= |s|
    ensures SumA(a, s, n) < 65521 && SumB(a, b, s, n) < 65521
  {
  }

  lemma {:induction false} SumsGoOn(a: nat, b: nat, s: seq<byte>, t: seq<byte>, n: nat)
    requires n <= |t|
    ensures SumA(SumA(a, s, |s|), t, n) == SumA(a, s + t, |s| + n)
    ensures SumB(SumA(a, s, |s|), SumB(a, b, s, |s|), t, n) == SumB(a, b, s + t, |s| + n)
  {
    hide SumA, SumB;
    if n == 0 {
      SumNone(SumA(a, s, |s|), SumB(a, b, s, |s|), t);
      SumsReduced(a, b, s, |s|);
      SumsPrefix(a, b, s, t, |s|);
    } else {
      SumsGoOn(a, b, s, t, n - 1);
      SumNext(SumA(a, s, |s|), SumB(a, b, s, |s|), t, n - 1);
      SumNext(a, b, s + t, |s| + n - 1);
    }
  }

  lemma {:induction false} SumsPrefix(a: nat, b: nat, s: seq<byte>, t: seq<byte>, n: nat)
    requires n <= |s|
    ensures SumA(a, s + t, n) == SumA(a, s, n) && SumB(a, b, s + t, n) == SumB(a, b, s, n)
  {
    hide SumA, SumB;
    if n == 0 {
      SumNone(a, b, s);
      SumNone(a, b, s + t);
    } else {
      SumsPrefix(a, b, s, t, n - 1);
      SumNext(a, b, s, n - 1);
      SumNext(a, b, s + t, n - 1);
    }
  }

  /** A checksum can be continued: what comes next may be added later. */
  lemma {:induction false} AdlerGoesOn(adler: nat, s: seq<byte>, t: seq<byte>)
    ensures Adler(Adler(adler, s), t) == Adler(adler, s + t)
  {
    hide *;
    var a, b := adler % 0x1_0000, adler / 0x1_0000 % 0x1_0000;
    var a1, b1 := SumA(a, s, |s|), SumB(a, b, s, |s|);
    AdlerIs(adler, s);
    SumsReduced(a, b, s, |s|);
    TwoHalves(a1, b1);
    AdlerIs(Adler(adler, s), t);
    AdlerIs(adler, s + t);
    SumsGoOn(a, b, s, t, |t|);
  }
}
