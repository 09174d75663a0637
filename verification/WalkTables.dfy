/** The tables that walk a decoded last column backwards: tt of the fast decoder, ll16/ll4 of the small one. */
module WalkTables {
  import opened Bytes
  import opened LastToFirst

  /** cftab[c] is the number of block bytes below c. */
  ghost predicate IsCftab(cftab: seq<nat>, l: seq<byte>) {
    |cftab| == 257 && forall c :: 0 <= c <= 256 ==> cftab[c] == Start(l, c)
  }

  /** cftab[c] after the first i rows have been counted in. */
  ghost predicate Cursors(l: seq<byte>, cftab: seq<nat>, i: nat)
    requires i <= |l|
  {
    |cftab| == 257 && forall c :: 0 <= c <= 256 ==> cftab[c] == Start(l, c) + Count(l, c, i)
  }

  /** unzftab[c] is the number of bytes c in the block. */
  ghost predicate IsUnzftab(unzftab: seq<nat>, l: seq<byte>) {
    |unzftab| == 256 && forall c :: 0 <= c < 256 ==> unzftab[c] == Count(l, c, |l|)
  }

  /** cftab := running totals of unzftab. */
  method GenerateCftab(unzftab: array<nat>, cftab: array<nat>, ghost l: seq<byte>)
    requires cftab.Length == 257 && unzftab.Length == 256 && cftab != unzftab
    requires IsUnzftab(unzftab[..], l)
    modifies cftab
    ensures IsCftab(cftab[..], l)
    ensures cftab[..][256] == |l|
  {
    cftab[0] := 0;
    var i := 1;
    while i <= 256
      invariant 1 <= i <= 257
      invariant cftab[0] == 0
      invariant forall c :: 1 <= c < i ==> cftab[c] == unzftab[c - 1]
    {
      cftab[i] := unzftab[i - 1];
      i := i + 1;
    }
    i := 1;
    while i <= 256
      invariant 1 <= i <= 257
      invariant forall c :: 0 <= c < i ==> cftab[c] == Start(l, c)
      invariant forall c :: i <= c <= 256 ==> cftab[c] == Count(l, c - 1, |l|)
    {
      cftab[i] := cftab[i] + cftab[i - 1];
      i := i + 1;
    }
    StartTotal(l);
  }

  // ----- FAST: tt holds the byte and the inverse of T side by side

  function Packed(c: byte, i: nat): (w: nat)
    ensures w % 256 == c && w / 256 == i
  {
    c + 256 * i
  }

  /** OR of a byte-sized word with an index shifted past the byte: the bits do not overlap. */
  function OrShifted(word: nat, i: nat): nat
    requires word < 256
  {
    Packed(word, i)
  }

  /** tt after rows 0..i-1 have been scattered: row r holds its byte and, if already known, the i with T(i) = r. */
  ghost predicate Scattered(l: seq<byte>, tt: seq<nat>, i: nat) {
    && |tt| == |l|
    && forall r {:trigger tt[r]} :: 0 <= r < |l| ==> tt[r] == Packed(l[r], if InvT(l, r) < i then InvT(l, r) else 0)
  }

  method ScatterFast(tt: array<nat>, cftab: array<nat>, nblock: nat, ghost l: seq<byte>)
    requires |l| == nblock <= tt.Length && cftab.Length == 257 && tt != cftab
    requires IsCftab(cftab[..], l)
    requires tt[..nblock] == l
    modifies tt, cftab
    ensures Scattered(l, tt[..nblock], nblock)
  {
    hide *;
    NothingScattered(l, tt[..nblock], cftab[..]);
    var i := 0;
    while i < nblock
      invariant i <= nblock
      invariant Cursors(l, cftab[..], i)
      invariant Scattered(l, tt[..nblock], i)
    {
      var uc: byte := tt[i] % 256;
      var r := cftab[uc];
      ghost var w, f := tt[..nblock], cftab[..];
      ScatterStep(l, w, f, i);
      tt[r] := OrShifted(tt[r], i);
      cftab[uc] := cftab[uc] + 1;
      assert tt[..nblock] == w[r := OrShifted(w[r], i)];
      assert cftab[..] == f[uc := f[uc] + 1];
      i := i + 1;
    }
  }

  lemma {:induction false} NothingScattered(l: seq<byte>, tt: seq<nat>, cftab: seq<nat>)
    requires tt == l && IsCftab(cftab, l)
    ensures Scattered(l, tt, 0) && Cursors(l, cftab, 0)
  {
  }

  lemma {:induction false} ScatterStep(l: seq<byte>, tt: seq<nat>, cftab: seq<nat>, i: nat)
    requires i < |l| && Cursors(l, cftab, i) && Scattered(l, tt, i)
    ensures |cftab| == 257
    ensures tt[i] % 256 == l[i]
    ensures cftab[l[i]] < |l| && tt[cftab[l[i]]] == l[cftab[l[i]]]
    ensures Cursors(l, cftab[l[i] := cftab[l[i]] + 1], i + 1)
    ensures Scattered(l, tt[cftab[l[i]] := OrShifted(tt[cftab[l[i]]], i)], i + 1)
  {
    InvTUnique(l, i);
  }

  // ----- SMALL: 20-bit entries split over 16-bit words and nibbles

  const LL_LIMIT := 0x10_0000

  function Nibble(ll4: seq<byte>, i: nat): (n: nat)
    requires i / 2 < |ll4|
    ensures n < 16
  {
    if i % 2 == 0 then ll4[i / 2] % 16 else ll4[i / 2] / 16
  }

  function GetLL(ll16: seq<u16>, ll4: seq<byte>, i: nat): (n: nat)
    requires i < |ll16| && i / 2 < |ll4|
    ensures n < LL_LIMIT
  {
    ll16[i] + 0x1_0000 * Nibble(ll4, i)
  }

  /** The first n packed entries. */
  ghost function Unpacked(ll16: seq<u16>, ll4: seq<byte>, n: nat): (v: seq<nat>)
    requires n <= |ll16| && n <= 2 * |ll4|
    ensures |v| == n
    ensures forall i :: 0 <= i < n ==> v[i] == GetLL(ll16, ll4, i)
  {
    seq(n, i requires 0 <= i < n => GetLL(ll16, ll4, i))
  }

  /** The packing loses nothing: the entry reads back and no other entry changes. */
  method SetLL(ll16: array<u16>, ll4: array<byte>, i: nat, n: nat, ghost nblock: nat)
    requires i < nblock <= ll16.Length && nblock <= 2 * ll4.Length && n < LL_LIMIT
    modifies ll16, ll4
    ensures Unpacked(ll16[..], ll4[..], nblock) == Unpacked(old(ll16[..]), old(ll4[..]), nblock)[i := n]
    ensures ll16[..] == old(ll16[..])[i := n % 0x1_0000]
  {
    ll16[i] := n % 0x1_0000;
    var hi := n / 0x1_0000;
    ll4[i / 2] := if i % 2 == 0 then ll4[i / 2] / 16 * 16 + hi else ll4[i / 2] % 16 + 16 * hi;
    NibbleSet(old(ll4[..]), ll4[..], i, hi);
  }

  lemma {:induction false} NibbleSet(before: seq<byte>, after: seq<byte>, i: nat, hi: nat)
    requires i / 2 < |before| && hi < 16
    requires after == before[i / 2 := if i % 2 == 0 then before[i / 2] / 16 * 16 + hi else before[i / 2] % 16 + 16 * hi]
    ensures Nibble(after, i) == hi
    ensures forall j: nat :: j / 2 < |before| && j != i ==> Nibble(after, j) == Nibble(before, j)
  {
  }

  /** v holds T for the first i rows; the rest of ll16 still holds the bytes. */
  ghost predicate Chained(l: seq<byte>, v: seq<nat>, low: seq<u16>, i: nat) {
    && |v| == |l| && |low| >= |l|
    && (forall r :: 0 <= r < |l| && r < i ==> v[r] == T(l, r))
    && (forall r :: i <= r < |l| ==> low[r] == l[r])
  }

  method BuildT(ll16: array<u16>, ll4: array<byte>, cftabCopy: array<nat>, nblock: nat, ghost l: seq<byte>)
    requires |l| == nblock <= ll16.Length && nblock <= 2 * ll4.Length && nblock < LL_LIMIT
    requires cftabCopy.Length == 257 && IsCftab(cftabCopy[..], l)
    requires ll16[..nblock] == l
    modifies ll16, ll4, cftabCopy
    ensures Chained(l, Unpacked(ll16[..], ll4[..], nblock), ll16[..], nblock)
  {
    hide *;
    NothingChained(l, Unpacked(ll16[..], ll4[..], nblock), ll16[..], cftabCopy[..]);
    var i := 0;
    while i < nblock
      invariant i <= nblock
      invariant Cursors(l, cftabCopy[..], i)
      invariant Chained(l, Unpacked(ll16[..], ll4[..], nblock), ll16[..], i)
    {
      var uc: byte := ll16[i] % 256;
      ghost var v, w, f := Unpacked(ll16[..], ll4[..], nblock), ll16[..], cftabCopy[..];
      ChainStep(l, v, w, f, i);
      SetLL(ll16, ll4, i, cftabCopy[uc], nblock);
      cftabCopy[uc] := cftabCopy[uc] + 1;
      assert cftabCopy[..] == f[uc := f[uc] + 1];
      i := i + 1;
    }
  }

  lemma {:induction false} NothingChained(l: seq<byte>, v: seq<nat>, low: seq<u16>, cftab: seq<nat>)
    requires |v| == |l| <= |low| && low[..|l|] == l && IsCftab(cftab, l)
    ensures Chained(l, v, low, 0) && Cursors(l, cftab, 0)
  {
    forall r | 0 <= r < |l| ensures low[r] == l[r] {
      assert low[..|l|][r] == l[r];
    }
  }

  lemma {:induction false} ChainStep(l: seq<byte>, v: seq<nat>, low: seq<u16>, cftab: seq<nat>, i: nat)
    requires i < |l| && Cursors(l, cftab, i) && Chained(l, v, low, i)
    ensures |cftab| == 257 && |v| == |l| <= |low|
    ensures low[i] % 256 == l[i]
    ensures cftab[l[i]] < |l|
    ensures Cursors(l, cftab[l[i] := cftab[l[i]] + 1], i + 1)
    ensures Chained(l, v[i := cftab[l[i]]], low[i := cftab[l[i]] % 0x1_0000], i + 1)
  {
    TBounds(l, i);
  }

  /** Following T from path[0]. */
  ghost predicate Chain(l: seq<byte>, path: seq<nat>) {
    && path != []
    && (forall x :: 0 <= x < |path| ==> path[x] < |l|)
    && (forall x :: 1 <= x < |path| ==> path[x] == T(l, path[x - 1]))
  }

  /** Entries visited after the start point back along T, the others still forward. */
  ghost predicate Reversed(l: seq<byte>, path: seq<nat>, v: seq<nat>) {
    && |v| == |l| && path != []
    && forall r {:trigger v[r]} :: 0 <= r < |l| ==> v[r] == if r in path[1..] then InvT(l, r) else T(l, r)
  }

  lemma {:induction false} ChainDistinct(l: seq<byte>, path: seq<nat>, a: nat, b: nat)
    requires Chain(l, path) && a < b < |path|
    requires forall x :: 1 <= x < |path| ==> path[x] != path[0]
    ensures path[a] != path[b]
  {
    if a > 0 {
      ChainDistinct(l, path, a - 1, b - 1);
      TInjective(l, path[a - 1], path[b - 1]);
    }
  }

  /** A path that has not yet come back to its start cannot come back to a later point. */
  lemma {:induction false} NotRevisited(l: seq<byte>, path: seq<nat>)
    requires Chain(l, path)
    requires forall x :: 1 <= x < |path| ==> path[x] != path[0]
    ensures |path| <= |l|
    ensures T(l, path[|path|-1]) < |l| && T(l, path[|path|-1]) !in path[1..]
  {
    var m := |path| - 1;
    TBounds(l, path[m]);
    forall x | 1 <= x < |path| ensures T(l, path[m]) != path[x] {
      ChainDistinct(l, path, x - 1, m);
      TInjective(l, path[x - 1], path[m]);
    }
    forall a, b | 0 <= a < b < |path| ensures path[a] != path[b] {
      ChainDistinct(l, path, a, b);
    }
    DistinctElements(path);
    SubsetSize(Elements(path), Upto(|l|));
  }

  lemma {:induction false} ReverseStep(l: seq<byte>, path: seq<nat>, v: seq<nat>)
    requires Chain(l, path) && Reversed(l, path, v)
    requires forall x :: 1 <= x < |path| ==> path[x] != path[0]
    ensures var i := path[|path|-1]; var j := T(l, i);
      && |path| <= |l| && j < |l| && v[j] == T(l, j)
      && Chain(l, path + [j]) && Reversed(l, path + [j], v[j := i])
  {
    var i := path[|path|-1];
    var j := T(l, i);
    NotRevisited(l, path);
    InvTUnique(l, i);
    assert (path + [j])[1..] == path[1..] + [j];
  }

  /** The walk from orig stays on cycle, where v is the inverse of T. */
  ghost predicate SmallTable(l: seq<byte>, orig: nat, cycle: seq<nat>, v: seq<nat>) {
    && |v| == |l| && orig in cycle
    && (forall r :: r in cycle ==> r < |l|)
    && forall r {:trigger v[r]} :: 0 <= r < |l| && r in cycle ==> v[r] == InvT(l, r) && v[r] in cycle
  }

  lemma {:induction false} CycleClosed(l: seq<byte>, path: seq<nat>, v: seq<nat>)
    requires Chain(l, path) && Reversed(l, path, v)
    requires |path| > 1 && path[|path|-1] == path[0]
    ensures SmallTable(l, path[0], path[1..], v)
  {
    var cycle := path[1..];
    assert cycle[|cycle|-1] == path[0];
    forall r | r in cycle ensures r < |l| && InvT(l, r) in cycle {
      var x :| 1 <= x < |path| && path[x] == r;
      InvTUnique(l, path[x - 1]);
      if x > 1 { assert cycle[x - 2] == path[x - 1]; }
    }
  }

  lemma {:induction false} RowOnCycle(l: seq<byte>, orig: nat, cycle: seq<nat>, v: seq<nat>, k: nat)
    requires orig < |l| && SmallTable(l, orig, cycle, v)
    ensures Row(l, orig, k) in cycle
    ensures v[Row(l, orig, k)] == Row(l, orig, k + 1)
  {
    if k > 0 {
      RowOnCycle(l, orig, cycle, v, k - 1);
    }
  }

  /** T is inverted in place by pointer reversal, but only along the cycle through origPtr. */
  method ReversePointers(ll16: array<u16>, ll4: array<byte>, nblock: nat, origPtr: nat, ghost l: seq<byte>)
    returns (ghost cycle: seq<nat>)
    requires |l| == nblock <= ll16.Length && nblock <= 2 * ll4.Length && nblock < LL_LIMIT
    requires origPtr < nblock
    requires Chained(l, Unpacked(ll16[..], ll4[..], nblock), ll16[..], nblock)
    modifies ll16, ll4
    ensures SmallTable(l, origPtr, cycle, Unpacked(ll16[..], ll4[..], nblock))
  {
    hide *;
    ghost var path := [origPtr];
    ReverseStart(l, origPtr, Unpacked(ll16[..], ll4[..], nblock), ll16[..]);
    var i := origPtr;
    var j := GetLL(ll16[..], ll4[..], i);
    while true
      invariant i < nblock && path != [] && path[0] == origPtr && path[|path|-1] == i && j == T(l, i)
      invariant Chain(l, path) && Reversed(l, path, Unpacked(ll16[..], ll4[..], nblock))
      invariant forall x :: 1 <= x < |path| ==> path[x] != path[0]
      decreases nblock - |path|
    {
      ghost var v := Unpacked(ll16[..], ll4[..], nblock);
      ReverseStep(l, path, v);
      var tmp := GetLL(ll16[..], ll4[..], j);
      SetLL(ll16, ll4, j, i, nblock);
      path := path + [j];
      i := j;
      j := tmp;
      if i == origPtr {
        CycleClosed(l, path, Unpacked(ll16[..], ll4[..], nblock));
        return path[1..];
      }
      assert forall x :: 1 <= x < |path| ==> path[x] != path[0];
    }
  }

  lemma {:induction false} ReverseStart(l: seq<byte>, orig: nat, v: seq<nat>, low: seq<u16>)
    requires orig < |l| && Chained(l, v, low, |l|)
    ensures Chain(l, [orig]) && Reversed(l, [orig], v) && v[orig] == T(l, orig) && orig < |v|
  {
  }
}
