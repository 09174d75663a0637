/** generateMTFValues: the move-to-front symbols are written over the sorted order they are made from. */
module MtfEncoder {
  import opened Bytes
  import opened Rotations
  import opened MoveToFront

  // ----- makeMaps_e and makeMaps_d

  /** How many byte values below v are in use. */
  function Used(inUse: seq<bool>, v: nat): (n: nat)
    requires v <= |inUse|
    ensures n <= v
  {
    if v == 0 then 0 else Used(inUse, v - 1) + if inUse[v - 1] then 1 else 0
  }

  lemma {:induction false} UsedGrows(inUse: seq<bool>, v: nat, w: nat)
    requires v < w <= |inUse|
    ensures Used(inUse, v) + (if inUse[v] then 1 else 0) <= Used(inUse, w)
    decreases w
  {
    if v < w - 1 { UsedGrows(inUse, v, w - 1); }
  }

  method MakeMapsE(inUse: array<bool>, unseqToSeq: array<byte>) returns (nInUse: nat)
    requires inUse.Length == unseqToSeq.Length == 256
    modifies unseqToSeq
    ensures nInUse == Used(inUse[..], 256)
    ensures forall v :: 0 <= v < 256 && inUse[v] ==> unseqToSeq[v] == Used(inUse[..], v) < nInUse
  {
    nInUse := 0;
    var i := 0;
    while i < 256
      invariant 0 <= i <= 256 && nInUse == Used(inUse[..], i)
      invariant forall v :: 0 <= v < i && inUse[v] ==> unseqToSeq[v] == Used(inUse[..], v) < nInUse
    {
      if inUse[i] {
        unseqToSeq[i] := nInUse;
        nInUse := nInUse + 1;
      }
      i := i + 1;
    }
  }

  method MakeMapsD(inUse: array<bool>, seqToUnseq: array<byte>) returns (nInUse: nat)
    requires inUse.Length == seqToUnseq.Length == 256
    modifies seqToUnseq
    ensures nInUse == Used(inUse[..], 256)
    ensures forall v :: 0 <= v < 256 && inUse[v] ==> Used(inUse[..], v) < 256 && seqToUnseq[Used(inUse[..], v)] == v
  {
    nInUse := 0;
    var i := 0;
    while i < 256
      invariant 0 <= i <= 256 && nInUse == Used(inUse[..], i)
      invariant forall v :: 0 <= v < i && inUse[v] ==>
        Used(inUse[..], v) < nInUse && seqToUnseq[Used(inUse[..], v)] == v
    {
      if inUse[i] {
        seqToUnseq[nInUse] := i;
        nInUse := nInUse + 1;
      }
      i := i + 1;
    }
  }

  // ----- counting symbols

  function Freq(s: seq<nat>, v: nat): nat {
    if s == [] then 0 else Freq(s[..|s|-1], v) + if s[|s|-1] == v then 1 else 0
  }

  lemma {:induction false} FreqSnoc(s: seq<nat>, c: nat, v: nat)
    ensures Freq(s + [c], v) == Freq(s, v) + if c == v then 1 else 0
  {
    assert (s + [c])[..|s|] == s;
  }

  /** The symbols written so far, with their frequencies. */
  ghost predicate Written(mem: seq<u16>, freq: seq<nat>, f0: seq<nat>, s: seq<nat>) {
    && |s| <= |mem| && |freq| == |f0| == 258
    && (forall x {:trigger s[x]} :: 0 <= x < |s| ==> mem[x] == s[x])
    && (forall v {:trigger freq[v]} :: 0 <= v < 258 ==> freq[v] == f0[v] + Freq(s, v))
  }

  lemma {:induction false} WrittenNext(mem: seq<u16>, freq: seq<nat>, f0: seq<nat>, s: seq<nat>, c: u16)
    requires Written(mem, freq, f0, s) && |s| < |mem| && c < 258
    ensures Written(mem[|s| := c], freq[c := freq[c] + 1], f0, s + [c as nat])
  {
    var freq' := freq[c := freq[c] + 1];
    forall v | 0 <= v < 258 ensures freq'[v] == f0[v] + Freq(s + [c as nat], v) {
      FreqSnoc(s, c, v);
    }
  }

  /** mtfv[wr] = c; wr++; mtfFreq[c]++. */
  method Emit(mem: array<u16>, mtfFreq: array<nat>, wr: nat, c: u16, ghost f0: seq<nat>, ghost s: seq<nat>)
    requires mem as object != mtfFreq && Written(mem[..], mtfFreq[..], f0, s) && wr == |s| < mem.Length && c < 258
    modifies mem, mtfFreq
    ensures Written(mem[..], mtfFreq[..], f0, s + [c as nat])
    ensures mem[..] == old(mem[..])[wr := c]
  {
    assert mtfFreq.Length == 258;
    WrittenNext(mem[..], mtfFreq[..], f0, s, c);
    hide *;
    ghost var m, f := mem[..], mtfFreq[..];
    mem[wr] := c;
    mtfFreq[c] := mtfFreq[c] + 1;
    assert mem[..] == m[wr := c];
    assert mtfFreq[..] == f[c := f[c] + 1];
  }

  lemma {:induction false} RunCodeStep(z: nat)
    requires z > 0
    ensures RunCode(z) == [if (z - 1) % 2 == 1 then RUNB else RUNA] + RunCode((z - 1) / 2)
    ensures z - 1 < 2 ==> RunCode((z - 1) / 2) == []
    ensures z - 1 >= 2 ==> (z - 1) / 2 == (z - 3) / 2 + 1
  {
  }

  ghost predicate Untouched(m: seq<u16>, m0: seq<u16>, i: nat) {
    |m| == |m0| && forall x {:trigger m[x]} :: i <= x < |m| ==> m[x] == m0[x]
  }

  /** The run of zPend front entries goes out. */
  method EmitRun(mem: array<u16>, mtfFreq: array<nat>, wr0: nat, zPend0: nat, ghost f0: seq<nat>, ghost s0: seq<nat>,
                 ghost end: nat) returns (wr: nat)
    requires mem as object != mtfFreq && Written(mem[..], mtfFreq[..], f0, s0) && wr0 == |s0|
    requires zPend0 > 0 && wr0 + zPend0 <= end <= mem.Length
    modifies mem, mtfFreq
    ensures Written(mem[..], mtfFreq[..], f0, s0 + RunCode(zPend0)) && wr == wr0 + |RunCode(zPend0)|
    ensures Untouched(mem[..], old(mem[..]), end)
  {
    ghost var m0 := mem[..];
    assert Untouched(m0, m0, end);
    hide *;
    var zPend := zPend0 - 1;
    wr := wr0;
    ghost var s := s0;
    while true
      invariant zPend >= 0 && wr == |s| && wr + zPend + 1 <= end <= mem.Length
      invariant Written(mem[..], mtfFreq[..], f0, s) && s + RunCode(zPend + 1) == s0 + RunCode(zPend0)
      invariant Untouched(mem[..], m0, end)
      decreases zPend
    {
      RunCodeStep(zPend + 1);
      var c := if zPend % 2 == 1 then 1 else 0;
      ghost var m := mem[..];
      Emit(mem, mtfFreq, wr, c, f0, s);
      UntouchedWrite(m, m0, end, wr, c);
      RunSymbols(zPend);
      Assoc(s, [c as nat], RunCode(zPend / 2));
      s := s + [c as nat];
      wr := wr + 1;
      if zPend < 2 { break; }
      zPend := (zPend - 2) / 2;
    }
    assert s + [] == s;
  }

  lemma {:induction false} RunSymbols(z: nat)
    ensures (if z % 2 == 1 then RUNB else RUNA) == if z % 2 == 1 then 1 else 0
  {
  }

  lemma {:induction false} Assoc(a: seq<nat>, b: seq<nat>, c: seq<nat>)
    ensures a + (b + c) == a + b + c
  {
  }

  lemma {:induction false} UntouchedWrite(m: seq<u16>, m0: seq<u16>, i: nat, x: nat, c: u16)
    requires Untouched(m, m0, i) && x < i && x < |m|
    ensures Untouched(m[x := c], m0, i)
  {
  }

  // ----- the list

  ghost predicate Shifted(m: seq<byte>, l: seq<byte>, j: nat) {
    && |m| == |l| && 0 < j < |l|
    && (forall x {:trigger m[x]} :: 1 <= x <= j ==> m[x] == l[x - 1])
    && (forall x {:trigger m[x]} :: j < x < |l| ==> m[x] == l[x])
  }

  /** Finds c in the list, which does not start with it, and moves it to the front on the way. */
  method Search(yy: array<byte>, c: byte, n: nat) returns (j: nat)
    requires n <= yy.Length && c in yy[..n] && n > 0 && yy[0] != c
    modifies yy
    ensures 0 < j < n && j == PosOf(old(yy[..n]), c, 0) && yy[..n] == MoveFront(old(yy[..n]), j)
  {
    ghost var l := yy[..n];
    assert l[0..] == l;
    ghost var p := PosOf(l, c, 0);
    SearchPos(l, c, p);
    var rtmp := yy[1];
    yy[1] := yy[0];
    j := 1;
    while c != rtmp
      invariant 1 <= j <= p < n <= yy.Length && rtmp == l[j] && Shifted(yy[..n], l, j)
      decreases p - j
    {
      j := j + 1;
      var rtmp2 := rtmp;
      rtmp := yy[j];
      yy[j] := rtmp2;
    }
    yy[0] := rtmp;
  }

  lemma {:induction false} SearchPos(l: seq<byte>, c: byte, p: nat)
    requires c in l[0..] && p == PosOf(l, c, 0) && l[0] != c
    ensures 0 < p < |l| && l[p] == c
    ensures forall x {:trigger l[x]} :: 0 <= x < p ==> l[x] != c
  {
    assert forall x :: 0 <= x < p ==> l[0..p][x] == l[x];
  }

  // ----- generateMTFValues

  /** The sorted order, as 32-bit words in the memory that the symbols overwrite. */
  function PtrAt(mem: seq<u16>, i: nat): nat
    requires 2 * i + 1 < |mem|
  {
    mem[2 * i] as int + 0x1_0000 * mem[2 * i + 1] as int
  }

  ghost predicate Holds(mem: seq<u16>, p: seq<nat>) {
    && |mem| >= 2 * |p|
    && forall i {:trigger p[i]} :: 0 <= i < |p| ==> PtrAt(mem, i) == p[i] < |p|
  }

  /** Bytes of the block are in use. */
  ghost predicate InUse(b: seq<byte>, inUse: seq<bool>) {
    |inUse| == 256 && forall i {:trigger b[i]} :: 0 <= i < |b| ==> inUse[b[i]]
  }

  /** The last column, as ranks among the bytes in use. */
  function Ranks(col: seq<byte>, inUse: seq<bool>): (r: seq<byte>)
    requires |inUse| == 256
    ensures |r| == |col|
    ensures forall i :: 0 <= i < |col| ==> r[i] == Used(inUse, col[i])
  {
    seq(|col|, i requires 0 <= i < |col| => Used(inUse, col[i]))
  }

  lemma {:induction false} RanksCovered(col: seq<byte>, inUse: seq<bool>)
    requires InUse(col, inUse)
    ensures Covers(Iota(Used(inUse, 256)), Ranks(col, inUse))
  {
    var l := Iota(Used(inUse, 256));
    forall i | 0 <= i < |col| ensures Ranks(col, inUse)[i] in l {
      UsedGrows(inUse, col[i], 256);
      assert l[Used(inUse, col[i])] == Used(inUse, col[i]);
    }
  }

  /** Before entry i: s is written, the list is l, z front entries are pending. */
  ghost predicate Coding(mem: seq<u16>, m0: seq<u16>, freq: seq<nat>, f0: seq<nat>, l: seq<byte>, z: int, c: seq<byte>,
                         i: int, s: seq<nat>, whole: seq<nat>)
  {
    && 0 <= z && |s| + z <= i <= |c| && 2 * |c| <= |mem|
    && Written(mem, freq, f0, s) && Untouched(mem, m0, i)
    && l != [] && Covers(l, c) && s + Codes(l, z, c, i) == whole
  }

  lemma {:induction false} CodingOpen(mem: seq<u16>, m0: seq<u16>, freq: seq<nat>, f0: seq<nat>, l: seq<byte>, z: int,
                                      c: seq<byte>, i: int,
                                      s: seq<nat>, whole: seq<nat>)
    requires Coding(mem, m0, freq, f0, l, z, c, i, s, whole)
    ensures 0 <= z && |s| + z <= i <= |c| && 2 * |c| <= |mem| && |freq| == 258 && l != []
    ensures Written(mem, freq, f0, s) && Untouched(mem, m0, i)
    ensures i < |c| ==> c[i] in l
  {
  }

  lemma {:induction false} CodingSame(mem: seq<u16>, m0: seq<u16>, freq: seq<nat>, f0: seq<nat>, l: seq<byte>, z: int,
                                      c: seq<byte>, i: int,
                                      s: seq<nat>, whole: seq<nat>)
    requires Coding(mem, m0, freq, f0, l, z, c, i, s, whole) && i < |c| && c[i] == l[0]
    ensures Coding(mem, m0, freq, f0, l, z + 1, c, i + 1, s, whole)
  {
    hide Written, Covers;
  }

  lemma {:induction false} CodingMove(mem: seq<u16>, m0: seq<u16>, freq: seq<nat>, f0: seq<nat>, l: seq<byte>, z: int,
                                      c: seq<byte>, i: int,
                                      s: seq<nat>, whole: seq<nat>, mem': seq<u16>, freq': seq<nat>, p: nat)
    requires Coding(mem, m0, freq, f0, l, z, c, i, s, whole) && i < |c| && c[i] != l[0] && c[i] in l[0..]
      && p == PosOf(l, c[i], 0)
    requires Written(mem', freq', f0, s + RunCode(z) + [p + 1]) && Untouched(mem', mem, i + 1)
    ensures Coding(mem', m0, freq', f0, MoveFront(l, p), 0, c, i + 1, s + RunCode(z) + [p + 1], whole)
  {
    RunCodeShort(z);
    CoversMove(l, c, p);
    UntouchedTrans(mem', mem, m0, i);
    hide Written, Covers, RunCode, Untouched, MoveFront;
    assert s + (RunCode(z) + [p + 1] + Codes(MoveFront(l, p), 0, c, i + 1))
        == s + RunCode(z) + [p + 1] + Codes(MoveFront(l, p), 0, c, i + 1);
  }

  lemma {:induction false} UntouchedTrans(mem': seq<u16>, mem: seq<u16>, m0: seq<u16>, i: nat)
    requires Untouched(mem', mem, i + 1) && Untouched(mem, m0, i)
    ensures Untouched(mem', m0, i + 1)
  {
  }

  /** The symbols of a block: what follows from its last column and the bytes in use. */
  function Symbols(col: seq<byte>, inUse: seq<bool>): seq<nat>
    requires InUse(col, inUse) && col != []
  {
    RanksCovered(col, inUse);
    assert 0 < Used(inUse, 256) by { UsedGrows(inUse, col[0], 256); }
    Codes(Iota(Used(inUse, 256)), 0, Ranks(col, inUse), 0) + [Used(inUse, 256) + 1]
  }

  /** The rank of the byte before rotation ptr[i]. */
  method RankAt(mem: array<u16>, block: array<byte>, nblock: nat, unseqToSeq: array<byte>, i: nat, ghost m0: seq<u16>,
                ghost p: seq<nat>, ghost inUse: seq<bool>)
    returns (ll_i: byte)
    requires nblock == |p| <= block.Length && i < |p| && Holds(m0, p) && Untouched(mem[..], m0, i)
    requires InUse(block[..nblock], inUse) && unseqToSeq.Length == 256
    requires forall v :: 0 <= v < 256 && inUse[v] ==> unseqToSeq[..][v] == Used(inUse, v)
    ensures InUse(LastColumn(block[..nblock], p), inUse)
    ensures ll_i == Ranks(LastColumn(block[..nblock], p), inUse)[i]
  {
    assert PtrAt(mem[..], i) == p[i];
    LastColumnInUse(block[..nblock], p, inUse);
    var j: int := mem[2 * i] as int + 0x1_0000 * mem[2 * i + 1] as int - 1;
    if j < 0 { j := j + nblock; }
    assert LastColumn(block[..nblock], p)[i] == block[j];
    ll_i := unseqToSeq[block[j]];
  }

  lemma {:induction false} LastColumnInUse(b: seq<byte>, p: seq<nat>, inUse: seq<bool>)
    requires |b| == |p| > 0 && (forall i {:trigger p[i]} :: 0 <= i < |p| ==> p[i] < |p|) && InUse(b, inUse)
    ensures InUse(LastColumn(b, p), inUse)
    ensures forall i :: 0 <= i < |p| ==> LastColumn(b, p)[i] == b[if p[i] == 0 then |b| - 1 else p[i] - 1]
  {
    forall i | 0 <= i < |p| ensures LastColumn(b, p)[i] == b[if p[i] == 0 then |b| - 1 else p[i] - 1] {
      assert Cyc(b, p[i] + |b| - 1) == b[if p[i] == 0 then |b| - 1 else p[i] - 1];
    }
  }

  /** One entry of the sorted order: a longer run, or symbols for the run and for the list position. */
  method CodeEntry(mem: array<u16>, mtfFreq: array<nat>, yy: array<byte>, nInUse: nat, ll_i: byte, wr: nat, zPend: nat,
                   i: nat,
                   ghost m0: seq<u16>, ghost f0: seq<nat>, ghost c: seq<byte>, ghost s: seq<nat>, ghost whole: seq<nat>)
    returns (wr': nat, zPend': nat, ghost s': seq<nat>)
    requires mem as object != mtfFreq && yy as object != mem && yy as object != mtfFreq && nInUse <= 256 <= yy.Length
    requires Coding(mem[..], m0, mtfFreq[..], f0, yy[..nInUse], zPend, c, i, s, whole) && i < |c| && ll_i == c[i]
      && wr == |s|
    modifies mem, mtfFreq, yy
    ensures Coding(mem[..], m0, mtfFreq[..], f0, yy[..nInUse], zPend', c, i + 1, s', whole) && wr' == |s'|
  {
    hide *;
    ghost var l, m := yy[..nInUse], mem[..];
    CodingOpen(m, m0, mtfFreq[..], f0, l, zPend, c, i, s, whole);
    assert l[0..] == l;
    wr', s' := wr, s;
    if yy[0] == ll_i {
      CodingSame(m, m0, mtfFreq[..], f0, l, zPend, c, i, s, whole);
      zPend' := zPend + 1;
    } else {
      ghost var f := mtfFreq[..];
      UntouchedNone(m, i + 1);
      RunCodeNone(s);
      if zPend > 0 {
        wr' := EmitRun(mem, mtfFreq, wr, zPend, f0, s, i + 1);
      }
      s' := s + RunCode(zPend);
      RunCodeShort(zPend);
      var j := Search(yy, ll_i, nInUse);
      ghost var m1 := mem[..];
      Emit(mem, mtfFreq, wr', j + 1, f0, s');
      UntouchedWrite(m1, m, i + 1, wr', j + 1);
      CodingMove(m, m0, f, f0, l, zPend, c, i, s, whole, mem[..], mtfFreq[..], j);
      s' := s' + [j + 1];
      wr' := wr' + 1;
      zPend' := 0;
    }
  }

  lemma {:induction false} UntouchedNone(m: seq<u16>, i: nat)
    ensures Untouched(m, m, i)
  {
  }

  lemma {:induction false} RunCodeNone(s: seq<nat>)
    ensures s + RunCode(0) == s
  {
  }

  method ClearFreq(mtfFreq: array<nat>, eob: nat)
    requires mtfFreq.Length == 258 && eob <= 257
    modifies mtfFreq
    ensures forall v :: 0 <= v <= eob ==> mtfFreq[v] == 0
    ensures forall v :: eob < v < 258 ==> mtfFreq[v] == old(mtfFreq[v])
  {
    var i := 0;
    while i <= eob
      invariant 0 <= i <= eob + 1
      invariant forall v :: 0 <= v < i ==> mtfFreq[v] == 0
      invariant forall v :: i <= v < 258 ==> mtfFreq[v] == old(mtfFreq[v])
    {
      mtfFreq[i] := 0;
      i := i + 1;
    }
  }

  lemma {:induction false} CodingStart(mem: seq<u16>, freq: seq<nat>, b: seq<byte>, p: seq<nat>, inUse: seq<bool>)
    requires |freq| == 258 && |b| == |p| > 0 && Holds(mem, p) && InUse(b, inUse)
    ensures InUse(LastColumn(b, p), inUse) && 0 < Used(inUse, 256)
    ensures var col := LastColumn(b, p);
      Coding(mem, mem, freq, freq, Iota(Used(inUse, 256)), 0, Ranks(col, inUse), 0, [],
             Symbols(col, inUse)[..|Symbols(col, inUse)|-1])
  {
    LastColumnInUse(b, p, inUse);
    var col := LastColumn(b, p);
    RanksCovered(col, inUse);
    UsedGrows(inUse, col[0], 256);
    var n := Used(inUse, 256);
    var codes := Codes(Iota(n), 0, Ranks(col, inUse), 0);
    assert Symbols(col, inUse) == codes + [n + 1];
    assert (codes + [n + 1])[..|codes|] == codes && [] + codes == codes;
    assert forall v :: 0 <= v < 258 ==> freq[v] == freq[v] + Freq([], v);
  }

  lemma {:induction false} CodingEnd(mem: seq<u16>, m0: seq<u16>, freq: seq<nat>, f0: seq<nat>, l: seq<byte>, z: int,
                                     c: seq<byte>, s: seq<nat>, whole: seq<nat>)
    requires Coding(mem, m0, freq, f0, l, z, c, |c|, s, whole)
    ensures s + RunCode(z) == whole && |s| + z <= |c|
  {
  }

  lemma {:induction false} SymbolsEnd(col: seq<byte>, inUse: seq<bool>)
    requires InUse(col, inUse) && col != []
    ensures var s := Symbols(col, inUse); s == s[..|s|-1] + [Used(inUse, 256) + 1]
  {
  }

  /** generateMTFValues: mem holds the order ptr when it starts, and the symbols mtfv when it is done. */
  method GenerateMtfValues(mem: array<u16>, block: array<byte>, nblock: nat, inUse: array<bool>,
                           unseqToSeq: array<byte>, mtfFreq: array<nat>,
                           ghost p: seq<nat>)
    returns (nInUse: nat, nMTF: nat)
    requires mem as object != mtfFreq && unseqToSeq != block && block as object != mem && unseqToSeq as object != mem
    requires inUse.Length == unseqToSeq.Length == 256 && mtfFreq.Length == 258
    requires nblock == |p| > 0 && nblock <= block.Length && Holds(mem[..], p) && InUse(block[..nblock], inUse[..])
    modifies mem, unseqToSeq, mtfFreq
    ensures nInUse == Used(inUse[..], 256)
    ensures InUse(LastColumn(block[..nblock], p), inUse[..])
    ensures var syms := Symbols(LastColumn(block[..nblock], p), inUse[..]);
      && nMTF == |syms| <= nblock + 1 && nMTF <= mem.Length
      && (forall x :: 0 <= x < nMTF ==> mem[x] == syms[x])
      && (forall v :: 0 <= v <= nInUse + 1 < 258 ==> mtfFreq[v] == Freq(syms, v))
  {
    ghost var used, b, m0 := inUse[..], block[..nblock], mem[..];
    nInUse := MakeMapsE(inUse, unseqToSeq);
    var eob := nInUse + 1;
    ClearFreq(mtfFreq, eob);
    ghost var f0 := mtfFreq[..];
    CodingStart(m0, f0, b, p, used);
    ghost var col := LastColumn(b, p);
    ghost var c, whole := Ranks(col, used), Symbols(col, used)[..|Symbols(col, used)|-1];
    var yy := new byte[256];
    StartList(yy, nInUse);
    assert |c| == |p|;
    assert forall v :: 0 <= v < 256 && used[v] ==> unseqToSeq[..][v] == Used(used, v);
    hide *;
    nMTF := CodeAll(mem, block, nblock, unseqToSeq, mtfFreq, yy, nInUse, eob, m0, f0, p, used, c, whole);
    SymbolsEnd(col, used);
    WrittenAll(mem[..], mtfFreq[..], f0, Symbols(col, used), eob);
  }

  method CodeAll(mem: array<u16>, block: array<byte>, nblock: nat, unseqToSeq: array<byte>, mtfFreq: array<nat>,
                 yy: array<byte>, nInUse: nat, eob: nat, ghost m0: seq<u16>, ghost f0: seq<nat>, ghost p: seq<nat>,
                   ghost used: seq<bool>,
                 ghost c: seq<byte>, ghost whole: seq<nat>)
    returns (nMTF: nat)
    requires mem as object != mtfFreq && unseqToSeq != block && block as object != mem && unseqToSeq as object != mem
    requires yy != block && yy != unseqToSeq && yy as object != mem && yy as object != mtfFreq
    requires nInUse <= 256 <= yy.Length && unseqToSeq.Length == 256 && eob < 258
    requires nblock == |p| == |c| > 0 && nblock <= block.Length && Holds(m0, p) && InUse(block[..nblock], used)
    requires InUse(LastColumn(block[..nblock], p), used) && c == Ranks(LastColumn(block[..nblock], p), used)
    requires forall v :: 0 <= v < 256 && used[v] ==> unseqToSeq[..][v] == Used(used, v)
    requires Coding(mem[..], m0, mtfFreq[..], f0, yy[..nInUse], 0, c, 0, [], whole)
    modifies mem, mtfFreq, yy
    ensures Written(mem[..], mtfFreq[..], f0, whole + [eob]) && nMTF == |whole| + 1 <= |p| + 1
  {
    hide *;
    ghost var s: seq<nat> := [];
    var wr: nat, zPend: nat, i: nat := 0, 0, 0;
    while i < nblock
      invariant i <= nblock && wr == |s|
      invariant Coding(mem[..], m0, mtfFreq[..], f0, yy[..nInUse], zPend, c, i, s, whole)
    {
      CodingOpen(mem[..], m0, mtfFreq[..], f0, yy[..nInUse], zPend, c, i, s, whole);
      var ll_i := RankAt(mem, block, nblock, unseqToSeq, i, m0, p, used);
      wr, zPend, s := CodeEntry(mem, mtfFreq, yy, nInUse, ll_i, wr, zPend, i, m0, f0, c, s, whole);
      i := i + 1;
    }
    CodingOpen(mem[..], m0, mtfFreq[..], f0, yy[..nInUse], zPend, c, i, s, whole);
    CodingEnd(mem[..], m0, mtfFreq[..], f0, yy[..nInUse], zPend, c, s, whole);
    RunCodeShort(zPend);
    if zPend > 0 {
      wr := EmitRun(mem, mtfFreq, wr, zPend, f0, s, |p|);
    } else {
      RunCodeNone(s);
    }
    Emit(mem, mtfFreq, wr, eob, f0, whole);
    nMTF := wr + 1;
  }

  lemma {:induction false} WrittenAll(mem: seq<u16>, freq: seq<nat>, f0: seq<nat>, s: seq<nat>, eob: nat)
    requires Written(mem, freq, f0, s) && forall v :: 0 <= v <= eob && v < 258 ==> f0[v] == 0
    ensures |s| <= |mem| && |freq| == 258 && forall x :: 0 <= x < |s| ==> mem[x] == s[x]
    ensures forall v :: 0 <= v <= eob && v < 258 ==> freq[v] == Freq(s, v)
  {
  }

  method StartList(yy: array<byte>, n: nat)
    requires n <= 256 == yy.Length
    modifies yy
    ensures yy[..n] == Iota(n)
  {
    var i := 0;
    while i < n
      invariant 0 <= i <= n && forall x :: 0 <= x < i ==> yy[x] == x
    {
      yy[i] := i;
      i := i + 1;
    }
  }

  // ----- the round trip

  /** The decoder's map from ranks back to bytes. */
  ghost predicate Inverts(seqToUnseq: seq<byte>, inUse: seq<bool>) {
    && |inUse| == 256 == |seqToUnseq|
    && forall v {:trigger inUse[v]} :: 0 <= v < 256 && inUse[v] ==>
       Used(inUse, v) < 256 && seqToUnseq[Used(inUse, v)] == v
  }

  /** The decoder, fed with the symbols of a column, ends with that column. */
  lemma {:induction false} SymbolsDecode(col: seq<byte>, inUse: seq<bool>, seqToUnseq: seq<byte>, max: nat)
    requires InUse(col, inUse) && 0 < |col| <= max < 0x10_0000 && Inverts(seqToUnseq, inUse)
    ensures Used(inUse, 256) <= 256
    ensures FeedAll(Undo(Iota(256), -1, 1, []), Symbols(col, inUse), Used(inUse, 256) + 1, seqToUnseq, max)
      == Finished(col)
  {
    var n, r, u := Used(inUse, 256), Ranks(col, inUse), Undo(Iota(256), -1, 1, []);
    RanksCovered(col, inUse);
    UsedGrows(inUse, col[0], 256);
    assert Iota(256)[..n] == Iota(n);
    CodesDecode(u, Iota(n), 0, r, 0, n + 1, seqToUnseq, max);
    var m := Mapped(r, seqToUnseq, 0);
    forall i | 0 <= i < |col| ensures m[i] == col[i] {
      assert inUse[col[i]];
    }
    assert m == col;
    assert Rest([], 0, 0, r, 0, seqToUnseq) == col;
  }
}
