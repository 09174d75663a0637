/** The main loop of inflate_table: filling a two-level table from a sorted list of codes. */
module CodeTables {
  import opened Powers
  import opened KraftSums
  import opened StreamCodes
  import opened TableSpace

  datatype CodeType = CODES | LENS | DISTS

  /** A table entry: for a link, op is the number of index bits and val the place of the sub-table. */
  datatype Entry = Entry(op: nat, bits: nat, val: nat)

  const INVALID := Entry(64, 1, 0)
  /** Not an entry of any table. */
  const NOWHERE := Entry(64, 0, 0)

  function LengthBase(): (s: seq<nat>)
    ensures |s| == 31
  {
    [3, 4, 5, 6, 7, 8, 9, 10, 11, 13, 15, 17, 19, 23, 27, 31, 35, 43, 51, 59, 67, 83, 99, 115, 131, 163, 195, 227, 258,
     0, 0]
  }

  function LengthExtra(): (s: seq<nat>)
    ensures |s| == 31 && forall i :: 0 <= i < 31 ==> s[i] >= 16
  {
    [16, 16, 16, 16, 16, 16, 16, 16, 17, 17, 17, 17, 18, 18, 18, 18, 19, 19, 19, 19, 20, 20, 20, 20, 21, 21, 21, 21, 16,
     199, 202]
  }

  function DistBase(): (s: seq<nat>)
    ensures |s| == 32
  {
    [1, 2, 3, 4, 5, 7, 9, 13, 17, 25, 33, 49, 65, 97, 129, 193, 257, 385, 513, 769, 1025, 1537, 2049, 3073, 4097, 6145,
     8193, 12289, 16385, 24577, 0, 0]
  }

  function DistExtra(): (s: seq<nat>)
    ensures |s| == 32 && forall i :: 0 <= i < 32 ==> s[i] >= 16
  {
    [16, 16, 16, 16, 17, 17, 18, 18, 19, 19, 20, 20, 21, 21, 22, 22, 23, 23, 24, 24, 25, 25, 26, 26, 27, 27, 28, 28, 29,
     29, 64, 64]
  }

  /** The powers of two that extra bits stand for. */
  lemma {:induction false} ExtraSizes()
    ensures Pow2(0) == 1 && Pow2(1) == 2 && Pow2(2) == 4 && Pow2(3) == 8 && Pow2(4) == 16 && Pow2(5) == 32
      && Pow2(6) == 64
    ensures Pow2(7) == 128 && Pow2(8) == 256 && Pow2(9) == 512 && Pow2(10) == 1024 && Pow2(11) == 2048
      && Pow2(12) == 4096
    ensures Pow2(13) == 8192
  {
    assert Pow2(4) == 16 && Pow2(8) == 256;
  }

  /**
   * The lengths of section 3.2.5 of RFC 1951: eight codes without extra bits from 3 on, then four codes for each number
   * of extra bits, and 258 with a code of its own.
   */
  lemma {:induction false} LengthLayout(s: nat)
    requires s < 28
    ensures LengthExtra()[s] - 16 == if s < 8 then 0 else s / 4 - 1
    ensures LengthBase()[s] == 3 + if s < 8 then s else (4 + s % 4) * Pow2(s / 4 - 1)
    ensures LengthBase()[28] == 258 && LengthExtra()[28] == 16
  {
    ExtraSizes();
    hide Pow2;
  }

  /** And the distances: four codes without extra bits from 1 on, then two codes for each number of extra bits. */
  lemma {:induction false} DistanceLayout(s: nat)
    requires s < 30
    ensures DistExtra()[s] - 16 == if s < 4 then 0 else s / 2 - 1
    ensures DistBase()[s] == 1 + if s < 4 then s else (2 + s % 2) * Pow2(s / 2 - 1)
  {
    hide *;
    if s < 10 { DistanceLayoutFrom0(s); } else if s < 20 { DistanceLayoutFrom10(s); } else { DistanceLayoutFrom20(s); }
  }

  lemma {:induction false} DistanceLayoutFrom0(s: nat)
    requires s < 10
    ensures DistExtra()[s] - 16 == if s < 4 then 0 else s / 2 - 1
    ensures DistBase()[s] == 1 + if s < 4 then s else (2 + s % 2) * Pow2(s / 2 - 1)
  {
    ExtraSizes();
    hide Pow2;
  }

  lemma {:induction false} DistanceLayoutFrom10(s: nat)
    requires 10 <= s < 20
    ensures DistExtra()[s] - 16 == s / 2 - 1 && DistBase()[s] == 1 + (2 + s % 2) * Pow2(s / 2 - 1)
  {
    ExtraSizes();
    hide Pow2;
  }

  lemma {:induction false} DistanceLayoutFrom20(s: nat)
    requires 20 <= s < 30
    ensures DistExtra()[s] - 16 == s / 2 - 1 && DistBase()[s] == 1 + (2 + s % 2) * Pow2(s / 2 - 1)
  {
    ExtraSizes();
    hide Pow2;
  }

  /** The lengths 3 to 258 follow each other without gap or overlap, but for 258, which has a code of its own. */
  lemma {:induction false} LengthsCovered(s: nat)
    requires s < 28
    ensures LengthBase()[s + 1] == LengthBase()[s] + Pow2(LengthExtra()[s] - 16) - if s == 27 then 1 else 0
  {
    ExtraSizes();
    hide Pow2;
  }

  /** So do the distances 1 to 32768. */
  lemma {:induction false} DistancesCovered(s: nat)
    requires s < 30
    ensures DistBase()[s] + Pow2(DistExtra()[s] - 16) == if s < 29 then DistBase()[s + 1] else 32769
  {
    hide *;
    if s < 8 { DistancesFrom0(s); } else if s < 16 { DistancesFrom8(s); } else if s < 24 { DistancesFrom16(s); }
      else { DistancesFrom24(s); }
  }

  lemma {:induction false} DistancesFrom0(s: nat)
    requires 0 <= s < 8
    ensures DistBase()[s] + Pow2(DistExtra()[s] - 16) == if s < 29 then DistBase()[s + 1] else 32769
  {
    hide Pow2;
    ExtraSizes();
  }

  lemma {:induction false} DistancesFrom8(s: nat)
    requires 8 <= s < 16
    ensures DistBase()[s] + Pow2(DistExtra()[s] - 16) == if s < 29 then DistBase()[s + 1] else 32769
  {
    hide Pow2;
    ExtraSizes();
  }

  lemma {:induction false} DistancesFrom16(s: nat)
    requires 16 <= s < 24
    ensures DistBase()[s] + Pow2(DistExtra()[s] - 16) == if s < 29 then DistBase()[s + 1] else 32769
  {
    hide Pow2;
    ExtraSizes();
  }

  lemma {:induction false} DistancesFrom24(s: nat)
    requires 24 <= s < 30
    ensures DistBase()[s] + Pow2(DistExtra()[s] - 16) == if s < 29 then DistBase()[s + 1] else 32769
  {
    hide Pow2;
    ExtraSizes();
  }

  /** What the table says for a symbol whose code (or what remains of it) has n bits. */
  function Says(kind: CodeType, sym: nat, n: nat): Entry {
    match kind
    case CODES => Entry(0, n, sym)
    case LENS =>
      if sym < 256 then Entry(0, n, sym)
      else if sym == 256 then Entry(96, n, 0)
      else if sym - 257 < 31 then Entry(LengthExtra()[sym - 257], n, LengthBase()[sym - 257])
      else Entry(64, n, 0)
    case DISTS => if sym < 32 then Entry(DistExtra()[sym], n, DistBase()[sym]) else Entry(64, n, 0)
  }

  /**
   * The two length symbols and the two distance symbols that are not used stand for invalid codes: only bit 64
   * counts.
   */
  lemma {:induction false} UnusedSymbols(sym: nat, n: nat)
    ensures 286 <= sym ==> Says(LENS, sym, n).op / 16 % 8 == 4
    ensures 30 <= sym ==> Says(DISTS, sym, n).op / 16 % 8 == 4
    ensures Says(LENS, 256, n).op / 16 % 8 == 6
  {
  }

  predicate IsLink(e: Entry) {
    1 <= e.op < 16
  }

  lemma {:induction false} SaysNoLink(kind: CodeType, sym: nat, n: nat)
    ensures !IsLink(Says(kind, sym, n)) && Says(kind, sym, n).bits == n
    ensures forall m {:trigger Says(kind, sym, m)} :: Says(kind, sym, m) == Says(kind, sym, n).(bits := m)
  {
  }

  /** Two steps through the table: what the stream v starts with; bits are those used in all. */
  function Lookup(t: seq<Entry>, root: nat, v: nat): Entry {
    if Low(v, root) >= |t| then NOWHERE else
      var e := t[Low(v, root)];
      if !IsLink(e) then e else if e.bits != root then NOWHERE else
        var x := e.val + Low(Shr(v, e.bits), e.op);
        if x >= |t| then NOWHERE else t[x].(bits := e.bits + t[x].bits)
  }

  // ----- what the table holds so far

  /** The sub-table (or root table) being filled. */
  datatype Place = Place(root: nat, next: nat, curr: nat, drop: nat, low: nat)

  ghost predicate FoundAt(t: seq<Entry>, pl: Place, kind: CodeType, sym: nat, n: nat, v: nat) {
    Low(v, pl.root) < |t| &&
    var e := t[Low(v, pl.root)];
    if n <= pl.root then e == Says(kind, sym, n) else
      && IsLink(e) && e.bits == pl.root && Pow2(pl.root) <= e.val
      && e.val + Low(Shr(v, pl.root), e.op) < |t|
         && t[e.val + Low(Shr(v, pl.root), e.op)] == Says(kind, sym, n - pl.root)
      && (e.val + Pow2(e.op) <= pl.next || (Low(v, pl.root) == pl.low && e.val == pl.next && e.op == pl.curr))
  }

  /** The first p codes are found. */
  ghost predicate Found(t: seq<Entry>, pl: Place, kind: CodeType, work: seq<nat>, l: seq<nat>, p: nat) {
    && p <= |l| <= |work|
    && (forall q, v: nat {:trigger Starts(l, q, v)} :: 0 <= q < p && Starts(l, q, v) ==>
        FoundAt(t, pl, kind, work[q], l[q], v))
    && (pl.drop == 0 ==> forall q {:trigger l[q]} :: 0 <= q < p ==> l[q] <= pl.root)
  }

  ghost predicate PlaceOk(t: seq<Entry>, pl: Place) {
    && 1 <= pl.root <= MAXBITS && 1 <= pl.curr <= MAXBITS && pl.next + Pow2(pl.curr) <= |t|
    && if pl.drop == 0 then pl.next == 0 && pl.curr == pl.root
       else
         && pl.drop == pl.root && Pow2(pl.root) <= pl.next && pl.low < Pow2(pl.root)
         && t[pl.low] == Entry(pl.curr, pl.root, pl.next)
  }

  /** Code p belongs into the table being filled. */
  ghost predicate Belongs(pl: Place, l: seq<nat>, p: nat, huff: nat) {
    && p < |l| && 1 <= l[p] <= MAXBITS && huff < Pow2(l[p]) && Starts(l, p, huff)
    && if pl.drop == 0 then l[p] <= pl.root
       else pl.drop == pl.root < l[p] && Low(huff, pl.root) == pl.low && Reach(l, p, pl.root, pl.low, pl.root + pl.curr)
  }

  /** The entry has been copied to every index that continues h, which has k bits. */
  ghost predicate Filled(t: seq<Entry>, t': seq<Entry>, next: nat, curr: nat, h: nat, k: nat, here: Entry) {
    && |t'| == |t|
    && forall x {:trigger t'[x]} :: 0 <= x < |t| ==>
         t'[x] == if next <= x < next + Pow2(curr) && Low(x - next, k) == h then here else t[x]
  }

  lemma {:induction false} FilledRoot(t: seq<Entry>, t': seq<Entry>, pl: Place, kind: CodeType, work: seq<nat>,
                                      l: seq<nat>, p: nat, huff: nat, q: nat, v: nat)
    requires Ascending(l) && Found(t, pl, kind, work, l, p) && PlaceOk(t, pl) && Belongs(pl, l, p, huff) && pl.drop == 0
    requires Filled(t, t', 0, pl.root, huff, l[p], Says(kind, work[p], l[p])) && q <= p && Starts(l, q, v)
    ensures FoundAt(t', pl, kind, work[q], l[q], v)
  {
    hide Starts, Head, Code, Says, Low, Pow2, Shr;
    var i := Low(v, pl.root);
    LowLow(v, l[p], pl.root);
    LowSmall(huff, l[p]);
    if q == p {
      SameCode(l, p, v, huff, l[p]);
    } else {
      assert FoundAt(t, pl, kind, work[q], l[q], v);
      if Low(v, l[p]) == huff {
        StartsSame(l, p, huff, v);
        PrefixFree(l, p, q, v);
        assert false;
      }
    }
  }

  lemma {:induction false} StartsSame(l: seq<nat>, p: nat, u: nat, v: nat)
    requires p < |l| && Starts(l, p, u) && Low(v, l[p]) == Low(u, l[p])
    ensures Starts(l, p, v)
  {
    hide Low, Head, Code;
    HeadLow(u, v, l[p]);
  }

  /** The index bits and the rest make up the code. */
  lemma {:induction false} TwoParts(v: nat, huff: nat, root: nat, n: nat)
    requires root <= n && huff < Pow2(n) && Low(v, root) == Low(huff, root)
    ensures Low(v, n) == huff <==> Low(Shr(v, root), n - root) == Shr(huff, root)
  {
    hide Shr, Low, Pow2;
    ShrLow(v, root, n - root);
    LowSmall(huff, n);
    HighLow(Low(v, n), root);
    HighLow(huff, root);
    LowLow(v, root, n);
  }

  lemma {:induction false} FilledSub(t: seq<Entry>, t': seq<Entry>, pl: Place, kind: CodeType, work: seq<nat>,
                                     l: seq<nat>, p: nat, huff: nat, q: nat, v: nat)
    requires Ascending(l) && Found(t, pl, kind, work, l, p) && PlaceOk(t, pl) && Belongs(pl, l, p, huff) && pl.drop != 0
    requires Filled(t, t', pl.next, pl.curr, Shr(huff, pl.root), l[p] - pl.root, Says(kind, work[p], l[p] - pl.root))
      && q <= p && Starts(l, q, v)
    ensures FoundAt(t', pl, kind, work[q], l[q], v)
  {
    hide Starts, Head, Code, Says, Low, Pow2, Shr, Ascending, Reach;
    var i := Low(v, pl.root);
    assert i < pl.next;
    if q == p {
      SameCode(l, p, v, huff, pl.root);
      SameCode(l, p, v, huff, l[p]);
      LowSmall(huff, l[p]);
      TwoParts(v, huff, pl.root, l[p]);
      ReachesSelf(l, p, pl.root, pl.low, pl.root + pl.curr, huff);
      LowLow(Shr(v, pl.root), l[p] - pl.root, pl.curr);
      var x := pl.next + Low(Shr(v, pl.root), pl.curr);
      assert t'[x] == Says(kind, work[p], l[p] - pl.root);
    } else {
      assert FoundAt(t, pl, kind, work[q], l[q], v);
      if l[q] > pl.root {
        var e := t[i];
        var x := e.val + Low(Shr(v, pl.root), e.op);
        if x >= pl.next && Low(x - pl.next, l[p] - pl.root) == Shr(huff, pl.root) {
          ReachesSelf(l, p, pl.root, pl.low, pl.root + pl.curr, huff);
          LowLow(Shr(v, pl.root), l[p] - pl.root, pl.curr);
          TwoParts(v, huff, pl.root, l[p]);
          LowSmall(huff, l[p]);
          StartsSame(l, p, huff, v);
          PrefixFree(l, p, q, v);
          assert false;
        }
      }
    }
  }

  lemma {:induction false} ReachesSelf(l: seq<nat>, p: nat, root: nat, low: nat, n: nat, huff: nat)
    requires p < |l| && Reach(l, p, root, low, n) && Starts(l, p, huff) && Low(huff, root) == low
    ensures l[p] <= n
  {
    hide Starts, Low;
    assert Reaching(l, p, huff, root, low);
  }

  /** After filling, one more code is found. */
  lemma {:induction false} FillStep(t: seq<Entry>, t': seq<Entry>, pl: Place, kind: CodeType, work: seq<nat>,
                                    l: seq<nat>, p: nat, huff: nat)
    requires Ascending(l) && Found(t, pl, kind, work, l, p) && PlaceOk(t, pl) && Belongs(pl, l, p, huff)
    requires pl.drop <= l[p]
      && Filled(t, t', pl.next, pl.curr, Shr(huff, pl.drop), l[p] - pl.drop, Says(kind, work[p], l[p] - pl.drop))
    ensures Found(t', pl, kind, work, l, p + 1) && PlaceOk(t', pl)
  {
    hide Starts, FoundAt, Says, Low, Pow2, Ascending, Reach;
    forall q, v: nat | 0 <= q < p + 1 && Starts(l, q, v) ensures FoundAt(t', pl, kind, work[q], l[q], v) {
      if pl.drop == 0 {
        FilledRoot(t, t', pl, kind, work, l, p, huff, q, v);
      } else {
        FilledSub(t, t', pl, kind, work, l, p, huff, q, v);
      }
    }
  }

  // ----- starting a sub-table

  lemma {:induction false} LinkKeeps(t: seq<Entry>, pl: Place, pl': Place, kind: CodeType, work: seq<nat>, l: seq<nat>,
                                     p: nat, prev: nat, huff: nat, q: nat, v: nat)
    requires Ascending(l) && Found(t, pl, kind, work, l, p) && PlaceOk(t, pl) && 0 < p < |l|
    requires Starts(l, p - 1, prev) && Starts(l, p, huff) && pl.root < l[p]
    requires pl.drop != 0 ==> Low(prev, pl.root) == pl.low != Low(huff, pl.root)
    requires pl' == Place(pl.root, pl.next + Pow2(pl.curr), pl'.curr, pl.root, Low(huff, pl.root))
      && Low(huff, pl.root) < |t|
    requires q < p && Starts(l, q, v)
    ensures FoundAt(t[pl'.low := Entry(pl'.curr, pl.root, pl'.next)], pl', kind, work[q], l[q], v)
  {
    hide Starts, Head, Code, Says, Low, Pow2, Shr, Ascending;
    assert FoundAt(t, pl, kind, work[q], l[q], v);
    var i := Low(v, pl.root);
    if i == pl'.low {
      if l[q] <= pl.root {
        LowLow(v, l[q], pl.root);
        LowLow(huff, l[q], pl.root);
        StartsSame(l, q, v, huff);
        PrefixFree(l, p, q, huff);
        assert false;
      } else {
        Between(l, q, p - 1, p, v, prev, huff, pl.root);
        assert false;
      }
    }
  }

  lemma {:induction false} NewPlace(t: seq<Entry>, pl: Place, pl': Place, kind: CodeType, work: seq<nat>, l: seq<nat>,
                                    p: nat, prev: nat, huff: nat)
    requires Ascending(l) && Found(t, pl, kind, work, l, p) && PlaceOk(t, pl) && 0 < p < |l|
    requires Starts(l, p - 1, prev) && Starts(l, p, huff) && huff < Pow2(l[p]) && pl.root < l[p]
    requires pl.drop != 0 ==> Low(prev, pl.root) == pl.low != Low(huff, pl.root)
    requires pl' == Place(pl.root, pl.next + Pow2(pl.curr), pl'.curr, pl.root, Low(huff, pl.root))
      && pl'.next + Pow2(pl'.curr) <= |t|
    requires 1 <= pl'.curr <= MAXBITS && Reach(l, p, pl.root, pl'.low, pl.root + pl'.curr)
    ensures pl'.low < |t|
    ensures var t' := t[pl'.low := Entry(pl'.curr, pl.root, pl'.next)];
      Found(t', pl', kind, work, l, p) && PlaceOk(t', pl') && Belongs(pl', l, p, huff)
  {
    hide Starts, FoundAt, Says, Low, Pow2, Reach;
    var t' := t[pl'.low := Entry(pl'.curr, pl.root, pl'.next)];
    forall q, v: nat | 0 <= q < p && Starts(l, q, v) ensures FoundAt(t', pl', kind, work[q], l[q], v) {
      LinkKeeps(t, pl, pl', kind, work, l, p, prev, huff, q, v);
    }
  }

  /** The next code goes into the same table. */
  lemma {:induction false} SamePlace(pl: Place, l: seq<nat>, p: nat, prev: nat, huff: nat)
    requires Ascending(l) && Belongs(pl, l, p, prev) && p + 1 < |l| && Starts(l, p + 1, huff) && huff < Pow2(l[p + 1])
    requires !(l[p + 1] > pl.root && (pl.drop == 0 || Low(huff, pl.root) != pl.low))
    ensures Belongs(pl, l, p + 1, huff)
  {
    hide Starts, Low, Pow2;
    assert l[p] <= l[p + 1];
    if pl.drop != 0 { ReachLater(l, p, pl.root, pl.low, pl.root + pl.curr); }
  }

  lemma {:induction false} ReachLater(l: seq<nat>, p: nat, root: nat, low: nat, n: nat)
    requires Reach(l, p, root, low, n)
    ensures Reach(l, p + 1, root, low, n)
  {
    hide Reaching;
  }

  // ----- at the end

  /** Every code leads to its symbol and to its length. */
  lemma {:induction false} FoundLookup(t: seq<Entry>, pl: Place, kind: CodeType, work: seq<nat>, l: seq<nat>, q: nat,
                                       v: nat)
    requires Found(t, pl, kind, work, l, |l|) && q < |l| && Starts(l, q, v)
    ensures Lookup(t, pl.root, v) == Says(kind, work[q], l[q])
  {
    hide Starts, Low, Pow2, Shr;
    assert FoundAt(t, pl, kind, work[q], l[q], v);
    hide Says;
    SaysNoLink(kind, work[q], l[q]);
    if l[q] > pl.root { SaysNoLink(kind, work[q], l[q] - pl.root); }
  }

  // ----- the loops

  /** Copies an entry to all indices whose low bits are those of the code. */
  method Replicate(table: array<Entry>, start: nat, next: nat, curr: nat, h: nat, k: nat, here: Entry)
    requires start <= table.Length && start + next + Pow2(curr) <= table.Length && k <= curr && h < Pow2(k)
    modifies table
    ensures Filled(old(table[start..]), table[start..], next, curr, h, k, here) && table[..start] == old(table[..start])
  {
    hide Low, Pow2, Shl, Shr;
    ghost var t := table[..];
    ghost var m := Pow2(curr - k);
    ShlOfPow2(curr - k, k);
    var incr, fill := Pow2(k), Pow2(curr);
    while fill != 0
      invariant fill == Shl(m, k) && fill <= Pow2(curr)
      invariant table[..start] == t[..start]
      invariant forall x :: 0 <= x < table.Length ==>
        table[x] == if start + next + fill <= x < start + next + Pow2(curr)
          && Low(x - start - next, k) == h then here else t[x]
      decreases fill
    {
      ShlStep(m, k);
      m := m - 1;
      fill := fill - incr;
      LowIndex(m, h, k);
      ghost var before := table[..];
      table[start + next + (h + fill)] := here;
      forall x | 0 <= x < table.Length ensures
        table[x] == if start + next + fill <= x < start + next + Pow2(curr)
          && Low(x - start - next, k) == h then here else t[x]
      {
        assert x != start + next + (h + fill) ==> table[x] == before[x];
        if start + next + fill <= x < start + next + fill + incr { OnlyIndex(m, h, k, x - start - next); }
      }
    }
    forall x | 0 <= x < |table[start..]|
      ensures table[start..][x] == if next <= x < next + Pow2(curr)
        && Low(x - next, k) == h then here else t[start..][x] {
      assert table[start..][x] == table[start + x] && t[start..][x] == t[start + x];
    }
  }

  lemma {:induction false} ShlStep(m: nat, k: nat)
    requires Shl(m, k) != 0
    ensures m > 0 && Shl(m, k) == Shl(m - 1, k) + Pow2(k)
  {
    ShlZero(k);
    if m > 0 {
      ShlAdd(m - 1, 1, k);
      ShlOne(k);
    }
  }

  lemma {:induction false} LowIndex(m: nat, h: nat, k: nat)
    requires h < Pow2(k)
    ensures Low(h + Shl(m, k), k) == h
  {
    if k > 0 {
      assert (h + Shl(m, k)) / 2 == h / 2 + Shl(m, k - 1) && (h + Shl(m, k)) % 2 == h % 2;
      LowIndex(m, h / 2, k - 1);
    }
  }

  /** Between two multiples only one index has the given low bits. */
  lemma {:induction false} OnlyIndex(m: nat, h: nat, k: nat, j: nat)
    requires Shl(m, k) <= j < Shl(m, k) + Pow2(k) && h < Pow2(k)
    ensures Low(j, k) == h <==> j == h + Shl(m, k)
  {
    hide Low, Shl, Pow2;
    LowIndex(m, j - Shl(m, k), k);
  }

  /** The backwards increment. */
  method NextCode(huff: nat, len: nat) returns (next: nat)
    requires len >= 1
    ensures next == Increment(huff, len)
  {
    hide Bit, Low, Pow2;
    var i: int := len - 1;
    while i >= 0 && Bit(huff, i) == 1
      invariant -1 <= i < len && Increment(huff, len) == Increment(huff, i + 1)
    {
      i := i - 1;
    }
    next := if i >= 0 then Low(huff, i) + Pow2(i) else 0;
  }

  /** After the backwards increment comes the next code. */
  lemma {:induction false} NextStarts(l: seq<nat>, p: nat, huff: nat)
    requires Ascending(l) && p < |l| && Starts(l, p, huff) && huff < Pow2(l[p])
      && Kraft(l, MAXBITS, |l|) <= Pow2(MAXBITS)
    ensures p + 1 < |l| ==> Starts(l, p + 1, Increment(huff, l[p])) && Increment(huff, l[p]) < Pow2(l[p + 1])
    ensures p + 1 == |l| && Kraft(l, MAXBITS, |l|) == Pow2(MAXBITS) ==> Increment(huff, l[p]) == 0
  {
    hide *;
    CodeFits(l, p);
    StartsIs(l, p, huff);
    Increments(huff, l[p]);
    if p + 1 < |l| {
      InOrder(l, p);
      ZeroesBehind(Increment(huff, l[p]), l[p], l[p + 1]);
      CodeNext(l, p);
      StartsBy(l, p + 1, Increment(huff, l[p]));
    }
  }

  lemma {:induction false} InOrder(l: seq<nat>, p: nat)
    requires Ascending(l) && p + 1 < |l|
    ensures 1 <= l[p] <= l[p + 1] <= MAXBITS
  {
  }

  lemma {:induction false} CodeNext(l: seq<nat>, p: nat)
    requires p + 1 < |l| && l[p] <= l[p + 1]
    ensures Code(l, p + 1) == Shl(Code(l, p) + 1, l[p + 1] - l[p])
  {
  }

  lemma {:induction false} StartsBy(l: seq<nat>, p: nat, v: nat)
    requires p < |l| && Head(v, l[p]) == Code(l, p)
    ensures Starts(l, p, v)
  {
  }

  /** A longer code begins with the bits of the shorter one, and zeroes. */
  lemma {:induction false} ZeroesBehind(v: nat, j: nat, k: nat)
    requires j <= k && v < Pow2(j)
    ensures Head(v, k) == Shl(Head(v, j), k - j) && v < Pow2(k)
    decreases k
  {
    if j < k {
      ZeroesBehind(v, j, k - 1);
      SmallBit(v, k - 1);
    }
  }

  /** How many index bits a sub-table needs: the codes that follow decide. */
  method SubTableBits(count: array<nat>, len: nat, root: nat, max: nat, ghost l: seq<nat>, ghost p: nat,
                      ghost huff: nat) returns (curr: nat)
    requires Ascending(l) && p < |l| && l[p] == len && root < len && Starts(l, p, huff) && count.Length == 16
    requires (forall n :: 1 <= n <= MAXBITS ==> count[n] == Left(l, n, p)) && len <= max <= MAXBITS
      && forall i :: 0 <= i < |l| ==> l[i] <= max
    requires First(l, p, root) && Kraft(l, MAXBITS, |l|) == Pow2(MAXBITS)
    ensures 1 <= curr <= MAXBITS && len <= root + curr && Reach(l, p, root, Low(huff, root), root + curr)
    ensures SubSize(LongestIn(l, root, Group(l, p, root), |l|), root) == Pow2(curr)
  {
    hide *;
    MaxIs();
    curr := len - root;
    var left := Pow2(curr);
    ghost var e := p;
    SubStart(l, p, len, root);
    while curr + root < max
      invariant len - root <= curr <= max - root && left >= 1 && p <= e <= |l|
      invariant Shl(left, 15 - root - curr) + Kraft(l, MAXBITS, e) == Kraft(l, MAXBITS, p) + Pow2(15 - root)
      invariant (e < |l| ==> l[e] >= curr + root) && (forall i :: p <= i < e ==> l[i] < curr + root)
    {
      var n := curr + root;
      SubStep(l, p, e, n, left, root);
      if left <= count[n] {
        ReachFull(l, p, Past(l, n, e), root, huff, n);
        SubFull(l, p, e, n, left, root);
        return;
      }
      left := left - count[n];
      e := Past(l, n, e);
      curr := curr + 1;
      left := 2 * left;
    }
    ReachLongest(l, p, root, Low(huff, root), root + curr);
    SubLongest(l, p, e, max, left, root);
  }

  /** The look-ahead stops at the longest code of the group: n bits, which fill it. */
  lemma {:induction false} SubFull(l: seq<nat>, p: nat, e: nat, n: nat, left: nat, root: nat)
    requires Ascending(l) && p <= e <= |l| && p < |l| && root < n < 15 && First(l, p, root)
      && Kraft(l, MAXBITS, |l|) == Pow2(MAXBITS)
    requires (e < |l| ==> l[e] >= n) && (forall i :: p <= i < e ==> l[i] < n) && 1 <= left <= Left(l, n, e)
    requires Shl(left, 15 - n) + Kraft(l, MAXBITS, e) == Kraft(l, MAXBITS, p) + Pow2(15 - root)
    requires Kraft(l, MAXBITS, Past(l, n, e)) >= Kraft(l, MAXBITS, p) + Pow2(15 - root)
    ensures SubSize(LongestIn(l, root, Group(l, p, root), |l|), root) == Pow2(n - root)
  {
    hide *;
    MaxIs();
    PositiveShift(left, 15 - n);
    StillIn(l, p, e, root);
    LeftAt(l, n, e);
    NoLonger(l, p, Past(l, n, e), root);
    LongestIs(l, p, e, Past(l, n, e), root);
    SubSizeIs(n, root);
  }

  /** The look-ahead stops at the longest code of all. */
  lemma {:induction false} SubLongest(l: seq<nat>, p: nat, e: nat, max: nat, left: nat, root: nat)
    requires Ascending(l) && p <= e <= |l| && p < |l| && root < max <= 15 && First(l, p, root)
      && Kraft(l, MAXBITS, |l|) == Pow2(MAXBITS)
    requires (e < |l| ==> l[e] >= max) && left >= 1 && forall i :: 0 <= i < |l| ==> l[i] <= max
    requires Shl(left, 15 - max) + Kraft(l, MAXBITS, e) == Kraft(l, MAXBITS, p) + Pow2(15 - root)
    ensures SubSize(LongestIn(l, root, Group(l, p, root), |l|), root) == Pow2(max - root)
  {
    hide *;
    MaxIs();
    PositiveShift(left, 15 - max);
    StillIn(l, p, e, root);
    LongestIs(l, p, e, |l|, root);
    SubSizeIs(max, root);
  }

  lemma {:induction false} PositiveShift(v: nat, n: nat)
    requires v >= 1
    ensures Shl(v, n) >= 1
  {
    if n > 0 { PositiveShift(v, n - 1); }
  }

  lemma {:induction false} SubSizeIs(n: nat, root: nat)
    requires n > root
    ensures SubSize(n, root) == Pow2(n - root)
  {
  }

  /** A code of n bits is left. */
  lemma {:induction false} LeftAt(l: seq<nat>, n: nat, e: nat)
    requires Ascending(l) && e < |l| && l[e] >= n && Left(l, n, e) >= 1
    ensures l[e] == n
    ensures forall i :: e <= i < Past(l, n, e) ==> l[i] <= n
  {
    if l[e] > n { LeftNone(l, n, e); }
  }

  lemma {:induction false} MaxIs()
    ensures MAXBITS == 15
  {
  }

  lemma {:induction false} SubStart(l: seq<nat>, p: nat, len: nat, root: nat)
    requires Ascending(l) && p < |l| && l[p] == len && root < len
    ensures len <= 15 && Shl(Pow2(len - root), 15 - len) == Pow2(15 - root)
  {
    ShlOfPow2(len - root, 15 - len);
  }

  lemma {:induction false} SubStep(l: seq<nat>, p: nat, e: nat, n: nat, left: nat, root: nat)
    requires Ascending(l) && p <= e <= |l| && 1 <= n < 15 && root < n && (e < |l| ==> l[e] >= n)
      && (forall i :: p <= i < e ==> l[i] < n)
    requires Shl(left, 15 - n) + Kraft(l, MAXBITS, e) == Kraft(l, MAXBITS, p) + Pow2(15 - root)
    ensures Left(l, n, p) == Left(l, n, e) && e <= Past(l, n, e) <= |l|
    ensures var e' := Past(l, n, e); (e' < |l| ==> l[e'] > n) && (forall i :: p <= i < e' ==> l[i] <= n)
    ensures left <= Left(l, n, e) ==> Kraft(l, MAXBITS, Past(l, n, e)) >= Kraft(l, MAXBITS, p) + Pow2(15 - root)
    ensures left > Left(l, n, e) ==>
      Shl(2 * (left - Left(l, n, e)), 15 - (n + 1)) + Kraft(l, MAXBITS, Past(l, n, e))
        == Kraft(l, MAXBITS, p) + Pow2(15 - root)
  {
    hide Kraft, Pow2, Left;
    LeftFrom(l, n, p, e);
    PastSpace(l, n, e);
    var c := Left(l, n, e);
    if left <= c {
      ShlMonotone(left, c, 15 - n);
    } else {
      ShlAdd(left - c, c, 15 - n);
      ShlShl(left - c, 1, 15 - (n + 1));
      assert Shl(left - c, 1) == 2 * (left - c);
    }
  }

  // ----- all codes

  const ENOUGH_LENS := 852
  const ENOUGH_DISTS := 592

  /** The table space that the caller provides. */
  function Enough(kind: CodeType, root: nat): nat {
    match kind
    case CODES => Pow2(root)
    case LENS => ENOUGH_LENS
    case DISTS => ENOUGH_DISTS
  }

  /** The part of the loop that makes an entry. */
  method MakeEntry(kind: CodeType, sym: nat, n: nat) returns (here: Entry)
    requires kind == CODES ==> sym < 19
    requires kind == LENS ==> sym < 288
    requires kind == DISTS ==> sym < 32
    ensures here == Says(kind, sym, n)
  {
    var base, extra, match' := [], [], 20;
    if kind == LENS {
      base, extra, match' := LengthBase(), LengthExtra(), 257;
    } else if kind == DISTS {
      base, extra, match' := DistBase(), DistExtra(), 0;
    }
    if sym + 1 < match' {
      here := Entry(0, n, sym);
    } else if sym >= match' {
      here := Entry(extra[sym - match'], n, base[sym - match']);
    } else {
      here := Entry(32 + 64, n, 0);
    }
  }

  /** The symbols in order of their codes. */
  ghost predicate Lists(work: seq<nat>, l: seq<nat>, lens: seq<nat>, kind: CodeType) {
    && Ascending(l) && 0 < |l| <= |work|
    && (forall p {:trigger work[p]} :: 0 <= p < |l| ==> work[p] < |lens| && l[p] == lens[work[p]])
    && |lens| <= (match kind case CODES => 19 case LENS => 288 case DISTS => 32)
  }

  /** Before code p is entered. */
  ghost predicate Filling(t: seq<Entry>, pl: Place, kind: CodeType, work: seq<nat>, l: seq<nat>, p: nat, huff: nat) {
    && Found(t, pl, kind, work, l, p) && PlaceOk(t, pl) && Belongs(pl, l, p, huff)
    && Kraft(l, MAXBITS, |l|) <= Pow2(MAXBITS)
  }

  /** After code p has been entered. */
  ghost predicate Entered(t: seq<Entry>, pl: Place, kind: CodeType, work: seq<nat>, l: seq<nat>, p: nat, prev: nat,
                          huff: nat) {
    && p < |l| && Found(t, pl, kind, work, l, p + 1) && PlaceOk(t, pl) && Belongs(pl, l, p, prev)
       && Kraft(l, MAXBITS, |l|) <= Pow2(MAXBITS)
    && huff == Increment(prev, l[p])
  }

  lemma {:induction false} FillingIs(t: seq<Entry>, pl: Place, kind: CodeType, work: seq<nat>, l: seq<nat>, p: nat,
                                     huff: nat)
    requires Ascending(l) && Filling(t, pl, kind, work, l, p, huff)
    ensures p < |l| <= |work| && pl.drop <= l[p] <= MAXBITS == 15 && l[p] >= 1 && pl.next + Pow2(pl.curr) <= |t|
      && l[p] - pl.drop <= pl.curr
    ensures Shr(huff, pl.drop) < Pow2(l[p] - pl.drop)
  {
    hide Starts, FoundAt, Says, Low, Pow2, Reach, Shr, Kraft;
    ShrBound(huff, l[p] - pl.drop, pl.drop);
    ShrNone(huff);
    if pl.drop != 0 { ReachesSelf(l, p, pl.root, pl.low, pl.root + pl.curr, huff); }
  }

  lemma {:induction false} ShrNone(v: nat)
    ensures Shr(v, 0) == v
  {
  }

  lemma {:induction false} Enters(t: seq<Entry>, t': seq<Entry>, pl: Place, kind: CodeType, work: seq<nat>,
                                  l: seq<nat>, p: nat, huff: nat)
    requires Ascending(l) && Filling(t, pl, kind, work, l, p, huff) && p < |l| && pl.drop <= l[p] && p < |work|
    requires Filled(t, t', pl.next, pl.curr, Shr(huff, pl.drop), l[p] - pl.drop, Says(kind, work[p], l[p] - pl.drop))
    ensures Entered(t', pl, kind, work, l, p, huff, Increment(huff, l[p]))
  {
    hide Starts, FoundAt, Says, Low, Pow2, Reach, Shr, Kraft, Found, PlaceOk, Belongs, Filled;
    FillStep(t, t', pl, kind, work, l, p, huff);
  }

  /** Enters code sym and steps to the next code. */
  method EnterCode(table: array<Entry>, start: nat, kind: CodeType, pl: Place, len: nat, huff: nat, work: array<nat>,
                   sym: nat, ghost l: seq<nat>, ghost lens: seq<nat>)
    returns (huff': nat)
    requires start <= table.Length && Lists(work[..], l, lens, kind) && sym < |l| && len == l[sym]
    requires Filling(table[start..], pl, kind, work[..], l, sym, huff)
    modifies table
    ensures table[..start] == old(table[..start]) && Entered(table[start..], pl, kind, work[..], l, sym, huff, huff')
  {
    hide *;
    ghost var t := table[start..];
    ListsIs(work[..], l, lens, kind);
    FillingIs(t, pl, kind, work[..], l, sym, huff);
    assert work[..][sym] == work[sym];
    var here := MakeEntry(kind, work[sym], len - pl.drop);
    Replicate(table, start, pl.next, pl.curr, Shr(huff, pl.drop), len - pl.drop, here);
    huff' := NextCode(huff, len);
    Enters(t, table[start..], pl, kind, work[..], l, sym, huff);
  }

  lemma {:induction false} ListsIs(work: seq<nat>, l: seq<nat>, lens: seq<nat>, kind: CodeType)
    requires Lists(work, l, lens, kind)
    ensures Ascending(l) && 0 < |l| <= |work|
    ensures forall p {:trigger work[p]} :: 0 <= p < |l| ==> work[p] < |lens| && l[p] == lens[work[p]]
    ensures |lens| <= (match kind case CODES => 19 case LENS => 288 case DISTS => 32)
  {
  }

  /** Whether the next code starts a sub-table of its own. */
  predicate Fresh(pl: Place, len: nat, huff: nat) {
    len > pl.root && (pl.drop == 0 || Low(huff, pl.root) != pl.low)
  }

  lemma {:induction false} EnteredIs(t: seq<Entry>, pl: Place, kind: CodeType, work: seq<nat>, l: seq<nat>, p: nat,
                                     prev: nat, huff: nat)
    requires Ascending(l) && Entered(t, pl, kind, work, l, p, prev, huff) && p + 1 < |l|
    ensures Starts(l, p + 1, huff) && huff < Pow2(l[p + 1]) && pl.root >= 1
    ensures !Fresh(pl, l[p + 1], huff) ==> Filling(t, pl, kind, work, l, p + 1, huff)
  {
    hide FoundAt, Says, Low, Pow2, Reach, Shr, Kraft, Found, Starts, Increment;
    NextStarts(l, p, prev);
    if !Fresh(pl, l[p + 1], huff) { SamePlace(pl, l, p, prev, huff); }
  }

  lemma {:induction false} OpenPlace(t: seq<Entry>, pl: Place, pl': Place, kind: CodeType, work: seq<nat>, l: seq<nat>,
                                     p: nat, prev: nat, huff: nat)
    requires Ascending(l) && Entered(t, pl, kind, work, l, p, prev, huff) && p + 1 < |l| && Fresh(pl, l[p + 1], huff)
    requires Starts(l, p + 1, huff) && huff < Pow2(l[p + 1])
    requires pl' == Place(pl.root, pl.next + Pow2(pl.curr), pl'.curr, pl.root, Low(huff, pl.root))
      && pl'.next + Pow2(pl'.curr) <= |t|
    requires 1 <= pl'.curr <= MAXBITS && Reach(l, p + 1, pl.root, pl'.low, pl.root + pl'.curr)
    ensures pl'.low < |t| && Filling(t[pl'.low := Entry(pl'.curr, pl.root, pl'.next)], pl', kind, work, l, p + 1, huff)
  {
    hide FoundAt, Says, Low, Pow2, Reach, Shr, Kraft, Found, Starts, Increment;
    NewPlace(t, pl, pl', kind, work, l, p + 1, prev, huff);
  }

  lemma {:induction false} FirstPlace(t: seq<Entry>, root: nat, kind: CodeType, work: seq<nat>, l: seq<nat>,
                                      lens: seq<nat>)
    requires Lists(work, l, lens, kind) && l[0] <= root <= MAXBITS && Pow2(root) <= |t|
      && Kraft(l, MAXBITS, |l|) <= Pow2(MAXBITS)
    ensures Filling(t, Place(root, 0, root, 0, 0), kind, work, l, 0, 0)
  {
    hide FoundAt, Says, Reach, Kraft;
    ZeroHead(l[0]);
  }

  lemma {:induction false} ZeroHead(k: nat)
    ensures Head(0, k) == 0 && 0 < Pow2(k)
  {
    if k > 0 {
      ZeroHead(k - 1);
      ZeroBit(k - 1);
    }
  }

  lemma {:induction false} ZeroBit(k: nat)
    ensures Bit(0, k) == 0
  {
    if k > 0 { ZeroBit(k - 1); }
  }

  lemma {:induction false} LeftStep(l: seq<nat>, p: nat)
    requires p < |l|
    ensures forall n {:trigger Left(l, n, p)} :: Left(l, n, p) == Left(l, n, p + 1) + if l[p] == n then 1 else 0
  {
  }

  /** Steps to the next symbol; whether there is none. */
  method NextSymbol(count: array<nat>, len: nat, max: nat, lens: seq<nat>, work: array<nat>, sym: nat,
                    ghost l: seq<nat>, ghost kind: CodeType)
    returns (done: bool, len': nat)
    requires Lists(work[..], l, lens, kind) && sym < |l| && len == l[sym] && max == l[|l| - 1] && count.Length == 16
      && count != work
    requires forall n :: 1 <= n <= 15 ==> count[n] == Left(l, n, sym)
    modifies count
    ensures forall n :: 1 <= n <= 15 ==> count[n] == Left(l, n, sym + 1)
    ensures done <==> sym + 1 == |l|
    ensures !done ==> len' == l[sym + 1]
  {
    hide *;
    MaxIs();
    ListsIs(work[..], l, lens, kind);
    LengthAt(l, sym);
    LeftSome(l, len, sym);
    LeftStep(l, sym);
    count[len] := count[len] - 1;
    done, len' := false, len;
    if count[len] == 0 {
      if len == max { return true, len; }
      LastLength(l, sym);
      assert work[..][sym + 1] == work[sym + 1];
      len' := lens[work[sym + 1]];
    }
  }

  lemma {:induction false} LengthAt(l: seq<nat>, p: nat)
    requires Ascending(l) && p < |l|
    ensures 1 <= l[p] <= 15 && l[p] <= l[|l| - 1] && forall i :: 0 <= i < |l| ==> l[i] <= l[|l| - 1] <= 15
  {
  }

  lemma {:induction false} LastLength(l: seq<nat>, p: nat)
    requires p < |l| && l[p] != l[|l| - 1]
    ensures p + 1 < |l|
  {
  }

  /** Opens the sub-table for the next code, if there is room. */
  method OpenSubTable(table: array<Entry>, start: nat, kind: CodeType, pl: Place, count: array<nat>, len: nat,
                      max: nat, huff: nat, used: nat,
                      ghost work: seq<nat>, ghost l: seq<nat>, ghost p: nat, ghost prev: nat)
    returns (full: bool, pl': Place, used': nat)
    requires start <= table.Length && Ascending(l) && p + 1 < |l| && len == l[p + 1] && max == l[|l| - 1]
      && count.Length == 16
    requires forall n :: 1 <= n <= 15 ==> count[n] == Left(l, n, p + 1)
    requires Entered(table[start..], pl, kind, work, l, p, prev, huff) && Fresh(pl, len, huff)
    requires used == pl.next + Pow2(pl.curr) && kind != CODES && start + Enough(kind, pl.root) <= table.Length
    requires Allowed(l, kind) && pl.root <= MAXBITS && used == Pow2(pl.root) + Opened(l, pl.root, p + 1, Pow2(pl.root))
    modifies table
    ensures full ==> Space(l, pl.root) > Enough(kind, pl.root)
    ensures !full ==> used' == Pow2(pl.root) + Opened(l, pl.root, p + 2, Pow2(pl.root))
    ensures table[..start] == old(table[..start])
    ensures !full ==>
      Filling(table[start..], pl', kind, work, l, p + 1, huff)
        && used' == pl'.next + Pow2(pl'.curr) <= Enough(kind, pl.root) && pl'.root == pl.root
  {
    hide *;
    ghost var t := table[start..];
    MaxIs();
    EnteredIs(t, pl, kind, work, l, p, prev, huff);
    FreshIs(pl, len, huff);
    LengthAt(l, p + 1);
    AllowedMore(l, kind);
    FreshIsFirst(t, pl, kind, work, l, p, prev, huff);
    SpaceStepwise(l, pl.root, p);
    SpaceIs(l, pl.root);
    var curr := SubTableBits(count, len, pl.root, max, l, p + 1, huff);
    used' := used + Pow2(curr);
    EnoughIs(kind, pl.root);
    if (kind == LENS && used' > 852) || (kind == DISTS && used' > 592) {
      return true, pl, used';
    }
    full, pl' := false, Place(pl.root, used, curr, pl.root, Low(huff, pl.root));
    OpenPlace(t, pl, pl', kind, work, l, p, prev, huff);
    table[start + pl'.low] := Entry(curr, pl.root, used);
    assert table[start..] == t[pl'.low := Entry(curr, pl.root, used)];
  }

  /** Only a complete code has more than one code. */
  lemma {:induction false} AllowedMore(l: seq<nat>, kind: CodeType)
    requires Allowed(l, kind) && |l| > 1
    ensures Kraft(l, MAXBITS, |l|) == Pow2(MAXBITS)
  {
  }

  lemma {:induction false} SpaceIs(l: seq<nat>, root: nat)
    requires root <= MAXBITS
    ensures Space(l, root) == Pow2(root) + Opened(l, root, |l|, Pow2(root))
  {
  }

  /** A sub-table is opened exactly for the first code of each group. */
  lemma {:induction false} FreshIsFirst(t: seq<Entry>, pl: Place, kind: CodeType, work: seq<nat>, l: seq<nat>, p: nat,
                                        prev: nat, huff: nat)
    requires Ascending(l) && Entered(t, pl, kind, work, l, p, prev, huff) && p + 1 < |l| && Starts(l, p + 1, huff)
    ensures pl.root <= MAXBITS && (Fresh(pl, l[p + 1], huff) <==> First(l, p + 1, pl.root))
  {
    hide FoundAt, Says, Low, Pow2, Reach, Shr, Kraft, Found, Starts, Increment, First, Group;
    FirstNext(l, p, pl.root);
    if pl.drop != 0 && l[p + 1] > pl.root { SameIndex(l, p, prev, p + 1, huff, pl.root); }
  }

  lemma {:induction false} FreshIs(pl: Place, len: nat, huff: nat)
    requires Fresh(pl, len, huff)
    ensures len > pl.root
  {
  }

  lemma {:induction false} EnoughIs(kind: CodeType, root: nat)
    ensures Enough(kind, root) == match kind case CODES => Pow2(root) case LENS => 852 case DISTS => 592
  {
  }

  /** The table decodes every stream: a code leads to its symbol, anything else to the invalid marker. */
  ghost predicate Complete(t: seq<Entry>, root: nat, kind: CodeType, work: seq<nat>, l: seq<nat>) {
    && |l| <= |work|
    && (forall q, v: nat {:trigger Starts(l, q, v)} :: 0 <= q < |l| && Starts(l, q, v) ==>
        Lookup(t, root, v) == Says(kind, work[q], l[q]))
    && (forall v: nat {:trigger Head(v, MAXBITS)} :: Head(v, MAXBITS) >= Kraft(l, MAXBITS, |l|) ==>
        Lookup(t, root, v) == INVALID)
  }

  lemma {:induction false} FoundSize(t: seq<Entry>, pl: Place, kind: CodeType, work: seq<nat>, l: seq<nat>, p: nat)
    requires Found(t, pl, kind, work, l, p)
    ensures p <= |l| <= |work|
  {
  }

  /** A complete code needs nothing more. */
  lemma {:induction false} CompleteFull(t: seq<Entry>, pl: Place, kind: CodeType, work: seq<nat>, l: seq<nat>, p: nat,
                                        prev: nat, huff: nat)
    requires Ascending(l) && Entered(t, pl, kind, work, l, p, prev, huff) && p + 1 == |l|
      && Kraft(l, MAXBITS, |l|) == Pow2(MAXBITS)
    ensures Complete(t, pl.root, kind, work, l) && huff == 0
  {
    hide FoundAt, Says, Low, Reach, Shr, Kraft, Found, Starts, Increment, Lookup, Head, Pow2;
    NextStarts(l, p, prev);
    FoundSize(t, pl, kind, work, l, p + 1);
    forall q, v: nat | 0 <= q < |l| && Starts(l, q, v) ensures Lookup(t, pl.root, v) == Says(kind, work[q], l[q]) {
      FoundLookup(t, pl, kind, work, l, q, v);
    }
  }

  /** An incomplete code has one code of one bit; the other bit is invalid. */
  lemma {:induction false} CompleteSingle(t: seq<Entry>, pl: Place, kind: CodeType, work: seq<nat>, l: seq<nat>,
                                          prev: nat, huff: nat)
    requires Ascending(l) && Entered(t, pl, kind, work, l, 0, prev, huff) && |l| == 1 && l[0] == 1 && pl.root == 1
      && pl.drop == 0
    ensures huff == 1 && |t| >= 2 && pl.next == 0
    ensures Complete(t[1 := INVALID], 1, kind, work, l)
  {
    hide Says, Reach, Increment, IsLink;
    SingleBits(prev);
    SingleEntry(t, pl, kind, work, l);
    var t' := t[1 := INVALID];
    InvalidNoLink();
    assert Kraft(l, MAXBITS, 1) == Pow2(14) + Kraft(l, MAXBITS, 0);
    forall q, v: nat | 0 <= q < |l| && Starts(l, q, v) ensures Lookup(t', 1, v) == Says(kind, work[q], l[q]) {
      HeadOne(v);
    }
    forall v: nat | Head(v, MAXBITS) >= Kraft(l, MAXBITS, |l|) ensures Lookup(t', 1, v) == INVALID {
      HeadOne(v);
      HeadInterval(v, 1, MAXBITS);
      ShlOne(14);
    }
  }

  lemma {:induction false} SingleEntry(t: seq<Entry>, pl: Place, kind: CodeType, work: seq<nat>, l: seq<nat>)
    requires Found(t, pl, kind, work, l, 1) && |l| == 1 && l[0] == 1 && pl.root == 1
    ensures |work| > 0 && |t| > 0 && t[0] == Says(kind, work[0], 1) && !IsLink(t[0])
  {
    hide Says, IsLink;
    HeadOne(0);
    assert Head(0, 1) == 0 by { ZeroHead(1); }
    assert Starts(l, 0, 0);
    assert FoundAt(t, pl, kind, work[0], l[0], 0);
    SaysNoLink(kind, work[0], 1);
  }

  lemma {:induction false} InvalidNoLink()
    ensures !IsLink(INVALID)
  {
  }

  lemma {:induction false} SingleBits(prev: nat)
    ensures Head(prev, 1) == 0 && prev < Pow2(1) ==> Increment(prev, 1) == 1
    ensures Pow2(1) == 2
  {
    assert Bit(prev, 0) == Head(prev, 1) - 2 * Head(prev, 0);
  }

  lemma {:induction false} HeadOne(v: nat)
    ensures Head(v, 1) == Low(v, 1) <= 1
  {
    assert Head(v, 1) == 2 * Head(v, 0) + Bit(v, 0);
    assert Low(v, 1) == 2 * Low(v / 2, 0) + v % 2;
  }

  /** The codes fit, or one code of one bit stands alone. */
  ghost predicate Allowed(l: seq<nat>, kind: CodeType) {
    Kraft(l, MAXBITS, |l|) == Pow2(MAXBITS) || (l == [1] && kind != CODES)
  }

  lemma {:induction false} AllowedFits(l: seq<nat>, kind: CodeType)
    requires Allowed(l, kind)
    ensures Kraft(l, MAXBITS, |l|) <= Pow2(MAXBITS)
  {
    if l == [1] {
      assert Kraft(l, MAXBITS, 1) == Pow2(14) + Kraft(l, MAXBITS, 0);
      Pow2Monotone(14, 15);
    }
  }

  /** The table is finished with a marker if the code is incomplete. */
  method Finish(table: array<Entry>, start: nat, kind: CodeType, pl: Place, len: nat, huff: nat, ghost work: seq<nat>,
                ghost l: seq<nat>, ghost p: nat, ghost prev: nat)
    requires start <= table.Length && Ascending(l) && Allowed(l, kind) && p + 1 == |l| && len == l[p]
      && (l[0] == l[p] ==> pl.root == len)
    requires Entered(table[start..], pl, kind, work, l, p, prev, huff)
    modifies table
    ensures table[..start] == old(table[..start]) && start + pl.next + Pow2(pl.curr) <= table.Length
    ensures Complete(table[start..start + pl.next + Pow2(pl.curr)], pl.root, kind, work, l)
  {
    hide *;
    ghost var used := pl.next + Pow2(pl.curr);
    EnteredPart(table[start..], pl, kind, work, l, p, prev, huff);
    ghost var t := table[start..start + used];
    assert t == table[start..][..used];
    if l == [1] {
      SinglePlace(t, pl, kind, work, l, p, prev, huff);
      CompleteSingle(t, pl, kind, work, l, prev, huff);
    } else {
      AllowedFull(l, kind);
      CompleteFull(t, pl, kind, work, l, p, prev, huff);
    }
    if huff != 0 {
      InvalidIs();
      table[start + pl.next + huff] := Entry(64, len - pl.drop, 0);
      assert table[start..start + used] == t[1 := INVALID];
    }
  }

  /** Nothing behind the table being filled matters. */
  lemma {:induction false} EnteredPart(t: seq<Entry>, pl: Place, kind: CodeType, work: seq<nat>, l: seq<nat>, p: nat,
                                       prev: nat, huff: nat)
    requires Entered(t, pl, kind, work, l, p, prev, huff)
    ensures pl.next + Pow2(pl.curr) <= |t|
    ensures Entered(t[..pl.next + Pow2(pl.curr)], pl, kind, work, l, p, prev, huff)
  {
    hide Starts, Says, Low, Pow2, Reach, Shr, Kraft, Increment;
    var used := pl.next + Pow2(pl.curr);
    var t' := t[..used];
    forall q, v: nat | 0 <= q < p + 1 && Starts(l, q, v) ensures FoundAt(t', pl, kind, work[q], l[q], v) {
      assert FoundAt(t, pl, kind, work[q], l[q], v);
    }
  }

  lemma {:induction false} InvalidIs()
    ensures INVALID == Entry(64, 1, 0)
  {
  }

  lemma {:induction false} AllowedFull(l: seq<nat>, kind: CodeType)
    requires Allowed(l, kind) && l != [1]
    ensures Kraft(l, MAXBITS, |l|) == Pow2(MAXBITS)
  {
  }

  lemma {:induction false} SinglePlace(t: seq<Entry>, pl: Place, kind: CodeType, work: seq<nat>, l: seq<nat>, p: nat,
                                       prev: nat, huff: nat)
    requires Entered(t, pl, kind, work, l, p, prev, huff) && l == [1] && pl.root == 1
    ensures p == 0 && pl.drop == 0
  {
  }

  /** Entering all codes, from the shortest on. Returns 1 if the table space does not suffice. */
  method Build(table: array<Entry>, start: nat, kind: CodeType, lens: seq<nat>, work: array<nat>, count: array<nat>,
               root: nat, max: nat, ghost l: seq<nat>)
    returns (ret: int, used: nat)
    requires Lists(work[..], l, lens, kind) && Allowed(l, kind) && max == l[|l| - 1] && l[0] <= root <= max
      && count.Length == 16 && count != work
    requires forall n :: 1 <= n <= 15 ==> count[n] == Left(l, n, 0)
    requires kind == CODES ==> max <= root
    requires start + Enough(kind, root) <= table.Length
    modifies table, count
    ensures table[..start] == old(table[..start]) && 0 <= ret <= 1
    ensures ret == 1 ==> kind != CODES
    ensures root <= MAXBITS && (ret == 1 <==> Space(l, root) > Enough(kind, root))
    ensures ret == 0 ==>
      used == Space(l, root) && start + used <= table.Length
        && Complete(table[start..start + used], root, kind, work[..], l)
  {
    hide *;
    MaxIs();
    ListsIs(work[..], l, lens, kind);
    AllowedFits(l, kind);
    LengthAt(l, 0);
    EnoughIs(kind, root);
    SpaceIs(l, root);
    FirstCode(l, root);
    used := Pow2(root);
    if (kind == LENS && used > 852) || (kind == DISTS && used > 592) { return 1, used; }
    var pl, huff, sym := Place(root, 0, root, 0, 0), 0, 0;
    var len := lens[work[0]];
    assert len == l[0] by { assert work[..][0] == work[0]; }
    FirstPlace(table[start..], root, kind, work[..], l, lens);
    while true
      invariant sym < |l| && len == l[sym] && table[..start] == old(table[..start]) && used == pl.next + Pow2(pl.curr)
        && pl.root == root
      invariant Filling(table[start..], pl, kind, work[..], l, sym, huff) && used <= Enough(kind, root)
      invariant forall n :: 1 <= n <= 15 ==> count[n] == Left(l, n, sym)
      invariant used == Pow2(root) + Opened(l, root, sym + 1, Pow2(root))
      decreases |l| - sym
    {
      LengthAt(l, sym);
      ghost var prev := huff;
      huff := EnterCode(table, start, kind, pl, len, huff, work, sym, l, lens);
      var done, len' := NextSymbol(count, len, max, lens, work, sym, l, kind);
      if done {
        Finish(table, start, kind, pl, len, huff, work[..], l, sym, prev);
        break;
      }
      len := len';
      EnteredIs(table[start..], pl, kind, work[..], l, sym, prev, huff);
      LengthAt(l, sym + 1);
      FreshIsFirst(table[start..], pl, kind, work[..], l, sym, prev, huff);
      SpaceStepwise(l, root, sym);
      if Fresh(pl, len, huff) {
        FreshIs(pl, len, huff);
        var full;
        full, pl, used := OpenSubTable(table, start, kind, pl, count, len, max, huff, used, work[..], l, sym, prev);
        if full { return 1, used; }
      }
      sym := sym + 1;
    }
    ret := 0;
  }
}
