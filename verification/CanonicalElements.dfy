/**
 * The elements of a block as section 3.2 of RFC 1951 defines them, and what the tables of inflate_table make of them.
 */
module CanonicalElements {
  import opened Bytes
  import opened Powers
  import opened StreamCodes
  import opened CodeTables
  import opened InflateTrees
  import opened Lz77
  import opened InflateElements

  /** The symbol whose code the stream v starts with, from symbol i on; |lens| if there is none. */
  function SymbolFrom(lens: seq<nat>, v: nat, i: nat): (j: nat)
    requires i <= |lens|
    ensures i <= j <= |lens| && (j < |lens| ==> StartsWith(lens, j, v))
    ensures forall k :: i <= k < j ==> !StartsWith(lens, k, v)
    decreases |lens| - i
  {
    if i == |lens| || StartsWith(lens, i, v) then i else SymbolFrom(lens, v, i + 1)
  }

  /** The distance that the stream v starts with, behind a length and used bits in all. */
  function Distance(dl: seq<nat>, v: nat, used: nat, len: nat): (Element, nat) {
    var j := SymbolFrom(dl, Shr(v, used), 0);
    if j == |dl| then (BAD_DISTANCE, used + 1)
    else if j >= 30 then (BAD_DISTANCE, used + dl[j])
    else
      var at, extra := used + dl[j], DistExtra()[j] - 16;
      (Emit(Copy(DistBase()[j] + Low(Shr(v, at), extra), len)), at + extra)
  }

  /**
   * The element that the stream v starts with, and the bits it takes, for code lengths ll of literals and lengths
   * and dl of distances. A stream that starts with no code, or with one that has no meaning, is an error.
   */
  function Leading(ll: seq<nat>, dl: seq<nat>, v: nat): (Element, nat) {
    var i := SymbolFrom(ll, v, 0);
    if i == |ll| then (BAD_CODE, 1)
    else if i < 256 then (Emit(Literal(i)), ll[i])
    else if i == 256 then (END_OF_BLOCK, ll[i])
    else if i >= 286 then (BAD_CODE, ll[i])
    else
      var extra := LengthExtra()[i - 257] - 16;
      Distance(dl, v, ll[i] + extra, LengthBase()[i - 257] + Low(Shr(v, ll[i]), extra))
  }

  /** Code lengths that a block may announce. */
  predicate Sizes(ll: seq<nat>, dl: seq<nat>) {
    && |ll| <= 288 && |dl| <= 32 && (forall i :: 0 <= i < |ll| ==> ll[i] <= MAXBITS)
    && (forall i :: 0 <= i < |dl| ==> dl[i] <= MAXBITS)
  }

  /** The tables are those of the code lengths. */
  ghost predicate TablesOf(c: Tables, ll: seq<nat>, dl: seq<nat>) {
    && Sizes(ll, dl) && c.lenbits <= 15 && c.distbits <= 15
    && Decodes(c.lencode, c.lenbits, LENS, ll) && Decodes(c.distcode, c.distbits, DISTS, dl)
    && !Refused(LENS, ll) && !Refused(DISTS, dl)
  }

  // ----- what the entries say

  lemma {:induction false} LookedUp(t: seq<Entry>, root: nat, kind: CodeType, lens: seq<nat>, v: nat)
    requires Decodes(t, root, kind, lens)
    ensures var i := SymbolFrom(lens, v, 0);
      Lookup(t, root, v) == if i < |lens| then Says(kind, i, lens[i]) else INVALID
  {
    hide Lookup, StartsWith, Says;
  }

  lemma {:induction false} SaysLiteral(i: nat, n: nat)
    requires i < 256
    ensures var e := Says(LENS, i, n); e.op == 0 && e.val % 256 == i && e.bits == n
  {
  }

  lemma {:induction false} SaysEnd(n: nat)
    ensures var e := Says(LENS, 256, n); e.op != 0 && !IsBase(e.op) && IsEnd(e.op) && e.bits == n
  {
  }

  lemma {:induction false} SaysNothing(i: nat, n: nat)
    requires 286 <= i < 288
    ensures var e := Says(LENS, i, n); e.op != 0 && !IsBase(e.op) && !IsEnd(e.op) && e.bits == n
  {
  }

  lemma {:induction false} SaysLength(i: nat, n: nat)
    requires 257 <= i < 286
    ensures var e := Says(LENS, i, n);
      && e.op != 0 && IsBase(e.op) && e.op % 16 == LengthExtra()[i - 257] - 16
      && e.val == LengthBase()[i - 257] && e.bits == n
  {
    hide LengthExtra, LengthBase;
    LengthSizes(i - 257);
  }

  lemma {:induction false} LengthSizes(s: nat)
    requires s < 29
    ensures 16 <= LengthExtra()[s] <= 21
  {
  }

  lemma {:induction false} SaysDistance(j: nat, n: nat)
    requires j < 32
    ensures var e := Says(DISTS, j, n);
      && e.bits == n && (IsBase(e.op) <==> j < 30)
      && (j < 30 ==> e.op % 16 == DistExtra()[j] - 16 && e.val == DistBase()[j])
  {
    hide DistExtra, DistBase;
    if j < 30 { DistanceSizes(j); } else { LastDistances(j); }
  }

  lemma {:induction false} InvalidSays()
    ensures INVALID.op != 0 && !IsBase(INVALID.op) && !IsEnd(INVALID.op) && INVALID.bits == 1
  {
  }

  /** Behind a length the table for distances says what the code lengths say. */
  lemma {:induction false} NextDistance(t: seq<Entry>, root: nat, dl: seq<nat>, v: nat, used: nat, len: nat)
    requires Decodes(t, root, DISTS, dl) && |dl| <= 32
    ensures var d := Lookup(t, root, Shr(v, used));
      Distance(dl, v, used, len) ==
        if IsBase(d.op) then
          (Emit(Copy(d.val + Low(Shr(v, used + d.bits), d.op % 16), len)), used + d.bits + d.op % 16)
        else (BAD_DISTANCE, used + d.bits)
  {
    hide Lookup, Says, Low, Shr, DistBase, DistExtra, IsBase, SymbolFrom;
    LookedUp(t, root, DISTS, dl, Shr(v, used));
    InvalidSays();
    var j := SymbolFrom(dl, Shr(v, used), 0);
    if j < |dl| { SaysDistance(j, dl[j]); }
  }

  lemma {:induction false} NextIs(c: Tables, v: nat)
    ensures var e := Lookup(c.lencode, c.lenbits, v);
      Next(c, v) ==
        if e.op == 0 then (Emit(Literal(e.val % 256)), e.bits)
        else if IsBase(e.op) then
          var used := e.bits + e.op % 16;
          var d := Lookup(c.distcode, c.distbits, Shr(v, used));
          if IsBase(d.op) then
            (Emit(Copy(d.val + Low(Shr(v, used + d.bits), d.op % 16), e.val + Low(Shr(v, e.bits), e.op % 16))),
             used + d.bits + d.op % 16)
          else (BAD_DISTANCE, used + d.bits)
        else if IsEnd(e.op) then (END_OF_BLOCK, e.bits) else (BAD_CODE, e.bits)
  {
    hide Lookup, Low, Shr, IsBase, IsEnd;
  }

  /** Looking up is decoding bit by bit: the same element, and the same number of bits. */
  lemma {:induction false} NextCanonical(c: Tables, ll: seq<nat>, dl: seq<nat>, v: nat)
    requires TablesOf(c, ll, dl)
    ensures Next(c, v) == Leading(ll, dl, v)
  {
    hide Lookup, Says, Low, Shr, LengthBase, LengthExtra, IsBase, IsEnd, SymbolFrom, Decodes, Distance, Next, Refused;
    NextIs(c, v);
    var e := Lookup(c.lencode, c.lenbits, v);
    LookedUp(c.lencode, c.lenbits, LENS, ll, v);
    var i := SymbolFrom(ll, v, 0);
    if i == |ll| {
      InvalidSays();
    } else if i < 256 {
      SaysLiteral(i, ll[i]);
    } else if i == 256 {
      SaysEnd(ll[i]);
    } else if i >= 286 {
      SaysNothing(i, ll[i]);
    } else {
      SaysLength(i, ll[i]);
      NextDistance(c.distcode, c.distbits, dl, v, e.bits + e.op % 16, e.val + Low(Shr(v, e.bits), e.op % 16));
    }
  }

  /** The tables can be relied on. */
  lemma {:induction false} TablesProper(c: Tables, ll: seq<nat>, dl: seq<nat>)
    requires TablesOf(c, ll, dl)
    ensures ProperTables(c)
  {
    hide Decodes, Proper, Oversubscribed, Incomplete, Longest;
    TableProper(c.lencode, c.lenbits, LENS, ll);
    TableProper(c.distcode, c.distbits, DISTS, dl);
  }

  // ----- runs

  /** What is left of the stream, and the history, after n elements, as long as they can be carried out. */
  function Unfold(ll: seq<nat>, dl: seq<nat>, v: nat, hist: seq<byte>, limit: nat, n: nat): (nat, seq<byte>) {
    if n == 0 then (v, hist) else
      var (v', h) := Unfold(ll, dl, v, hist, limit, n - 1);
      var (e, used) := Leading(ll, dl, v');
      if e.Emit? && CanApply(e.token, h, limit) then (Shr(v', used), Apply(h, e.token)) else (v', h)
  }

  lemma {:induction false} RunCanonical(c: Tables, ll: seq<nat>, dl: seq<nat>, v: nat, hist: seq<byte>, limit: nat,
                                        n: nat)
    requires TablesOf(c, ll, dl)
    ensures Run(c, v, hist, limit, n) == Unfold(ll, dl, v, hist, limit, n)
  {
    hide TablesOf, Next, Leading, Shr, CanApply, Apply;
    if n > 0 {
      RunCanonical(c, ll, dl, v, hist, limit, n - 1);
      NextCanonical(c, ll, dl, Run(c, v, hist, limit, n - 1).0);
    }
  }
}
