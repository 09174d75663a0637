/** How deflate parses its input: where it must take a match, which one, and where it may take a literal. */
module Parsing {
  import opened Bytes
  import opened HashKey
  import opened Lz77

  const TOO_FAR := 4096

  /** Which of the loops makes the tokens: deflate_rle, deflate_fast or deflate_slow. */
  datatype Strategy = Rle | Fast | Slow

  /** What limits a search: the hash, the greatest distance, and a line of the configuration table. */
  datatype Limits = Limits(bits: nat, shift: nat, maxDist: nat, chain: nat, nice: nat, lazy: nat, filtered: bool)

  /** The positions whose strings have been inserted: all of them, or some. */
  datatype Known = All | Only(places: set<nat>)

  predicate Listed(known: Known, x: nat) {
    known.All? || x in known.places
  }

  /**
   * The cuts are the places at which a flush ended the input. The parser has seen less than len bytes at n if there is
   * one among them.
   */
  ghost predicate Cut(cuts: set<nat>, n: int, len: int) {
    exists c: nat {:trigger c in cuts} :: c in cuts && n < c < n + len
  }

  ghost predicate KeysAgree(data: seq<byte>, p: Limits, x: nat, n: nat) {
    && x + 3 <= |data| && n + 3 <= |data|
    && Key(p.bits, p.shift, data[x], data[x + 1], data[x + 2])
       == Key(p.bits, p.shift, data[n], data[n + 1], data[n + 2])
  }

  /** How many positions from lo on and below hi have the key of n. */
  ghost function Between(data: seq<byte>, p: Limits, lo: nat, hi: nat, n: nat): nat
    decreases hi
  {
    if hi <= lo then 0 else Between(data, p, lo, hi - 1, n) + if KeysAgree(data, p, hi - 1, n) then 1 else 0
  }

  /** A position that a search at n tries if it may try as many as chain. */
  ghost predicate Reach(data: seq<byte>, p: Limits, known: Known, cuts: set<nat>, x: nat, n: nat, chain: nat) {
    && 1 <= x < n && n - x < p.maxDist && Listed(known, x) && !Cut(cuts, x, 3)
    && Between(data, p, x + 1, n, n) < chain
  }

  /** The bytes at n are not those at x for len bytes, as far as could be seen. */
  ghost predicate NoMatch(data: seq<byte>, cuts: set<nat>, n: nat, x: int, len: nat) {
    Cut(cuts, n, len) || (n + len <= |data| && !Repeats(data, n, n - x, len))
  }

  /** There are three bytes at n, unless the input was cut. */
  ghost predicate Seen(data: seq<byte>, cuts: set<nat>, n: nat) {
    n + 3 <= |data| || Cut(cuts, n, 3)
  }

  /** No position in reach has len bytes of what is at n. */
  ghost predicate NoneInReach(data: seq<byte>, p: Limits, known: Known, cuts: set<nat>, n: nat, len: nat, chain: nat) {
    Seen(data, cuts, n) && forall x: nat {:trigger Reach(data, p, known, cuts, x, n, chain)} ::
      Reach(data, p, known, cuts, x, n, chain) ==> NoMatch(data, cuts, n, x, len)
  }

  /** No position nearer than dist has len bytes of what is at n. */
  ghost predicate NoneNearer(data: seq<byte>, p: Limits, known: Known, cuts: set<nat>, n: nat, dist: nat, len: nat) {
    forall x: nat {:trigger Listed(known, x)} ::
      n - dist < x < n && Listed(known, x) && !Cut(cuts, x, 3) ==> NoMatch(data, cuts, n, x, len)
  }

  /** The match at n goes on for exactly len bytes, or for as many as it may or could be seen. */
  ghost predicate Ends(data: seq<byte>, cuts: set<nat>, n: nat, dist: nat, len: nat) {
    len == MAX_MATCH || NoMatch(data, cuts, n, n - dist, len + 1)
  }

  /** The best match at n: none is longer, unless it is long enough anyway, and none as long is nearer. */
  ghost predicate Best(data: seq<byte>, p: Limits, known: Known, cuts: set<nat>, n: nat, dist: nat, len: nat,
                       chain: nat) {
    && MIN_MATCH <= len <= MAX_MATCH && dist <= p.maxDist && Repeats(data, n, dist, len)
    && Ends(data, cuts, n, dist, len) && NoneNearer(data, p, known, cuts, n, dist, len)
    && (len < p.nice && len < MAX_MATCH ==> NoneInReach(data, p, known, cuts, n, len + 1, chain))
  }

  // ----- more input, more cuts

  lemma {:induction false} MoreCut(cuts: set<nat>, cuts': set<nat>, n: int, len: int)
    requires cuts <= cuts' && Cut(cuts, n, len)
    ensures Cut(cuts', n, len)
  {
    var c: nat :| c in cuts && n < c < n + len;
    assert c in cuts';
  }

  lemma {:induction false} LongerCut(cuts: set<nat>, n: int, len: int, len': int)
    requires Cut(cuts, n, len) && len <= len'
    ensures Cut(cuts, n, len')
  {
  }

  lemma {:induction false} MoreNoMatch(data: seq<byte>, more: seq<byte>, cuts: set<nat>, cuts': set<nat>, n: nat,
                                       x: int,
                                       len: nat)
    requires NoMatch(data, cuts, n, x, len) && cuts <= cuts'
    ensures NoMatch(data + more, cuts', n, x, len)
  {
    hide Cut;
    if Cut(cuts, n, len) {
      MoreCut(cuts, cuts', n, len);
    } else {
      assert forall y :: 0 <= y < n + len ==> (data + more)[y] == data[y];
    }
  }

  lemma {:induction false} LongerNoMatch(data: seq<byte>, cuts: set<nat>, n: nat, x: int, len: nat, len': nat)
    requires NoMatch(data, cuts, n, x, len) && len <= len' && (n + len' <= |data| || Cut(cuts, n, len'))
    ensures NoMatch(data, cuts, n, x, len')
  {
    hide Cut;
    if Cut(cuts, n, len) {
      LongerCut(cuts, n, len, len');
    }
  }

  lemma {:induction false} MoreBetween(data: seq<byte>, more: seq<byte>, p: Limits, lo: nat, hi: nat, n: nat)
    requires hi <= n && n + 3 <= |data|
    ensures Between(data + more, p, lo, hi, n) == Between(data, p, lo, hi, n)
    decreases hi
  {
    hide Key;
    if lo < hi { MoreBetween(data, more, p, lo, hi - 1, n); }
  }

  ghost predicate Fewer(known: Known, known': Known) {
    forall x: nat {:trigger Listed(known', x)} :: Listed(known', x) ==> Listed(known, x)
  }

  lemma {:induction false} MoreReach(data: seq<byte>, more: seq<byte>, p: Limits, known: Known, known': Known,
                                     cuts: set<nat>, cuts': set<nat>, x: nat, n: nat, chain: nat)
    requires cuts <= cuts' && n + 3 <= |data| && Reach(data + more, p, known', cuts', x, n, chain)
      && Fewer(known, known')
    ensures Reach(data, p, known, cuts, x, n, chain)
  {
    hide Cut, Between;
    MoreBetween(data, more, p, x + 1, n, n);
    if Cut(cuts, x, 3) { MoreCut(cuts, cuts', x, 3); }
  }

  lemma {:induction false} MoreNone(data: seq<byte>, more: seq<byte>, p: Limits, known: Known, known': Known,
                                    cuts: set<nat>, cuts': set<nat>, n: nat, len: nat, chain: nat)
    requires cuts <= cuts' && NoneInReach(data, p, known, cuts, n, len, chain) && Fewer(known, known') && len >= 3
    ensures NoneInReach(data + more, p, known', cuts', n, len, chain)
  {
    hide Reach, NoMatch, Cut;
    if Cut(cuts, n, 3) { MoreCut(cuts, cuts', n, 3); }
    forall x: nat | Reach(data + more, p, known', cuts', x, n, chain) ensures NoMatch(data + more, cuts', n, x, len) {
      if Cut(cuts, n, 3) {
        ShortNoMatch(data + more, cuts', n, x, len);
      } else {
        MoreReach(data, more, p, known, known', cuts, cuts', x, n, chain);
        MoreNoMatch(data, more, cuts, cuts', n, x, len);
      }
    }
  }

  lemma {:induction false} ShortNoMatch(data: seq<byte>, cuts: set<nat>, n: nat, x: int, len: nat)
    requires Cut(cuts, n, 3) && len >= 3
    ensures NoMatch(data, cuts, n, x, len)
  {
    LongerCut(cuts, n, 3, len);
  }

  lemma {:induction false} MoreNearer(data: seq<byte>, more: seq<byte>, p: Limits, known: Known, known': Known,
                                      cuts: set<nat>, cuts': set<nat>, n: nat, dist: nat, len: nat)
    requires cuts <= cuts' && NoneNearer(data, p, known, cuts, n, dist, len) && Fewer(known, known')
    ensures NoneNearer(data + more, p, known', cuts', n, dist, len)
  {
    hide Cut, NoMatch, Listed;
    forall x: nat | n - dist < x < n && Listed(known', x) && !Cut(cuts', x, 3)
      ensures NoMatch(data + more, cuts', n, x, len)
    {
      if Cut(cuts, x, 3) { MoreCut(cuts, cuts', x, 3); }
      MoreNoMatch(data, more, cuts, cuts', n, x, len);
    }
  }

  lemma {:induction false} MoreBest(data: seq<byte>, more: seq<byte>, p: Limits, known: Known, known': Known,
                                    cuts: set<nat>, cuts': set<nat>, n: nat, dist: nat, len: nat, chain: nat)
    requires cuts <= cuts' && Best(data, p, known, cuts, n, dist, len, chain) && Fewer(known, known')
    ensures Best(data + more, p, known', cuts', n, dist, len, chain)
  {
    hide NoMatch, NoneInReach, NoneNearer, Fewer, Repeats;
    RepeatsSize(data, n, dist, len);
    RepeatsMore(data, more, n, dist, len);
    MoreNearer(data, more, p, known, known', cuts, cuts', n, dist, len);
    if len < p.nice && len < MAX_MATCH { MoreNone(data, more, p, known, known', cuts, cuts', n, len + 1, chain); }
    if len < MAX_MATCH { MoreNoMatch(data, more, cuts, cuts', n, n - dist, len + 1); }
  }

  // ----- weaker statements

  lemma {:induction false} LongerNone(data: seq<byte>, p: Limits, known: Known, cuts: set<nat>, n: nat, len: nat,
                                      len': nat, chain: nat)
    requires NoneInReach(data, p, known, cuts, n, len, chain) && len <= len'
      && (n + len' <= |data| || Cut(cuts, n, len'))
    ensures NoneInReach(data, p, known, cuts, n, len', chain)
  {
    hide Reach, NoMatch, Cut;
    forall x: nat | Reach(data, p, known, cuts, x, n, chain) ensures NoMatch(data, cuts, n, x, len') {
      LongerNoMatch(data, cuts, n, x, len, len');
    }
  }

  lemma {:induction false} ShorterChain(data: seq<byte>, p: Limits, known: Known, cuts: set<nat>, n: nat, len: nat,
                                        chain: nat, chain': nat)
    requires NoneInReach(data, p, known, cuts, n, len, chain) && chain' <= chain
    ensures NoneInReach(data, p, known, cuts, n, len, chain')
  {
    hide NoMatch, Cut, Between, Listed;
    forall x: nat | Reach(data, p, known, cuts, x, n, chain') ensures NoMatch(data, cuts, n, x, len) {
      assert Reach(data, p, known, cuts, x, n, chain);
    }
  }

  lemma {:induction false} BestOfFewer(data: seq<byte>, p: Limits, known: Known, cuts: set<nat>, n: nat, dist: nat,
                                       len: nat, chain: nat, chain': nat)
    requires Best(data, p, known, cuts, n, dist, len, chain) && chain' <= chain
    ensures Best(data, p, known, cuts, n, dist, len, chain')
  {
    hide NoneInReach, NoneNearer, NoMatch, Repeats;
    if len < p.nice && len < MAX_MATCH { ShorterChain(data, p, known, cuts, n, len + 1, chain, chain'); }
  }

  // ----- which token is right where

  /** The least length that is of use to deflate_slow. */
  function Useful(p: Limits, dist: int): nat {
    if p.filtered then 6 else if dist > TOO_FAR then 4 else 3
  }

  ghost predicate NothingUseful(data: seq<byte>, p: Limits, cuts: set<nat>, n: nat) {
    Seen(data, cuts, n) && forall x: nat {:trigger Reach(data, p, All, cuts, x, n, p.chain)} ::
      Reach(data, p, All, cuts, x, n, p.chain) ==> NoMatch(data, cuts, n, x, Useful(p, n - x))
  }

  /** A match one byte later is longer than any at n that a search cut short to a quarter tries. */
  ghost predicate GaveWay(data: seq<byte>, p: Limits, cuts: set<nat>, n: nat) {
    exists dist: nat, len: nat {:trigger Repeats(data, n + 1, dist, len)} :: LongerLater(data, p, cuts, n, dist, len)
  }

  ghost predicate LongerLater(data: seq<byte>, p: Limits, cuts: set<nat>, n: nat, dist: nat, len: nat) {
    && 4 <= len <= MAX_MATCH && dist <= p.maxDist && Repeats(data, n + 1, dist, len)
    && (len > p.nice || NoneInReach(data, p, All, cuts, n, len, p.chain / 4))
  }

  /** No longer match than len bytes begins at n, unless len is enough not to look for one. */
  ghost predicate NoBetter(data: seq<byte>, p: Limits, cuts: set<nat>, n: nat, len: nat) {
    || len >= p.lazy || len >= MAX_MATCH || Cut(cuts, n, len + 1)
    || NoneInReach(data, p, All, cuts, n, if p.filtered && len <= 4 then 6 else len + 1, p.chain / 4)
  }

  /** The best match, and no better one a byte later. */
  ghost predicate BestAndKept(data: seq<byte>, p: Limits, cuts: set<nat>, n: nat, dist: nat, len: nat) {
    Best(data, p, All, cuts, n, dist, len, p.chain / 4) && NoBetter(data, p, cuts, n + 1, len)
  }

  ghost function Span(n: nat, len: nat): (r: set<nat>)
    ensures forall x: nat {:trigger x in r} :: x in r <==> n <= x < n + len
  {
    if len == 0 then {} else Span(n, len - 1) + {n + len - 1}
  }

  /**
   * What deflate_fast inserts for a token at n: of a long match, or one at the end of the input, the first position.
   */
  ghost function Places(t: Token, n: nat, p: Limits, cuts: set<nat>): set<nat> {
    match t
    case Literal(_) => {n}
    case Copy(_, len) => if len <= p.lazy && !Cut(cuts, n + len - 1, 4) then {n} + Span(n, len) else {n}
  }

  /** The positions that deflate_fast has inserted while making the first k tokens. */
  ghost function Indexed(ts: seq<Token>, k: nat, p: Limits, cuts: set<nat>): set<nat>
    requires k <= |ts|
  {
    if k == 0 then {} else Indexed(ts, k - 1, p, cuts) + Places(ts[k - 1], |Expand(ts, k - 1)|, p, cuts)
  }

  ghost predicate TokenRight(st: Strategy, ts: seq<Token>, i: nat, data: seq<byte>, p: Limits, cuts: set<nat>)
    requires i < |ts|
  {
    var n := |Expand(ts, i)|;
    match st
    case Rle => (
      match ts[i]
      case Literal(_) => n == 0 || NoMatch(data, cuts, n, n - 1, 3)
      case Copy(dist, len) => dist == 1 && Ends(data, cuts, n, 1, len))
    case Fast => (
      match ts[i]
      case Literal(_) => NoneInReach(data, p, Only(Indexed(ts, i, p, cuts)), cuts, n, 3, p.chain)
      case Copy(dist, len) => Best(data, p, Only(Indexed(ts, i, p, cuts)), cuts, n, dist, len, p.chain))
    case Slow => (
      match ts[i]
      case Literal(_) => NothingUseful(data, p, cuts, n) || GaveWay(data, p, cuts, n)
      case Copy(dist, len) => BestAndKept(data, p, cuts, n, dist, len))
  }

  /** All tokens are right. */
  ghost predicate Parsed(st: Strategy, ts: seq<Token>, data: seq<byte>, p: Limits, cuts: set<nat>) {
    forall i {:trigger ts[i]} :: 0 <= i < |ts| ==> TokenRight(st, ts, i, data, p, cuts)
  }

  lemma {:induction false} IndexedPrefix(ts: seq<Token>, us: seq<Token>, k: nat, p: Limits, cuts: set<nat>)
    requires k <= |ts| <= |us| && us[..|ts|] == ts
    ensures Indexed(us, k, p, cuts) == Indexed(ts, k, p, cuts)
  {
    hide Places, Expand;
    if k > 0 {
      IndexedPrefix(ts, us, k - 1, p, cuts);
      ExpandPrefix(ts, us, k - 1);
      assert us[k - 1] == us[..|ts|][k - 1];
    }
  }

  lemma {:induction false} MoreIndexed(ts: seq<Token>, k: nat, p: Limits, cuts: set<nat>, cuts': set<nat>)
    requires k <= |ts| && cuts <= cuts'
    ensures Indexed(ts, k, p, cuts') <= Indexed(ts, k, p, cuts)
  {
    hide Cut;
    if k > 0 {
      MoreIndexed(ts, k - 1, p, cuts, cuts');
      var n := |Expand(ts, k - 1)|;
      if ts[k - 1].Copy? && Cut(cuts, n + ts[k - 1].len - 1, 4) { MoreCut(cuts, cuts', n + ts[k - 1].len - 1, 4); }
    }
  }

  /** Earlier tokens stay right. */
  lemma {:induction false} TokenStays(st: Strategy, ts: seq<Token>, us: seq<Token>, i: nat, data: seq<byte>, p: Limits,
                                      cuts: set<nat>)
    requires i < |ts| <= |us| && us[..|ts|] == ts && TokenRight(st, ts, i, data, p, cuts)
    ensures TokenRight(st, us, i, data, p, cuts)
  {
    hide NoneInReach, Best, NothingUseful, GaveWay, NoBetter, NoMatch, Ends, Indexed;
    ExpandPrefix(ts, us, i);
    IndexedPrefix(ts, us, i, p, cuts);
    assert us[i] == us[..|ts|][i];
  }

  /** One more right token. */
  lemma {:induction false} ParsedNext(st: Strategy, ts: seq<Token>, t: Token, data: seq<byte>, p: Limits,
                                      cuts: set<nat>)
    requires Parsed(st, ts, data, p, cuts) && TokenRight(st, ts + [t], |ts|, data, p, cuts)
    ensures Parsed(st, ts + [t], data, p, cuts)
  {
    hide TokenRight;
    var us := ts + [t];
    forall i | 0 <= i < |us| ensures TokenRight(st, us, i, data, p, cuts) {
      if i < |ts| {
        assert ts[i] == us[i];
        TokenStays(st, ts, us, i, data, p, cuts);
      }
    }
  }

  lemma {:induction false} UsefulSize(p: Limits, dist: int)
    ensures 3 <= Useful(p, dist) <= 6
  {
  }

  lemma {:induction false} MoreUseful(data: seq<byte>, more: seq<byte>, p: Limits, cuts: set<nat>, cuts': set<nat>,
                                      n: nat)
    requires cuts <= cuts' && NothingUseful(data, p, cuts, n)
    ensures NothingUseful(data + more, p, cuts', n)
  {
    hide Reach, NoMatch, Cut, Useful;
    if Cut(cuts, n, 3) { MoreCut(cuts, cuts', n, 3); }
    forall x: nat | Reach(data + more, p, All, cuts', x, n, p.chain)
      ensures NoMatch(data + more, cuts', n, x, Useful(p, n - x))
    {
      UsefulSize(p, n - x);
      if Cut(cuts, n, 3) {
        ShortNoMatch(data + more, cuts', n, x, Useful(p, n - x));
      } else {
        MoreReach(data, more, p, All, All, cuts, cuts', x, n, p.chain);
        MoreNoMatch(data, more, cuts, cuts', n, x, Useful(p, n - x));
      }
    }
  }

  lemma {:induction false} MoreWay(data: seq<byte>, more: seq<byte>, p: Limits, cuts: set<nat>, cuts': set<nat>, n: nat)
    requires cuts <= cuts' && GaveWay(data, p, cuts, n)
    ensures GaveWay(data + more, p, cuts', n)
  {
    hide NoneInReach, Repeats;
    var dist: nat, len: nat :| LongerLater(data, p, cuts, n, dist, len);
    RepeatsMore(data, more, n + 1, dist, len);
    if len <= p.nice { MoreNone(data, more, p, All, All, cuts, cuts', n, len, p.chain / 4); }
    assert LongerLater(data + more, p, cuts', n, dist, len);
  }

  lemma {:induction false} MoreBetter(data: seq<byte>, more: seq<byte>, p: Limits, cuts: set<nat>, cuts': set<nat>,
                                      n: nat, len: nat)
    requires cuts <= cuts' && NoBetter(data, p, cuts, n, len) && len >= 3
    ensures NoBetter(data + more, p, cuts', n, len)
  {
    hide NoneInReach, Cut;
    if Cut(cuts, n, len + 1) {
      MoreCut(cuts, cuts', n, len + 1);
    } else if len < p.lazy && len < MAX_MATCH {
      MoreNone(data, more, p, All, All, cuts, cuts', n, if p.filtered && len <= 4 then 6 else len + 1, p.chain / 4);
    }
  }

  /** A token stays right when more input and more cuts come. */
  lemma {:induction false} MoreRight(st: Strategy, ts: seq<Token>, i: nat, data: seq<byte>, more: seq<byte>, p: Limits,
                                     cuts: set<nat>, cuts': set<nat>)
    requires i < |ts| && cuts <= cuts' && TokenRight(st, ts, i, data, p, cuts)
    ensures TokenRight(st, ts, i, data + more, p, cuts')
  {
    hide NoneInReach, NothingUseful, GaveWay, NoBetter, NoMatch, Indexed, Repeats, NoneNearer, Reach;
    var n := |Expand(ts, i)|;
    match st
    case Rle =>
      if ts[i].Literal? {
        if n > 0 { MoreNoMatch(data, more, cuts, cuts', n, n - 1, 3); }
      } else if ts[i].len != MAX_MATCH {
        MoreNoMatch(data, more, cuts, cuts', n, n - 1, ts[i].len + 1);
      }
    case Fast =>
      MoreIndexed(ts, i, p, cuts, cuts');
      var known, known' := Only(Indexed(ts, i, p, cuts)), Only(Indexed(ts, i, p, cuts'));
      if ts[i].Literal? {
        MoreNone(data, more, p, known, known', cuts, cuts', n, 3, p.chain);
      } else {
        MoreBest(data, more, p, known, known', cuts, cuts', n, ts[i].dist, ts[i].len, p.chain);
      }
    case Slow =>
      if ts[i].Copy? {
        MoreBest(data, more, p, All, All, cuts, cuts', n, ts[i].dist, ts[i].len, p.chain / 4);
        MoreBetter(data, more, p, cuts, cuts', n + 1, ts[i].len);
      } else if NothingUseful(data, p, cuts, n) {
        MoreUseful(data, more, p, cuts, cuts', n);
      } else {
        MoreWay(data, more, p, cuts, cuts', n);
      }
  }

  lemma {:induction false} MoreParsed(st: Strategy, ts: seq<Token>, data: seq<byte>, more: seq<byte>, p: Limits,
                                      cuts: set<nat>, cuts': set<nat>)
    requires Parsed(st, ts, data, p, cuts) && cuts <= cuts'
    ensures Parsed(st, ts, data + more, p, cuts')
  {
    hide TokenRight;
    forall i | 0 <= i < |ts| ensures TokenRight(st, ts, i, data + more, p, cuts') {
      var t := ts[i];
      assert TokenRight(st, ts, i, data, p, cuts);
      MoreRight(st, ts, i, data, more, p, cuts, cuts');
    }
  }

  lemma {:induction false} NothingParsed(st: Strategy, data: seq<byte>, p: Limits, cuts: set<nat>)
    ensures Parsed(st, [], data, p, cuts)
  {
  }

  // ----- what this excludes

  /** deflate_rle makes no literal where a byte is about to come for the fourth time. */
  lemma {:induction false} RunsTaken(ts: seq<Token>, i: nat, data: seq<byte>, p: Limits, cuts: set<nat>)
    requires Parsed(Rle, ts, data, p, cuts) && i < |ts| && ts[i].Literal?
    requires var n := |Expand(ts, i)|; 0 < n && n + 3 <= |data| && !Cut(cuts, n, 3)
    ensures var n := |Expand(ts, i)|; !(data[n - 1] == data[n] == data[n + 1] == data[n + 2])
  {
    hide Cut, Expand;
    var t := ts[i];
    assert TokenRight(Rle, ts, i, data, p, cuts);
  }

  /** deflate_fast makes no literal where one of the positions that it tries has the same three bytes. */
  lemma {:induction false} MatchesTaken(ts: seq<Token>, i: nat, data: seq<byte>, p: Limits, cuts: set<nat>, x: nat)
    requires Parsed(Fast, ts, data, p, cuts) && i < |ts| && ts[i].Literal?
    requires var n := |Expand(ts, i)|;
      Reach(data, p, Only(Indexed(ts, i, p, cuts)), cuts, x, n, p.chain) && n + 3 <= |data| && !Cut(cuts, n, 3)
    ensures var n := |Expand(ts, i)|; data[x..x + 3] != data[n..n + 3]
  {
    hide Cut, Expand, Reach, Indexed;
    var n, t := |Expand(ts, i)|, ts[i];
    assert TokenRight(Fast, ts, i, data, p, cuts);
    Before(data, p, Only(Indexed(ts, i, p, cuts)), cuts, x, n, p.chain);
    ThreeDiffer(data, x, n);
  }

  lemma {:induction false} Before(data: seq<byte>, p: Limits, known: Known, cuts: set<nat>, x: nat, n: nat, chain: nat)
    requires Reach(data, p, known, cuts, x, n, chain)
    ensures x < n
  {
    hide Cut, Between;
  }

  lemma {:induction false} ThreeDiffer(data: seq<byte>, x: nat, n: nat)
    requires x < n && n + 3 <= |data| && !Repeats(data, n, n - x, 3)
    ensures data[x..x + 3] != data[n..n + 3]
  {
    var y :| n <= y < n + 3 && data[y] != data[y - (n - x)];
    assert data[x..x + 3][y - n] != data[n..n + 3][y - n];
  }

  /**
   * If deflate_slow makes a literal where one of the positions that it tries, even with the chain cut to a quarter, has
   * len bytes, six at least, then a match one byte later is longer, or longer than nice.
   */
  lemma {:induction false} LongerTaken(ts: seq<Token>, i: nat, data: seq<byte>, p: Limits, cuts: set<nat>, x: nat,
                                       len: nat) returns (dist: nat, len': nat)
    requires Parsed(Slow, ts, data, p, cuts) && i < |ts| && ts[i].Literal? && 6 <= len
    requires var n := |Expand(ts, i)|;
      Reach(data, p, All, cuts, x, n, p.chain / 4) && Repeats(data, n, n - x, len) && !Cut(cuts, n, len)
    ensures Repeats(data, |Expand(ts, i)| + 1, dist, len') && dist <= p.maxDist && (len < len' || p.nice < len')
  {
    hide Cut, Expand, Between, Repeats;
    var n, t := |Expand(ts, i)|, ts[i];
    assert TokenRight(Slow, ts, i, data, p, cuts);
    RepeatsSize(data, n, n - x, len);
    assert Reach(data, p, All, cuts, x, n, p.chain);
    UsefulSize(p, n - x);
    if NothingUseful(data, p, cuts, n) {
      NotThere(data, cuts, n, x, Useful(p, n - x), len);
      assert false;
    } else {
      assert GaveWay(data, p, cuts, n);
      dist, len' :| LongerLater(data, p, cuts, n, dist, len');
      if len' <= len && len' <= p.nice { NotThere(data, cuts, n, x, len', len); assert false; }
    }
  }

  lemma {:induction false} NotThere(data: seq<byte>, cuts: set<nat>, n: nat, x: nat, len: nat, len': nat)
    requires NoMatch(data, cuts, n, x, len) && Repeats(data, n, n - x, len') && len <= len'
    ensures Cut(cuts, n, len')
  {
    if Cut(cuts, n, len) { LongerCut(cuts, n, len, len'); }
  }
}
