/** deflate_fast: matches taken as they are found. */
module DeflateFast {
  import opened Bytes
  import opened HashKey
  import opened Lz77
  import opened HashChains
  import opened Parsing
  import opened WindowSearch
  import opened Deflate

  /** The tokens stand for all input before strstart. */
  ghost predicate TokensOk(s: DeflateState)
    reads s`flushed, s`sym_next, s`consumed, s`lookahead, s.sym_buf
  {
    s.Buffered() && Codes(s.Tokens(), s.consumed, s.Done(), MaxDist(s.w_size))
  }

  /** Near the end of the input there is a cut. */
  ghost predicate EndCut(s: DeflateState, n: nat)
    reads s`consumed, s`lookahead, s`cuts
  {
    s.lookahead < n ==> |s.consumed| in s.cuts
  }

  lemma {:induction false} EndCutIs(s: DeflateState, n: nat)
    ensures EndCut(s, n) <==> (s.lookahead < n ==> |s.consumed| in s.cuts)
  {
  }

  lemma {:induction false} NewPosition(ts: seq<Token>, t: Token, data: seq<byte>, n: int, maxDist: nat)
    requires Codes(ts, data, n, maxDist)
    ensures (ts + [t])[|ts|] == t && |Expand(ts + [t], |ts|)| == n
  {
    ExpandPrefix(ts, ts + [t], |ts|);
  }

  lemma {:induction false} LimitIs(s: DeflateState)
    ensures s.Limit() == Limits(s.hash_bits, s.hash_shift, MaxDist(s.w_size), s.config.chain, s.config.nice,
                                s.config.lazy, s.filtered)
  {
  }

  /** The positions that the tokens so far have made known. */
  ghost function KnownTo(s: DeflateState): Known
    reads s`flushed, s`sym_next, s`cuts, s.sym_buf
  {
    Only(Indexed(s.Tokens(), |s.Tokens()|, s.Limit(), s.cuts))
  }

  lemma {:induction false} KnownIs(s: DeflateState)
    ensures KnownTo(s) == Only(Indexed(s.Tokens(), |s.Tokens()|, s.Limit(), s.cuts))
  {
  }

  /** Between two turns of deflate_fast. */
  ghost predicate FastOk(s: DeflateState)
    reads s, s.window, s.head, s.prev, s.sym_buf
  {
    && s.Shape() && Dictionary(s.V(s.strstart + s.lookahead), s.insert) && TokensOk(s)
    && s.match_length < 3 && s.prev_length == 2 && s.match_start < 0x1_0000_0000
    && Parsed(Fast, s.Tokens(), s.consumed, s.Limit(), s.cuts)
    && Stocked(s.V(s.strstart + s.lookahead), KnownTo(s), s.cuts) && Deep(s.V(s.strstart + s.lookahead))
  }

  lemma {:induction false} FastIs(s: DeflateState)
    ensures FastOk(s) <==>
      && s.Shape() && Dictionary(s.V(s.strstart + s.lookahead), s.insert) && TokensOk(s)
      && s.match_length < 3 && s.prev_length == 2 && s.match_start < 0x1_0000_0000
      && Parsed(Fast, s.Tokens(), s.consumed, s.Limit(), s.cuts)
      && Stocked(s.V(s.strstart + s.lookahead), KnownTo(s), s.cuts) && Deep(s.V(s.strstart + s.lookahead))
  {
  }

  lemma {:induction false} TokensAre(s: DeflateState)
    ensures TokensOk(s) <==>
      s.Buffered() && Codes(s.Tokens(), s.consumed, |s.consumed| - s.lookahead, MaxDist(s.w_size))
  {
  }

  /** The state after the current string has been inserted can be searched. */
  lemma {:induction false} CanSearch(v: View, u: View, insert: nat, p: Limits, known: Known, cuts: set<nat>)
    requires Windowed(v) && Stocked(v, known, cuts) && Deep(v) && u == v.(head := u.head, prev := u.prev, ins := u.ins,
      insH := u.insH)
    requires v.ins <= u.ins && Current(u, insert) && LimitsOf(p, u) && u.str < u.end && Ended(u, cuts)
    ensures Searchable(u, p, known, cuts) && Base(u) >= 0
  {
    hide Cut, Listed, Heads, Links, Ready;
    forall x: nat | x < u.str && Listed(known, Base(u) + x) && !Cut(cuts, Base(u) + x, 3) ensures x in u.ins {
      assert x in v.ins;
    }
  }

  lemma {:induction false} EndedIs(s: DeflateState)
    requires EndCut(s, 262)
    ensures Ended(s.V(s.strstart + s.lookahead), s.cuts)
    ensures LimitsOf(s.Limit(), s.V(s.strstart + s.lookahead))
  {
  }

  lemma {:induction false} BaseOf(s: DeflateState, end: nat)
    ensures Base(s.V(end)) == |s.consumed| - end
  {
  }

  /** Without a candidate there is nothing in reach. */
  lemma {:induction false} NoCandidate(v: View, p: Limits, known: Known, cuts: set<nat>, head: nat, chain: nat)
    requires Searchable(v, p, known, cuts)
    requires v.end - v.str >= MIN_MATCH ==>
      Latest(v, KeyAt(v, v.str), head, v.str) && (head == NIL || v.str > head + MaxDist(v.w))
    ensures Base(v) >= 0 && NoneInReach(v.data, p, known, cuts, Base(v) + v.str, 3, chain)
  {
    hide Searchable, Latest, KeyAt, NoneInReach, Exhausted;
    if v.end - v.str >= MIN_MATCH {
      HeadOut(v, head, 2, chain);
      ExhaustedNone(v, p, known, cuts, 2, chain);
    } else {
      ShortNone(v, p, known, cuts, 3, chain);
    }
  }

  /** Inserts the current string and looks for a match with it. */
  method FindMatch(s: DeflateState)
    requires FastOk(s) && s.lookahead > 0 && s.strstart + 262 <= 2 * s.w_size && EndCut(s, 262)
    modifies s`match_length, s`match_start, s`ins_h, s`ins, s.head, s.prev
    ensures Current(s.V(s.strstart + s.lookahead), s.insert) && s.match_start < 0x1_0000_0000
    ensures Searchable(s.V(s.strstart + s.lookahead), s.Limit(), KnownTo(s), s.cuts)
    ensures s.strstart in s.ins || s.lookahead < 3
    ensures s.match_length < 3 ==>
      NoneInReach(s.consumed, s.Limit(), KnownTo(s), s.cuts, Base(s.V(s.strstart + s.lookahead)) + s.strstart, 3,
                  s.Limit().chain)
    ensures s.match_length >= 3 ==>
      s.match_length <= s.lookahead && s.match_length <= 258
        && Matches(s.window[..], s.match_start, s.strstart, s.match_length)
           && s.strstart - s.match_start <= MaxDist(s.w_size)
    ensures s.match_length >= 3 ==>
      Best(s.consumed, s.Limit(), KnownTo(s), s.cuts, Base(s.V(s.strstart + s.lookahead)) + s.strstart,
           s.strstart - s.match_start, s.match_length, s.Limit().chain)
  {
    hide *;
    FastIs(s);
    s.ShapeIs();
    s.LimitsAre();
    EndedIs(s);
    LimitIs(s);
    ghost var end := s.strstart + s.lookahead;
    ghost var v := s.V(end);
    s.VIs(end);
    s.CurrentWindowed(v, s.insert);
    var hash_head := s.InsertIfLong();
    ghost var u := s.V(end);
    s.VIs(end);
    EndedIs(s);
    CurrentWhole(u, s.insert);
    CanSearch(v, u, s.insert, s.Limit(), KnownTo(s), s.cuts);
    if hash_head != 0 && s.strstart - hash_head <= s.w_size - 262 {
      s.CurrentWindowed(u, s.insert);
      CandidateBelow(u, hash_head, s.strstart);
      s.match_length := s.LongestMatch(hash_head, end);
      s.VIs(end);
      SearchedFast(s, end, s.match_length);
    } else {
      NoCandidate(u, s.Limit(), KnownTo(s), s.cuts, hash_head, s.Limit().chain);
    }
  }

  /** What longest_match found, in terms of the data. */
  lemma {:induction false} SearchedFast(s: DeflateState, end: nat, len: nat)
    requires s.Shape() && s.prev_length == 2 && 3 <= s.lookahead && end == s.strstart + s.lookahead
      && Searchable(s.V(end), s.Limit(), KnownTo(s), s.cuts)
    requires len <= s.lookahead && len <= 258 && s.Found(end, len, s.ChainLength(), s.NiceMatch())
    ensures len < 3 ==>
      Base(s.V(end)) >= 0
      && NoneInReach(s.consumed, s.Limit(), KnownTo(s), s.cuts, Base(s.V(end)) + s.strstart, 3, s.Limit().chain)
    ensures len >= 3 ==>
      && Matches(s.window[..], s.match_start, s.strstart, len) && 1 <= s.strstart - s.match_start <= MaxDist(s.w_size)
      && Base(s.V(end)) >= 0
      && Best(s.consumed, s.Limit(), KnownTo(s), s.cuts, Base(s.V(end)) + s.strstart, s.strstart - s.match_start, len,
              s.Limit().chain)
  {
    hide Searchable, NoneInReach, Best, Matches, Exhausted, NoneFrom, KnownTo;
    var v := s.V(end);
    if len < 3 {
      ExhaustedNone(v, s.Limit(), KnownTo(s), s.cuts, 2, s.Limit().chain);
    } else {
      MatchSize(v.win, s.match_start, v.str, len);
      BestFound(v, s.Limit(), KnownTo(s), s.cuts, s.match_start, len, s.NiceMatch(), s.Limit().chain);
    }
  }

  lemma {:induction false} CandidateBelow(v: View, c: nat, p: nat)
    requires Candidate(v, c, p)
    ensures c < p
  {
  }

  lemma {:induction false} CurrentWhole(v: View, insert: nat)
    requires Current(v, insert)
    ensures Windowed(v) && (v.end - v.str >= 3 ==> insert == 0 && Chains(v, v.str + 1))
  {
    hide Chains;
  }

  // ----- the token that comes next

  /** The current string has been inserted and looked for. */
  ghost predicate Sought(s: DeflateState)
    reads s, s.window, s.head, s.prev, s.sym_buf
  {
    && s.Shape() && Current(s.V(s.strstart + s.lookahead), s.insert) && TokensOk(s) && s.prev_length == 2
    && s.match_start < 0x1_0000_0000 && EndCut(s, 262) && (s.strstart in s.ins || s.lookahead < 3)
    && Parsed(Fast, s.Tokens(), s.consumed, s.Limit(), s.cuts)
    && Searchable(s.V(s.strstart + s.lookahead), s.Limit(), KnownTo(s), s.cuts)
  }

  lemma {:induction false} SoughtIs(s: DeflateState)
    ensures Sought(s) <==>
      && s.Shape() && Current(s.V(s.strstart + s.lookahead), s.insert) && TokensOk(s) && s.prev_length == 2
      && s.match_start < 0x1_0000_0000 && EndCut(s, 262) && (s.strstart in s.ins || s.lookahead < 3)
      && Parsed(Fast, s.Tokens(), s.consumed, s.Limit(), s.cuts)
      && Searchable(s.V(s.strstart + s.lookahead), s.Limit(), KnownTo(s), s.cuts)
  {
  }

  lemma {:induction false} FastLiteral(ts: seq<Token>, t: Token, data: seq<byte>, n: nat, p: Limits, cuts: set<nat>)
    requires Codes(ts, data, n, p.maxDist) && Parsed(Fast, ts, data, p, cuts) && t.Literal?
      && NoneInReach(data, p, Only(Indexed(ts, |ts|, p, cuts)), cuts, n, 3, p.chain)
    ensures Parsed(Fast, ts + [t], data, p, cuts)
  {
    hide Codes, NoneInReach, Parsed;
    NewPosition(ts, t, data, n, p.maxDist);
    IndexedPrefix(ts, ts + [t], |ts|, p, cuts);
    ParsedNext(Fast, ts, t, data, p, cuts);
  }

  lemma {:induction false} FastCopy(ts: seq<Token>, dist: nat, len: nat, data: seq<byte>, n: nat, p: Limits,
                                    cuts: set<nat>)
    requires Codes(ts, data, n, p.maxDist) && Parsed(Fast, ts, data, p, cuts)
      && Best(data, p, Only(Indexed(ts, |ts|, p, cuts)), cuts, n, dist, len, p.chain)
    ensures Parsed(Fast, ts + [Copy(dist, len)], data, p, cuts)
  {
    hide Codes, Best, Parsed;
    NewPosition(ts, Copy(dist, len), data, n, p.maxDist);
    IndexedPrefix(ts, ts + [Copy(dist, len)], |ts|, p, cuts);
    ParsedNext(Fast, ts, Copy(dist, len), data, p, cuts);
  }

  lemma {:induction false} SearchableIs(v: View, p: Limits, known: Known, cuts: set<nat>)
    requires Searchable(v, p, known, cuts)
    ensures Windowed(v) && Stocked(v, known, cuts) && Deep(v) && Base(v) >= 0
    ensures v.end - v.str < 262 ==> |v.data| in cuts
  {
  }

  lemma {:induction false} PassedOn(v: View, u: View, len: nat)
    requires Deep(v) && u.str == v.str + len && u.w == v.w && |u.data| - u.end == |v.data| - v.end && v.ins <= u.ins
    ensures Passed(v, u, len) && Deep(u)
  {
  }

  /** With less than three bytes behind the match the input was cut there. */
  lemma {:induction false} CutBehind(v: View, p: Limits, known: Known, cuts: set<nat>, len: nat)
    requires Searchable(v, p, known, cuts) && 1 <= len <= v.end - v.str < len + 3 && len <= 258
    ensures Cut(cuts, Base(v) + v.str + len - 1, 4)
  {
    hide Stocked, Below;
    assert |v.data| in cuts;
  }

  lemma {:induction false} CutShort(v: View, p: Limits, known: Known, cuts: set<nat>)
    requires Searchable(v, p, known, cuts) && v.end - v.str < 3
    ensures Cut(cuts, Base(v) + v.str, 3)
  {
    hide Stocked, Below;
    assert |v.data| in cuts;
  }

  lemma {:induction false} CodesIs(ts: seq<Token>, data: seq<byte>, n: int, maxDist: nat)
    requires Codes(ts, data, n, maxDist)
    ensures Legal(ts, maxDist) && |Expand(ts, |ts|)| == n && 0 <= n <= |data|
  {
  }

  /** After a token the known positions are still in the dictionary. */
  lemma {:induction false} StockedNext(s: DeflateState, v: View, ts: seq<Token>, t: Token, len: nat)
    requires s.Tokens() == ts + [t] && |s.Tokens()| == |ts| + 1
    requires Searchable(v, s.Limit(), Only(Indexed(ts, |ts|, s.Limit(), s.cuts)), s.cuts)
    requires Legal(ts, s.Limit().maxDist) && |Expand(ts, |ts|)| == Base(v) + v.str && len >= 1
      && (if t.Copy? then t.len == len else len == 1)
    requires v.end == s.strstart + s.lookahead && |v.data| == |s.consumed| && v.w == s.w_size
      && s.strstart == v.str + len && v.ins <= s.ins
    requires v.str in s.ins || Cut(s.cuts, Base(v) + v.str, 3)
    requires t.Copy? && len <= s.config.lazy && !Cut(s.cuts, Base(v) + v.str + len - 1, 4) ==>
      forall x: nat {:trigger x in s.ins} :: v.str <= x < s.strstart ==> x in s.ins
    ensures Stocked(s.V(s.strstart + s.lookahead), KnownTo(s), s.cuts) && Deep(s.V(s.strstart + s.lookahead))
  {
    hide Stocked, Cut, Searchable, Indexed, Legal, Expand, Passed;
    var u := s.V(s.strstart + s.lookahead);
    SearchableIs(v, s.Limit(), Only(Indexed(ts, |ts|, s.Limit(), s.cuts)), s.cuts);
    PassedOn(v, u, len);
    PassedIndexed(v, u, ts, t, len, s.Limit(), s.cuts);
  }

  /** Inserts the strings of a short match, but for the first, which already is. */
  method InsertMatch(s: DeflateState, ghost end: nat)
    requires s.Shape() && Current(s.V(end), s.insert) && s.match_length >= 2
      && s.strstart + s.match_length + 3 <= end <= 2 * s.w_size
    modifies s`match_length, s`strstart, s`ins_h, s`ins, s.head, s.prev
    ensures s.match_length == 0 && s.strstart == old(s.strstart) + old(s.match_length) && Dictionary(s.V(end), s.insert)
    ensures old(s.ins) <= s.ins
    ensures forall x: nat {:trigger x in s.ins} :: old(s.strstart) < x < s.strstart ==> x in s.ins
  {
    hide *;
    ghost var target := s.strstart + s.match_length;
    s.match_length := s.match_length - 1;
    while true
      invariant s.match_length >= 1 && s.strstart + s.match_length + 1 == target && target + 3 <= end
        && Current(s.V(end), s.insert)
      invariant old(s.ins) <= s.ins
      invariant forall x: nat {:trigger x in s.ins} :: old(s.strstart) < x <= s.strstart ==> x in s.ins
      decreases s.match_length
    {
      s.MoveOn(end);
      var _ := s.InsertHere(end);
      s.match_length := s.match_length - 1;
      if s.match_length == 0 { break; }
    }
    s.MoveOn(end);
  }

  /** Skips a long match without inserting its strings. */
  method SkipMatch(s: DeflateState, ghost end: nat)
    requires s.Shape() && Current(s.V(end), s.insert) && s.insert == 0 && s.match_length > 0
    requires s.strstart + s.match_length <= end && s.strstart + s.match_length + 2 <= 2 * s.w_size
    modifies s`match_length, s`strstart, s`ins_h
    ensures s.match_length == 0 && s.strstart == old(s.strstart) + old(s.match_length) && Dictionary(s.V(end), s.insert)
  {
    hide *;
    s.ShapeIs();
    ghost var v := s.V(end);
    s.VIs(end);
    ghost var n := s.match_length;
    s.strstart := s.strstart + s.match_length;
    s.match_length := 0;
    s.ins_h := s.window[s.strstart];
    s.ins_h := Update(s.hash_bits, s.hash_shift, s.ins_h, s.window[s.strstart + 1]);
    s.VIs(end);
    JumpAhead(v, s.V(end), n);
  }

  /** Takes the match found. */
  method TakeMatch(s: DeflateState) returns (bflush: bool)
    requires Sought(s) && s.sym_next < s.sym_end
    requires 3 <= s.match_length <= s.lookahead && s.match_length <= 258
      && Matches(s.window[..], s.match_start, s.strstart, s.match_length)
    requires s.strstart - s.match_start <= MaxDist(s.w_size) && s.strstart + 262 <= 2 * s.w_size
    requires Best(s.consumed, s.Limit(), KnownTo(s), s.cuts, Base(s.V(s.strstart + s.lookahead)) + s.strstart,
                  s.strstart - s.match_start, s.match_length, s.Limit().chain)
    modifies s`match_length, s`strstart, s`lookahead, s`ins_h, s`ins, s.head, s.prev, s`sym_next, s.sym_buf
    ensures FastOk(s) && s.lookahead < old(s.lookahead) && (bflush <==> s.sym_next == s.sym_end)
  {
    hide *;
    SoughtIs(s);
    s.ShapeIs();
    s.LimitsAre();
    TokensAre(s);
    LimitIs(s);
    KnownIs(s);
    ghost var end := s.strstart + s.lookahead;
    ghost var v, ts, len := s.V(end), s.Tokens(), s.match_length;
    BaseOf(s, end);
    CurrentWhole(v, s.insert);
    s.CurrentWindowed(v, s.insert);
    s.VIs(end);
    SearchableIs(v, s.Limit(), KnownTo(s), s.cuts);
    MatchSize(s.window[..], s.match_start, s.strstart, len);
    ghost var t := Copy(s.strstart - s.match_start, len);
    s.MatchCodes(ts, end, s.match_start, s.strstart, len);
    FastCopy(ts, s.strstart - s.match_start, len, s.consumed, Base(v) + s.strstart, s.Limit(), s.cuts);
    CodesIs(ts, s.consumed, Base(v) + s.strstart, MaxDist(s.w_size));
    if s.lookahead - len < 3 { CutBehind(v, s.Limit(), KnownTo(s), s.cuts, len); }
    bflush := s.TallyDist(s.strstart - s.match_start, s.match_length - 3);
    s.lookahead := s.lookahead - s.match_length;
    s.VIs(end);
    if s.match_length <= s.config.lazy && s.lookahead >= 3 {
      InsertMatch(s, end);
    } else {
      SkipMatch(s, end);
    }
    s.VIs(end);
    assert s.Tokens() == ts + [t];
    StockedNext(s, v, ts, t, len);
    TokensAre(s);
    FastIs(s);
  }

  /** Takes a literal. */
  method TakeLiteral(s: DeflateState) returns (bflush: bool)
    requires Sought(s) && s.sym_next < s.sym_end && s.match_length < 3 && s.lookahead > 0
    requires NoneInReach(s.consumed, s.Limit(), KnownTo(s), s.cuts, Base(s.V(s.strstart + s.lookahead)) + s.strstart, 3,
                         s.Limit().chain)
    modifies s`strstart, s`lookahead, s`sym_next, s.sym_buf
    ensures FastOk(s) && s.lookahead == old(s.lookahead) - 1 && (bflush <==> s.sym_next == s.sym_end)
  {
    hide *;
    SoughtIs(s);
    s.ShapeIs();
    TokensAre(s);
    LimitIs(s);
    KnownIs(s);
    ghost var end := s.strstart + s.lookahead;
    ghost var v, ts := s.V(end), s.Tokens();
    BaseOf(s, end);
    s.CurrentWindowed(v, s.insert);
    s.VIs(end);
    SearchableIs(v, s.Limit(), KnownTo(s), s.cuts);
    ghost var t := Literal(s.window[s.strstart]);
    s.LiteralCodes(ts, end, s.strstart);
    FastLiteral(ts, t, s.consumed, Base(v) + s.strstart, s.Limit(), s.cuts);
    CodesIs(ts, s.consumed, Base(v) + s.strstart, MaxDist(s.w_size));
    if s.lookahead < 3 { CutShort(v, s.Limit(), KnownTo(s), s.cuts); }
    bflush := s.TallyLit(s.window[s.strstart]);
    s.VIs(end);
    s.MoveOn(end);
    s.lookahead := s.lookahead - 1;
    s.VIs(end);
    assert s.Tokens() == ts + [t];
    StockedNext(s, v, ts, t, 1);
    TokensAre(s);
    FastIs(s);
  }

  method FlushTokens(s: DeflateState, strm: ZStream)
    requires s.Shape() && TokensOk(s)
    modifies s`sym_next, s`flushed, strm`avail_out
    ensures TokensOk(s) && s.sym_next == 0 && s.Tokens() == old(s.Tokens())
    ensures strm.avail_out <= old(strm.avail_out)
    ensures old(s.sym_next) > 0 ==> Spent(old(s.flushed), old(strm.avail_out), s.flushed, strm.avail_out)
  {
    hide *;
    TokensAre(s);
    s.FlushBlock(strm);
    TokensAre(s);
  }

  /** More input, the tokens still stand for the same. */
  method FillForTokens(s: DeflateState, strm: ZStream)
    requires s.Shape() && Slack(s.V(s.strstart + s.lookahead), s.insert) && s.match_start < 0x1_0000_0000
      && s.lookahead < 262 && TokensOk(s)
    modifies s`strstart, s`lookahead, s`insert, s`match_start, s`ins_h, s`high_water, s`consumed, s`ins
    modifies s.window, s.head, s.prev, strm`next_in
    ensures Slack(s.V(s.strstart + s.lookahead), s.insert) && TokensOk(s) && s.match_start < 0x1_0000_0000
    ensures Dictionary(old(s.V(s.strstart + s.lookahead)), old(s.insert)) ==>
      Dictionary(s.V(s.strstart + s.lookahead), s.insert)
    ensures U32(s.strstart - s.match_start) == U32(old(s.strstart) - old(s.match_start))
    ensures s.strstart + 262 <= 2 * s.w_size && (old(s.strstart) >= 1 ==> s.strstart >= 1)
    ensures s.lookahead >= 262 || strm.next_in == []
    ensures old(s.lookahead) <= s.lookahead <= old(s.lookahead) + |old(strm.next_in)|
    ensures s.lookahead + |strm.next_in| == old(s.lookahead) + |old(strm.next_in)|
    ensures Fed(old(strm.next_in), old(s.consumed), strm.next_in, s.consumed)
    ensures s.Tokens() == old(s.Tokens()) && |s.consumed| - s.lookahead == old(|s.consumed| - s.lookahead)
    ensures old(s.consumed) <= s.consumed
    ensures Carried(old(s.V(s.strstart + s.lookahead)), s.V(s.strstart + s.lookahead))
  {
    hide *;
    s.ShapeIs();
    TokensAre(s);
    ghost var ts, data, d := s.Tokens(), s.consumed, |s.consumed| - s.lookahead;
    ghost var input := strm.next_in;
    s.FillWindow(strm);
    CodesMore(ts, data, input[..s.lookahead - old(s.lookahead)], d, MaxDist(s.w_size));
    assert s.Tokens() == ts;
    TokensAre(s);
    FedBy(input, data, s.lookahead - old(s.lookahead));
  }

  /** rest is what is left of the input, now the data with what was taken from it. */
  ghost predicate Fed(input: seq<byte>, data: seq<byte>, rest: seq<byte>, now: seq<byte>) {
    |rest| <= |input| && rest == input[|input| - |rest|..] && now == data + input[..|input| - |rest|]
  }

  lemma {:induction false} FedBy(input: seq<byte>, data: seq<byte>, n: nat)
    requires n <= |input|
    ensures Fed(input, data, input[n..], data + input[..n])
  {
  }

  lemma {:induction false} FedNone(input: seq<byte>, data: seq<byte>)
    ensures Fed(input, data, input, data)
  {
  }

  lemma {:induction false} FedMore(input: seq<byte>, data: seq<byte>, rest: seq<byte>, now: seq<byte>,
                                   rest': seq<byte>, now': seq<byte>)
    requires Fed(input, data, rest, now) && Fed(rest, now, rest', now')
    ensures Fed(input, data, rest', now')
  {
    var n, m := |input| - |rest|, |rest| - |rest'|;
    assert input[n..][m..] == input[n + m..];
    assert input[..n] + input[n..][..m] == input[..n + m];
    assert data + input[..n] + input[n..][..m] == data + (input[..n] + input[n..][..m]);
  }

  /** A cut is made only where a flush finds no more input. */
  ghost predicate CutsBy(cuts0: set<nat>, cuts: set<nat>, flush: Flush, n: nat, rest: seq<byte>) {
    cuts == cuts0 || (flush != NO_FLUSH && rest == [] && cuts == cuts0 + {n})
  }

  lemma {:induction false} NoCutYet(cuts: set<nat>, flush: Flush, n: nat, rest: seq<byte>)
    ensures CutsBy(cuts, cuts, flush, n, rest)
  {
  }

  /** More input, or a cut at its end. */
  lemma {:induction false} CutsStep(cuts0: set<nat>, cuts: set<nat>, cuts': set<nat>, flush: Flush, input: seq<byte>,
                                    data: seq<byte>, rest: seq<byte>, now: seq<byte>)
    requires CutsBy(cuts0, cuts, flush, |data|, input) && Fed(input, data, rest, now)
      && CutsBy(cuts, cuts', flush, |now|, rest)
    ensures CutsBy(cuts0, cuts', flush, |now|, rest)
  {
  }

  lemma {:induction false} CutMade(cuts: set<nat>, flush: Flush, n: nat, rest: seq<byte>)
    requires flush != NO_FLUSH && rest == []
    ensures CutsBy(cuts, cuts + {n}, flush, n, rest)
  {
  }

  lemma {:induction false} CutsWithin(cuts0: set<nat>, cuts: set<nat>, flush: Flush, n: nat, rest: seq<byte>)
    requires CutsBy(cuts0, cuts, flush, n, rest)
    ensures cuts0 <= cuts <= cuts0 + if flush == NO_FLUSH then {} else {n}
  {
  }

  /** The string between the loop and its end: s->insert. */
  method EndLoop(s: DeflateState)
    requires s.Shape() && Dictionary(s.V(s.strstart + s.lookahead), s.insert) && s.lookahead == 0
    modifies s`insert
    ensures Dictionary(s.V(s.strstart + s.lookahead), s.insert)
  {
    hide *;
    s.VIs(s.strstart);
    ghost var v := s.V(s.strstart);
    DictionarySlack(v, s.insert);
    EndBelow(v, s.insert, if s.strstart < 2 then s.strstart else 2);
    s.insert := if s.strstart < 2 then s.strstart else 2;
    s.VIs(s.strstart);
  }

  lemma {:induction false} EndBelow(v: View, insert: nat, insert': nat)
    requires Slack(v, insert) && v.str == v.end && insert' <= v.str && insert' <= 2
    ensures Dictionary(v, insert')
  {
    hide Heads, Links;
  }

  /** The part after the loop. */
  method FinishCall(s: DeflateState, strm: ZStream, flush: Flush) returns (r: BlockState)
    requires s.Shape() && TokensOk(s) && flush != NO_FLUSH
    modifies s`sym_next, s`flushed, strm`avail_out
    ensures TokensOk(s) && s.Tokens() == old(s.Tokens()) && (r == BLOCK_DONE || r == FINISH_DONE ==> s.sym_next == 0)
    ensures s.sym_next == 0 || s.sym_next == old(s.sym_next)
    ensures flush == FINISH ==> r == if strm.avail_out == 0 then FINISH_STARTED else FINISH_DONE
    ensures flush != FINISH ==> r == BLOCK_DONE || (r == NEED_MORE && strm.avail_out == 0)
    ensures s.sym_next == 0 && strm.avail_out <= old(strm.avail_out)
    ensures flush != FINISH ==> Spent(old(s.flushed), old(strm.avail_out), s.flushed, strm.avail_out)
  {
    if flush == FINISH {
      FlushTokens(s, strm);
      if strm.avail_out == 0 { return FINISH_STARTED; }
      return FINISH_DONE;
    }
    if s.sym_next != 0 {
      FlushTokens(s, strm);
      if strm.avail_out == 0 { return NEED_MORE; }
    }
    SpentNone(s.flushed, strm.avail_out);
    r := BLOCK_DONE;
  }

  /**
   * deflate_fast. Whatever it returns, the tokens stand for exactly the input before the lookahead; a block is done
   * only when all input is consumed and no token is left in the buffer.
   */
  method DeflateFast(s: DeflateState, strm: ZStream, flush: Flush) returns (r: BlockState)
    requires FastOk(s) && s.sym_next < s.sym_end
    modifies s, s.window, s.head, s.prev, s.sym_buf, strm
    ensures FastOk(s) && s.sym_next < s.sym_end
    ensures Fed(old(strm.next_in), old(s.consumed), strm.next_in, s.consumed)
    ensures r == NEED_MORE ==>
      strm.avail_out == 0 || (flush == NO_FLUSH && strm.next_in == [] && s.lookahead < 262)
    ensures r != NEED_MORE ==> Expand(s.flushed, |s.flushed|) == s.consumed && strm.next_in == [] && s.lookahead == 0
    ensures r == BLOCK_DONE ==> flush == SOME_FLUSH
    ensures r == FINISH_STARTED ==> flush == FINISH && strm.avail_out == 0
    ensures r == FINISH_DONE ==> flush == FINISH && strm.avail_out > 0
    ensures Parsed(Fast, s.Tokens(), s.consumed, s.Limit(), s.cuts)
    ensures old(s.cuts) <= s.cuts <= old(s.cuts) + if flush == NO_FLUSH then {} else {|s.consumed|}
    ensures strm.avail_out <= old(strm.avail_out) && (flush != FINISH || r == NEED_MORE ==>
      Spent(old(s.flushed), old(strm.avail_out), s.flushed, strm.avail_out))
  {
    hide *;
    ghost var input, data := strm.next_in, s.consumed;
    ghost var out, room := s.flushed, strm.avail_out;
    FedNone(input, data);
    SpentNone(out, room);
    NoCutYet(s.cuts, flush, |s.consumed|, strm.next_in);
    while true
      invariant FastOk(s) && s.sym_next < s.sym_end && Fed(input, data, strm.next_in, s.consumed)
      invariant strm.avail_out <= room && Spent(out, room, s.flushed, strm.avail_out)
      invariant CutsBy(old(s.cuts), s.cuts, flush, |s.consumed|, strm.next_in)
      decreases |strm.next_in| + s.lookahead
    {
      ghost var rest, now, cuts := strm.next_in, s.consumed, s.cuts;
      var enough := FeedFast(s, strm, flush);
      FedMore(input, data, rest, now, strm.next_in, s.consumed);
      CutsStep(old(s.cuts), cuts, s.cuts, flush, rest, now, strm.next_in, s.consumed);
      CutsWithin(old(s.cuts), s.cuts, flush, |s.consumed|, strm.next_in);
      FastIs(s);
      if !enough { return NEED_MORE; }
      if s.lookahead == 0 { break; }
      var bflush := FastTurn(s);
      FastIs(s);
      s.ShapeIs();
      if bflush {
        ghost var out1, room1 := s.flushed, strm.avail_out;
        FlushForFast(s, strm);
        SpentMore(out, room, out1, room1, s.flushed, strm.avail_out);
        FastIs(s);
        if strm.avail_out == 0 { return NEED_MORE; }
      }
    }
    ghost var out1, room1 := s.flushed, strm.avail_out;
    CutsWithin(old(s.cuts), s.cuts, flush, |s.consumed|, strm.next_in);
    r := FastEnd(s, strm, flush);
    FastIs(s);
    if flush != FINISH { SpentMore(out, room, out1, room1, s.flushed, strm.avail_out); }
    FlushKinds(flush);
  }

  method FastEnd(s: DeflateState, strm: ZStream, flush: Flush) returns (r: BlockState)
    requires FastOk(s) && s.lookahead == 0 && flush != NO_FLUSH
    modifies s`insert, s`sym_next, s`flushed, strm`avail_out
    ensures FastOk(s) && s.sym_next == 0 && s.sym_next < s.sym_end && Expand(s.flushed, |s.flushed|) == s.consumed
    ensures s.lookahead == 0 && strm.avail_out <= old(strm.avail_out)
    ensures flush != FINISH ==> Spent(old(s.flushed), old(strm.avail_out), s.flushed, strm.avail_out)
    ensures flush == FINISH ==> r == if strm.avail_out == 0 then FINISH_STARTED else FINISH_DONE
    ensures flush != FINISH ==> r == BLOCK_DONE || (r == NEED_MORE && strm.avail_out == 0)
  {
    hide *;
    FastIs(s);
    s.ShapeIs();
    KnownIs(s);
    EndLoop(s);
    r := FinishCall(s, strm, flush);
    KnownIs(s);
    FastIs(s);
    AllCoded(s);
  }

  lemma {:induction false} FlushKinds(flush: Flush)
    ensures flush == NO_FLUSH || flush == SOME_FLUSH || flush == FINISH
  {
  }

  method FillForFast(s: DeflateState, strm: ZStream)
    requires FastOk(s) && s.lookahead < 262
    modifies s`strstart, s`lookahead, s`insert, s`match_start, s`ins_h, s`high_water, s`consumed, s`ins
    modifies s.window, s.head, s.prev, strm`next_in
    ensures FastOk(s) && s.strstart + 262 <= 2 * s.w_size && (s.lookahead >= 262 || strm.next_in == [])
    ensures s.lookahead + |strm.next_in| == old(s.lookahead) + |old(strm.next_in)|
    ensures Fed(old(strm.next_in), old(s.consumed), strm.next_in, s.consumed)
  {
    hide *;
    FastIs(s);
    KnownIs(s);
    ghost var ts, data, v, known := s.Tokens(), s.consumed, s.V(s.strstart + s.lookahead), KnownTo(s);
    DictionarySlack(v, s.insert);
    s.CurrentWindowed(v, s.insert);
    BaseOf(s, s.strstart + s.lookahead);
    s.VIs(s.strstart + s.lookahead);
    FillForTokens(s, strm);
    KnownIs(s);
    CarriedStocked(v, s.V(s.strstart + s.lookahead), known, s.cuts);
    MoreParsed(Fast, ts, data, s.consumed[|data|..], s.Limit(), s.cuts, s.cuts);
    assert data + s.consumed[|data|..] == s.consumed;
    FastIs(s);
  }

  /** The input ends here for the time being. */
  ghost method CutFast(s: DeflateState)
    requires FastOk(s)
    modifies s`cuts
    ensures FastOk(s) && s.cuts == old(s.cuts) + {|s.consumed|}
  {
    hide *;
    FastIs(s);
    KnownIs(s);
    ghost var cuts, known, ts := s.cuts, KnownTo(s), s.Tokens();
    s.cuts := s.cuts + {|s.consumed|};
    KnownIs(s);
    MoreParsed(Fast, ts, s.consumed, [], s.Limit(), cuts, s.cuts);
    assert s.consumed + [] == s.consumed;
    MoreIndexed(ts, |ts|, s.Limit(), cuts, s.cuts);
    FewerPlaces(Indexed(ts, |ts|, s.Limit(), cuts), Indexed(ts, |ts|, s.Limit(), s.cuts));
    StockedCuts(s.V(s.strstart + s.lookahead), known, KnownTo(s), cuts, s.cuts);
    TokensAre(s);
    s.VIs(s.strstart + s.lookahead);
    FastIs(s);
  }

  lemma {:induction false} FewerPlaces(a: set<nat>, b: set<nat>)
    requires b <= a
    ensures Fewer(Only(a), Only(b))
  {
  }

  /** The input that a turn needs, or all there is; a cut is made where a flush finds no more. */
  method FeedFast(s: DeflateState, strm: ZStream, flush: Flush) returns (enough: bool)
    requires FastOk(s)
    modifies s`strstart, s`lookahead, s`insert, s`match_start, s`ins_h, s`high_water, s`consumed, s`ins, s`cuts
    modifies s.window, s.head, s.prev, strm`next_in
    ensures FastOk(s) && s.lookahead + |strm.next_in| == old(s.lookahead) + |old(strm.next_in)|
    ensures Fed(old(strm.next_in), old(s.consumed), strm.next_in, s.consumed)
    ensures CutsBy(old(s.cuts), s.cuts, flush, |s.consumed|, strm.next_in)
    ensures enough ==> EndCut(s, 262) && s.strstart + 262 <= 2 * s.w_size && (s.lookahead == 0 ==> strm.next_in == [])
    ensures enough && s.lookahead == 0 ==> flush != NO_FLUSH
    ensures !enough ==> flush == NO_FLUSH && strm.next_in == [] && s.lookahead < 262
  {
    hide *;
    enough := true;
    FedNone(strm.next_in, s.consumed);
    NoCutYet(s.cuts, flush, |s.consumed|, strm.next_in);
    FastIs(s);
    s.CurrentWindowed(s.V(s.strstart + s.lookahead), s.insert);
    s.VIs(s.strstart + s.lookahead);
    if s.lookahead < 262 {
      FillForFast(s, strm);
      NoCutYet(s.cuts, flush, |s.consumed|, strm.next_in);
      if s.lookahead < 262 && flush == NO_FLUSH { return false; }
      if s.lookahead < 262 {
        CutMade(s.cuts, flush, |s.consumed|, strm.next_in);
        CutFast(s);
      }
    }
    EndCutIs(s, 262);
  }

  lemma {:induction false} AllCoded(s: DeflateState)
    requires TokensOk(s) && s.sym_next == 0 && s.lookahead == 0
    ensures Expand(s.flushed, |s.flushed|) == s.consumed
  {
    assert TokensIn(s.sym_buf[..], 0) == [];
    assert s.Tokens() == s.flushed;
    assert s.consumed[..|s.consumed|] == s.consumed;
  }

  method FlushForFast(s: DeflateState, strm: ZStream)
    requires FastOk(s)
    modifies s`sym_next, s`flushed, strm`avail_out
    ensures FastOk(s) && s.sym_next == 0 && strm.avail_out <= old(strm.avail_out)
    ensures old(s.sym_next) > 0 ==> Spent(old(s.flushed), old(strm.avail_out), s.flushed, strm.avail_out)
  {
    hide *;
    FastIs(s);
    KnownIs(s);
    FlushTokens(s, strm);
    KnownIs(s);
    FastIs(s);
  }

  /** One turn of the loop, once there is enough lookahead. */
  method FastTurn(s: DeflateState) returns (bflush: bool)
    requires FastOk(s) && s.sym_next < s.sym_end && s.lookahead > 0 && s.strstart + 262 <= 2 * s.w_size
      && EndCut(s, 262)
    modifies s`match_length, s`match_start, s`strstart, s`lookahead, s`ins_h, s`ins, s.head, s.prev, s`sym_next,
      s.sym_buf
    ensures FastOk(s) && s.lookahead < old(s.lookahead) && s.sym_next <= s.sym_end
      && (bflush <==> s.sym_next == s.sym_end)
  {
    hide *;
    FastIs(s);
    s.ShapeIs();
    TokensAre(s);
    EndCutIs(s, 262);
    FindMatch(s);
    TokensAre(s);
    EndCutIs(s, 262);
    KnownIs(s);
    SoughtIs(s);
    if s.match_length >= 3 {
      bflush := TakeMatch(s);
    } else {
      bflush := TakeLiteral(s);
    }
    FastIs(s);
    BufferedIs(s);
  }

  lemma {:induction false} BufferedIs(s: DeflateState)
    requires TokensOk(s)
    ensures s.sym_next <= s.sym_end
  {
  }
}
