/** deflate_slow: a match is taken only if there is no better one at the next position. */
module DeflateSlow {
  import opened Bytes
  import opened Lz77
  import opened HashChains
  import opened Parsing
  import opened WindowSearch
  import opened Deflate
  import opened DeflateFast

  /** The tokens stand for the input before strstart, but for one byte if a decision is pending. */
  ghost predicate SlowTokens(s: DeflateState)
    reads s`flushed, s`sym_next, s`consumed, s`lookahead, s`match_available, s.sym_buf
  {
    s.Buffered() && Codes(s.Tokens(), s.consumed, s.Done() - if s.match_available then 1 else 0, MaxDist(s.w_size))
  }

  lemma {:induction false} SlowTokensAre(s: DeflateState)
    ensures SlowTokens(s) <==>
      s.Buffered()
        && Codes(s.Tokens(), s.consumed, |s.consumed| - s.lookahead - if s.match_available then 1
                 else 0, MaxDist(s.w_size))
  {
  }

  /** What is known of the position before strstart while a decision is pending. */
  ghost predicate Pending(data: seq<byte>, p: Limits, cuts: set<nat>, n: int, dist: nat, len: nat) {
    && 0 <= n
    && if len < 3 then NothingUseful(data, p, cuts, n) else Best(data, p, All, cuts, n, dist, len, p.chain / 4)
  }

  /** Between two turns of deflate_slow. */
  ghost predicate SlowOk(s: DeflateState)
    reads s, s.window, s.head, s.prev, s.sym_buf
  {
    && s.Shape() && Dictionary(s.V(s.strstart + s.lookahead), s.insert) && SlowTokens(s)
       && s.match_start < 0x1_0000_0000
    && (s.match_available ==> s.strstart >= 1) && 2 <= s.match_length
    && (s.match_length >= 3 ==> s.match_available && s.match_length <= s.lookahead + 1)
    && Parsed(Slow, s.Tokens(), s.consumed, s.Limit(), s.cuts)
    && Stocked(s.V(s.strstart + s.lookahead), All, s.cuts) && Deep(s.V(s.strstart + s.lookahead))
    && (s.match_available ==>
        Pending(s.consumed, s.Limit(), s.cuts, |s.consumed| - s.lookahead - 1, U32(s.strstart - 1 - s.match_start),
                s.match_length))
  }

  lemma {:induction false} SlowIs(s: DeflateState)
    ensures SlowOk(s) <==>
      && s.Shape() && Dictionary(s.V(s.strstart + s.lookahead), s.insert) && SlowTokens(s)
         && s.match_start < 0x1_0000_0000
      && (s.match_available ==> s.strstart >= 1) && 2 <= s.match_length
      && (s.match_length >= 3 ==> s.match_available && s.match_length <= s.lookahead + 1)
      && Parsed(Slow, s.Tokens(), s.consumed, s.Limit(), s.cuts)
      && Stocked(s.V(s.strstart + s.lookahead), All, s.cuts) && Deep(s.V(s.strstart + s.lookahead))
      && (s.match_available ==>
          Pending(s.consumed, s.Limit(), s.cuts, |s.consumed| - s.lookahead - 1, U32(s.strstart - 1 - s.match_start),
                  s.match_length))
  {
  }

  /** A previous match is pending, a current one has been looked for. */
  ghost predicate Deciding(s: DeflateState)
    reads s, s.window, s.head, s.prev, s.sym_buf
  {
    && s.Shape() && Current(s.V(s.strstart + s.lookahead), s.insert) && SlowTokens(s) && s.match_start < 0x1_0000_0000
    && (s.match_available ==> s.strstart >= 1) && 2 <= s.match_length && 2 <= s.prev_length
    && (s.prev_length >= 3 ==> s.match_available && s.prev_length <= s.lookahead + 1)
    && (s.match_length > s.prev_length ==> s.match_length <= s.lookahead)
    && Parsed(Slow, s.Tokens(), s.consumed, s.Limit(), s.cuts)
    && Searchable(s.V(s.strstart + s.lookahead), s.Limit(), All, s.cuts) && (s.strstart in s.ins || s.lookahead < 3)
    && (s.match_available ==>
        Pending(s.consumed, s.Limit(), s.cuts, |s.consumed| - s.lookahead - 1, U32(s.strstart - 1 - s.prev_match),
                s.prev_length))
    && Chosen(s.consumed, s.Limit(), s.cuts, |s.consumed| - s.lookahead, U32(s.strstart - s.match_start),
              s.match_length,
              s.prev_length)
  }

  lemma {:induction false} DecidingIs(s: DeflateState)
    ensures Deciding(s) <==>
      && s.Shape() && Current(s.V(s.strstart + s.lookahead), s.insert) && SlowTokens(s) && s.match_start < 0x1_0000_0000
      && (s.match_available ==> s.strstart >= 1) && 2 <= s.match_length && 2 <= s.prev_length
      && (s.prev_length >= 3 ==> s.match_available && s.prev_length <= s.lookahead + 1)
      && (s.match_length > s.prev_length ==> s.match_length <= s.lookahead)
      && Parsed(Slow, s.Tokens(), s.consumed, s.Limit(), s.cuts)
      && Searchable(s.V(s.strstart + s.lookahead), s.Limit(), All, s.cuts) && (s.strstart in s.ins || s.lookahead < 3)
      && (s.match_available ==>
          Pending(s.consumed, s.Limit(), s.cuts, |s.consumed| - s.lookahead - 1, U32(s.strstart - 1 - s.prev_match),
                  s.prev_length))
      && Chosen(s.consumed, s.Limit(), s.cuts, |s.consumed| - s.lookahead, U32(s.strstart - s.match_start),
                s.match_length, s.prev_length)
  {
  }

  lemma {:induction false} PendingIs(data: seq<byte>, p: Limits, cuts: set<nat>, n: int, dist: nat, len: nat)
    ensures Pending(data, p, cuts, n, dist, len) <==>
      0 <= n && if len < 3 then NothingUseful(data, p, cuts, n) else Best(data, p, All, cuts, n, dist, len, p.chain / 4)
  {
  }

  lemma {:induction false} BestIs(data: seq<byte>, p: Limits, cuts: set<nat>, n: nat, dist: nat, len: nat)
    requires Best(data, p, All, cuts, n, dist, len, p.chain / 4)
    ensures 3 <= len <= 258 && dist <= p.maxDist && Repeats(data, n, dist, len)
  {
  }

  lemma {:induction false} SmallWrap(x: int)
    requires 0 <= x < 0x1_0000_0000
    ensures U32(x) == x
  {
  }

  lemma {:induction false} TooFarIs()
    ensures TOO_FAR == 4096
  {
  }

  // ----- the choice

  lemma {:induction false} OutcomeOf(s: DeflateState, end: nat, len: nat)
    requires 4 <= s.config.chain && 8 <= s.config.nice && 4 <= s.config.good && end == s.strstart + s.lookahead
      && s.lookahead >= 3
    requires 2 <= s.prev_length <= 258 && len <= s.lookahead && len <= 258
      && (len >= s.prev_length || len == s.lookahead)
    requires s.Found(end, len, s.ChainLength(), s.NiceMatch())
    ensures Outcome(s.V(end), s.match_start, len, s.prev_length, s.ChainLength(), s.NiceMatch())
    ensures s.ChainLength() >= s.Limit().chain / 4 && (s.prev_length < 3 ==> s.ChainLength() == s.Limit().chain)
    ensures s.Limit().nice >= 8 && s.NiceMatch() ==
      if s.Limit().nice > s.V(end).end - s.V(end).str then s.V(end).end - s.V(end).str else s.Limit().nice
  {
    hide Exhausted, NoneFrom, Matches;
  }

  lemma {:induction false} OutcomeStart(v: View, start: nat, len: nat, prev: nat, chain: nat, nice: nat)
    requires Outcome(v, start, len, prev, chain, nice) && len > prev
    ensures start < v.str
  {
    hide Matches, Exhausted, NoneFrom;
  }

  lemma {:induction false} DroppedIs(p: Limits, len: nat, dist: int)
    ensures Dropped(p, len, dist) <==> len <= 5 && (p.filtered || (len == 3 && dist > 4096))
  {
  }

  /** What the search found, and what is left of it. */
  lemma {:induction false} Choose(v: View, p: Limits, cuts: set<nat>, start: nat, len: nat, prev: nat, chain: nat,
                                  nice: nat, final: nat)
    requires Searchable(v, p, All, cuts) && v.end - v.str >= 3 && Outcome(v, start, len, prev, chain, nice)
      && v.str <= 65536
    requires chain >= p.chain / 4 && (prev < 3 ==> chain == p.chain) && p.nice >= 8
      && nice == if p.nice > v.end - v.str then v.end - v.str else p.nice
    requires final == if len <= 5 && (p.filtered || (len == 3 && U32(v.str - start) > 4096)) then 2 else len
    ensures 2 <= final <= len <= v.end - v.str
    ensures Base(v) >= 0 && Chosen(v.data, p, cuts, Base(v) + v.str, U32(v.str - start), final, prev)
  {
    hide Searchable, Chosen, Outcome, Dropped, U32;
    OutcomeSize(v, start, len, prev, chain, nice);
    var dist := U32(v.str - start);
    if len <= prev {
      ChooseOld(v, p, cuts, start, len, prev, chain, nice, dist, final);
    } else {
      OutcomeStart(v, start, len, prev, chain, nice);
      SmallWrap(v.str - start);
      DroppedIs(p, len, v.str - start);
      if Dropped(p, len, v.str - start) {
        ChooseNone(v, p, cuts, start, len, prev, chain, nice, dist);
      } else {
        ChooseNew(v, p, cuts, start, len, prev, chain, nice);
      }
    }
  }

  lemma {:induction false} OutcomeSize(v: View, start: int, len: nat, prev: nat, chain: nat, nice: nat)
    requires Outcome(v, start, len, prev, chain, nice) && v.end - v.str >= 3
    ensures 2 <= prev <= 258 && 2 <= len <= v.end - v.str && len <= 258
  {
    hide Matches, Exhausted, NoneFrom;
  }

  /** Looks for a match longer than the previous one. */
  method TryBetter(s: DeflateState, hash_head: nat, ghost end: nat)
    requires s.Shape() && Windowed(s.V(end)) && Chains(s.V(end), s.strstart + 1)
      && Candidate(s.V(end), hash_head, s.strstart)
    requires Latest(s.V(end), KeyAt(s.V(end), s.strstart), hash_head, s.strstart)
      && Searchable(s.V(end), s.Limit(), All, s.cuts)
    requires s.strstart - hash_head <= MaxDist(s.w_size) && s.strstart + 262 <= 2 * s.w_size && 3 <= s.lookahead
      && end == s.strstart + s.lookahead
    requires 2 <= s.prev_length <= 258 && s.match_start < 0x1_0000_0000
    modifies s`match_length, s`match_start
    ensures s.match_start < 0x1_0000_0000 && 2 <= s.match_length <= s.lookahead
    ensures Chosen(s.consumed, s.Limit(), s.cuts, |s.consumed| - s.lookahead, U32(s.strstart - s.match_start),
                   s.match_length, s.prev_length)
  {
    hide *;
    s.ShapeIs();
    LimitIs(s);
    BaseOf(s, end);
    s.match_length := s.LongestMatch(hash_head, end);
    s.VIs(end);
    ghost var len := s.match_length;
    OutcomeOf(s, end, len);
    TooFarIs();
    if s.match_length <= 5 && (s.filtered || (s.match_length == 3 && U32(s.strstart - s.match_start) > TOO_FAR)) {
      s.match_length := 2;
    }
    Choose(s.V(end), s.Limit(), s.cuts, s.match_start, len, s.prev_length, s.ChainLength(), s.NiceMatch(),
           s.match_length);
  }

  lemma {:induction false} PendingSize(data: seq<byte>, p: Limits, cuts: set<nat>, n: int, dist: nat, len: nat)
    requires Pending(data, p, cuts, n, dist, len)
    ensures len <= 258
  {
    hide NothingUseful;
  }

  /** Inserts the current string, which can then be searched for. */
  method InsertFirst(s: DeflateState) returns (hash_head: nat)
    requires SlowOk(s) && s.lookahead > 0 && EndCut(s, 262)
    modifies s`ins_h, s`ins, s.head, s.prev
    ensures Current(s.V(s.strstart + s.lookahead), s.insert) && s.match_length <= 258
    ensures Searchable(s.V(s.strstart + s.lookahead), s.Limit(), All, s.cuts)
      && (s.strstart in s.ins || s.lookahead < 3)
    ensures hash_head != 0 ==> s.lookahead >= 3 && Candidate(s.V(s.strstart + s.lookahead), hash_head, s.strstart)
    ensures s.lookahead >= 3 ==>
      Latest(s.V(s.strstart + s.lookahead), KeyAt(s.V(s.strstart + s.lookahead), s.strstart), hash_head, s.strstart)
  {
    hide *;
    SlowIs(s);
    s.ShapeIs();
    EndedIs(s);
    s.NilIs();
    ghost var end := s.strstart + s.lookahead;
    ghost var v := s.V(end);
    s.VIs(end);
    s.CurrentWindowed(v, s.insert);
    if s.match_available {
      PendingSize(s.consumed, s.Limit(), s.cuts, |s.consumed| - s.lookahead - 1, U32(s.strstart - 1 - s.match_start),
                  s.match_length);
    }
    hash_head := s.InsertIfLong();
    s.VIs(end);
    EndedIs(s);
    CanSearch(v, s.V(end), s.insert, s.Limit(), All, s.cuts);
  }

  /** Looks for a match if there is a candidate and the previous match is not long enough. */
  method Seek(s: DeflateState, hash_head: nat)
    requires s.Shape() && Current(s.V(s.strstart + s.lookahead), s.insert) && s.strstart + 262 <= 2 * s.w_size
    requires Searchable(s.V(s.strstart + s.lookahead), s.Limit(), All, s.cuts)
    requires hash_head != 0 ==> s.lookahead >= 3 && Candidate(s.V(s.strstart + s.lookahead), hash_head, s.strstart)
    requires s.lookahead >= 3 ==>
      Latest(s.V(s.strstart + s.lookahead), KeyAt(s.V(s.strstart + s.lookahead), s.strstart), hash_head, s.strstart)
    requires 2 <= s.prev_length <= 258 && s.match_length == 2 && s.match_start < 0x1_0000_0000
    modifies s`match_length, s`match_start
    ensures s.match_start < 0x1_0000_0000 && 2 <= s.match_length
      && (s.match_length > s.prev_length ==> s.match_length <= s.lookahead)
    ensures Chosen(s.consumed, s.Limit(), s.cuts, |s.consumed| - s.lookahead, U32(s.strstart - s.match_start),
                   s.match_length, s.prev_length)
  {
    hide *;
    s.ShapeIs();
    s.LimitsAre();
    LimitIs(s);
    s.NilIs();
    ghost var end := s.strstart + s.lookahead;
    ghost var u := s.V(end);
    CurrentWhole(u, s.insert);
    BaseOf(s, end);
    s.CurrentWindowed(u, s.insert);
    s.VIs(end);
    if hash_head != 0 && s.prev_length < s.config.lazy && s.strstart - hash_head <= s.w_size - 262 {
      CandidateBelow(u, hash_head, s.strstart);
      TryBetter(s, hash_head, end);
    } else {
      ChooseUnsearched(u, s.Limit(), s.cuts, hash_head, s.prev_length, U32(s.strstart - s.match_start));
    }
  }

  /** Inserts the current string and looks for a match longer than the previous one. */
  method FindBetter(s: DeflateState)
    requires SlowOk(s) && s.lookahead > 0 && s.strstart + 262 <= 2 * s.w_size && EndCut(s, 262)
    modifies s`match_length, s`match_start, s`prev_length, s`prev_match, s`ins_h, s`ins, s.head, s.prev
    ensures Deciding(s) && s.lookahead == old(s.lookahead) && s.sym_next == old(s.sym_next)
  {
    hide *;
    SlowIs(s);
    SlowTokensAre(s);
    s.ShapeIs();
    ghost var end := s.strstart + s.lookahead;
    var hash_head := InsertFirst(s);
    s.VIs(end);
    s.prev_length, s.prev_match := s.match_length, s.match_start;
    s.match_length := 2;
    s.VIs(end);
    Seek(s, hash_head);
    s.VIs(end);
    SlowTokensAre(s);
    DecidingIs(s);
  }

  // ----- the tokens

  lemma {:induction false} SlowCopy(ts: seq<Token>, dist: nat, len: nat, data: seq<byte>, n: nat, p: Limits,
                                    cuts: set<nat>)
    requires Codes(ts, data, n, p.maxDist) && Parsed(Slow, ts, data, p, cuts)
    requires Best(data, p, All, cuts, n, dist, len, p.chain / 4) && NoBetter(data, p, cuts, n + 1, len)
    ensures Parsed(Slow, ts + [Copy(dist, len)], data, p, cuts)
  {
    hide Codes, Best, NoBetter, Parsed;
    NewPosition(ts, Copy(dist, len), data, n, p.maxDist);
    ParsedNext(Slow, ts, Copy(dist, len), data, p, cuts);
  }

  lemma {:induction false} SlowLiteral(ts: seq<Token>, t: Token, data: seq<byte>, n: nat, p: Limits, cuts: set<nat>)
    requires Codes(ts, data, n, p.maxDist) && Parsed(Slow, ts, data, p, cuts) && t.Literal?
    requires NothingUseful(data, p, cuts, n) || GaveWay(data, p, cuts, n)
    ensures Parsed(Slow, ts + [t], data, p, cuts)
  {
    hide Codes, NothingUseful, GaveWay, Parsed;
    NewPosition(ts, t, data, n, p.maxDist);
    ParsedNext(Slow, ts, t, data, p, cuts);
  }

  /** The best match at n gives way to the longer one behind it. */
  lemma {:induction false} GivesWay(data: seq<byte>, p: Limits, cuts: set<nat>, n: nat, dist: nat, len: nat,
                                    dist': nat, len': nat)
    requires Best(data, p, All, cuts, n, dist, len, p.chain / 4) && len < len'
      && Best(data, p, All, cuts, n + 1, dist', len', p.chain / 4)
    ensures GaveWay(data, p, cuts, n)
  {
    hide NoneInReach, NoneNearer, Ends, Repeats, Cut;
    RepeatsSize(data, n + 1, dist', len');
    if len' <= p.nice { LongerNone(data, p, All, cuts, n, len + 1, len', p.chain / 4); }
    assert LongerLater(data, p, cuts, n, dist', len');
  }

  lemma {:induction false} ChosenIs(data: seq<byte>, p: Limits, cuts: set<nat>, n: int, dist: int, len: nat, prev: nat)
    requires Chosen(data, p, cuts, n, dist, len, prev)
    ensures 0 <= n
    ensures len <= prev && prev >= 3 ==> NoBetter(data, p, cuts, n, prev)
    ensures len > prev ==> dist >= 0 && Best(data, p, All, cuts, n, dist, len, p.chain / 4)
    ensures prev < 3 && len < 3 ==> NothingUseful(data, p, cuts, n)
  {
    hide NoBetter, Best, NothingUseful;
  }

  /** If the previous match is not taken, its byte may be a literal, and what was found here is pending. */
  lemma {:induction false} NotTaken(s: DeflateState)
    requires Deciding(s) && !(s.prev_length >= 3 && s.match_length <= s.prev_length)
    ensures s.match_available ==> 1 <= |s.consumed| - s.lookahead
    ensures s.match_available ==>
      NothingUseful(s.consumed, s.Limit(), s.cuts, |s.consumed| - s.lookahead - 1)
      || GaveWay(s.consumed, s.Limit(), s.cuts, |s.consumed| - s.lookahead - 1)
    ensures Pending(s.consumed, s.Limit(), s.cuts, |s.consumed| - s.lookahead, U32(s.strstart - s.match_start),
                    s.match_length)
    ensures s.match_length >= 3 ==> s.match_length <= s.lookahead
  {
    hide *;
    DecidingIs(s);
    var n, dist, dist' :=
      |s.consumed| - s.lookahead, U32(s.strstart - 1 - s.prev_match), U32(s.strstart - s.match_start);
    ChosenIs(s.consumed, s.Limit(), s.cuts, n, dist', s.match_length, s.prev_length);
    PendingIs(s.consumed, s.Limit(), s.cuts, n, dist', s.match_length);
    if s.match_available {
      PendingIs(s.consumed, s.Limit(), s.cuts, n - 1, dist, s.prev_length);
      if s.prev_length >= 3 {
        GivesWay(s.consumed, s.Limit(), s.cuts, n - 1, dist, s.prev_length, dist', s.match_length);
      }
    }
  }

  /** The token for the previous match. */
  method TallyPrevious(s: DeflateState) returns (bflush: bool)
    requires Deciding(s) && s.sym_next < s.sym_end && s.prev_length >= 3 && s.match_length <= s.prev_length
    modifies s`sym_next, s.sym_buf
    ensures s.Shape() && Current(s.V(s.strstart + s.lookahead), s.insert) && s.match_start < 0x1_0000_0000
    ensures 3 <= s.prev_length <= s.lookahead + 1 && s.prev_length <= 258 && s.Buffered()
    ensures Codes(s.Tokens(), s.consumed, |s.consumed| - s.lookahead - 1 + s.prev_length, MaxDist(s.w_size))
    ensures Parsed(Slow, s.Tokens(), s.consumed, s.Limit(), s.cuts)
      && Searchable(s.V(s.strstart + s.lookahead), s.Limit(), All, s.cuts) && (s.strstart in s.ins || s.lookahead < 3)
    ensures s.sym_next <= s.sym_end && (bflush <==> s.sym_next == s.sym_end)
  {
    hide *;
    DecidingIs(s);
    SlowTokensAre(s);
    s.ShapeIs();
    s.LimitsAre();
    LimitIs(s);
    ghost var n := |s.consumed| - s.lookahead - 1;
    var dist := U32(s.strstart - 1 - s.prev_match);
    PendingIs(s.consumed, s.Limit(), s.cuts, n, dist, s.prev_length);
    ChosenIs(s.consumed, s.Limit(), s.cuts, n + 1, U32(s.strstart - s.match_start), s.match_length, s.prev_length);
    BestIs(s.consumed, s.Limit(), s.cuts, n, dist, s.prev_length);
    RepeatsSize(s.consumed, n, dist, s.prev_length);
    CodesCopy(s.Tokens(), s.consumed, n, MaxDist(s.w_size), dist, s.prev_length);
    SlowCopy(s.Tokens(), dist, s.prev_length, s.consumed, n, s.Limit(), s.cuts);
    ghost var v := s.V(s.strstart + s.lookahead);
    s.VIs(s.strstart + s.lookahead);
    bflush := s.TallyDist(dist, s.prev_length - 3);
    s.VIs(s.strstart + s.lookahead);
    BufferIs(s);
  }

  /** Takes the previous match. */
  method TakePrevious(s: DeflateState) returns (bflush: bool)
    requires Deciding(s) && s.sym_next < s.sym_end && s.lookahead > 0 && s.prev_length >= 3
      && s.match_length <= s.prev_length
    modifies s`match_length, s`match_available, s`prev_length, s`strstart, s`lookahead, s`ins_h, s`ins, s.head, s.prev,
      s`sym_next, s.sym_buf
    ensures SlowOk(s) && s.lookahead < old(s.lookahead) && s.sym_next <= s.sym_end
      && (bflush <==> s.sym_next == s.sym_end)
  {
    hide *;
    ghost var end := s.strstart + s.lookahead;
    var max_insert: int := s.strstart + s.lookahead - 3;
    bflush := TallyPrevious(s);
    s.ShapeIs();
    PassPrevious(s, max_insert, end);
    SlowTokensAre(s);
    SlowIs(s);
  }

  /** Moves on behind the previous match, inserting its strings. */
  method PassPrevious(s: DeflateState, max_insert: int, ghost end: nat)
    requires s.Shape() && Current(s.V(end), s.insert) && 3 <= s.prev_length <= s.lookahead + 1 && s.prev_length <= 258
    requires Searchable(s.V(end), s.Limit(), All, s.cuts) && (s.strstart in s.ins || s.lookahead < 3)
      && end == s.strstart + s.lookahead && max_insert == end - 3 && s.lookahead > 0
    modifies s`match_length, s`match_available, s`prev_length, s`strstart, s`lookahead, s`ins_h, s`ins, s.head, s.prev
    ensures !s.match_available && s.match_length == 2 && end == s.strstart + s.lookahead
      && s.lookahead == old(s.lookahead) - (old(s.prev_length) - 1)
    ensures Dictionary(s.V(end), s.insert) && Stocked(s.V(end), All, s.cuts) && Deep(s.V(end))
  {
    hide *;
    s.ShapeIs();
    ghost var v, len := s.V(end), s.prev_length;
    s.VIs(end);
    s.CurrentWindowed(v, s.insert);
    s.lookahead := s.lookahead - (s.prev_length - 1);
    s.prev_length := s.prev_length - 2;
    s.VIs(end);
    InsertPrevious(s, max_insert, end);
    s.match_available := false;
    s.match_length := 2;
    s.VIs(end);
    s.MoveOn(end);
    s.VIs(end);
    StockedAll(v, s.V(end), s.Limit(), s.cuts, len - 1);
  }

  /** The positions of the token have been inserted as far as they have three bytes. */
  lemma {:induction false} StockedAll(v: View, u: View, p: Limits, cuts: set<nat>, len: nat)
    requires Searchable(v, p, All, cuts) && u == v.(head := u.head, prev := u.prev, ins := u.ins, insH := u.insH,
      str := v.str + len)
    requires v.ins <= u.ins && len <= 258 && u.str <= v.end
    requires forall x: nat {:trigger x in u.ins} :: v.str <= x < u.str && x + 3 <= v.end ==> x in u.ins
    ensures Stocked(u, All, cuts) && Deep(u)
  {
    hide Stocked, Cut, Passed, Searchable;
    SearchableIs(v, p, All, cuts);
    PassedOn(v, u, len);
    forall x: nat | v.str <= x < u.str ensures x in u.ins || Cut(cuts, Base(v) + x, 3) {
      if x + 3 > v.end { CutNear(v, cuts, x); }
    }
    PassedAll(v, u, len, cuts);
  }

  lemma {:induction false} CutNear(v: View, cuts: set<nat>, x: nat)
    requires x < v.end < x + 3 && |v.data| in cuts
    ensures Cut(cuts, Base(v) + x, 3)
  {
  }

  /** Inserts the strings of the previous match that have three bytes. */
  method InsertPrevious(s: DeflateState, max_insert: int, ghost end: nat)
    requires s.Shape() && Current(s.V(end), s.insert) && s.prev_length >= 1 && s.strstart + s.prev_length < end
      && max_insert == end - 3
    modifies s`prev_length, s`strstart, s`ins_h, s`ins, s.head, s.prev
    ensures s.strstart == old(s.strstart) + old(s.prev_length) && Current(s.V(end), s.insert) && old(s.ins) <= s.ins
    ensures forall x: nat {:trigger x in s.ins} :: old(s.strstart) < x <= s.strstart && x + 3 <= end ==> x in s.ins
  {
    hide *;
    ghost var target := s.strstart + s.prev_length;
    s.VIs(end);
    while true
      invariant s.prev_length >= 1 && s.strstart + s.prev_length == target < end && Current(s.V(end), s.insert)
      invariant old(s.ins) <= s.ins
      invariant forall x: nat {:trigger x in s.ins} :: old(s.strstart) < x <= s.strstart && x + 3 <= end ==> x in s.ins
      decreases s.prev_length
    {
      s.MoveOn(end);
      s.VIs(end);
      if s.strstart <= max_insert {
        var _ := s.InsertHere(end);
      } else {
        s.LimitsAre();
        TooShort(s.V(end), s.insert);
      }
      s.prev_length := s.prev_length - 1;
      s.VIs(end);
      if s.prev_length == 0 { break; }
    }
  }

  lemma {:induction false} BufferIs(s: DeflateState)
    ensures s.Buffered() ==> s.sym_next <= s.sym_end
  {
  }

  /** Takes the byte before strstart as a literal. */
  method TakeByteBefore(s: DeflateState, ghost end: nat) returns (bflush: bool)
    requires s.Shape() && Windowed(s.V(end)) && end == s.strstart + s.lookahead && s.match_available && SlowTokens(s)
      && s.sym_next < s.sym_end && s.strstart >= 1
    requires Parsed(Slow, s.Tokens(), s.consumed, s.Limit(), s.cuts) && 1 <= |s.consumed| - s.lookahead
    requires NothingUseful(s.consumed, s.Limit(), s.cuts, |s.consumed| - s.lookahead - 1)
      || GaveWay(s.consumed, s.Limit(), s.cuts, |s.consumed| - s.lookahead - 1)
    modifies s`sym_next, s.sym_buf
    ensures s.Buffered() && Codes(s.Tokens(), s.consumed, |s.consumed| - s.lookahead, MaxDist(s.w_size))
    ensures Parsed(Slow, s.Tokens(), s.consumed, s.Limit(), s.cuts)
    ensures s.sym_next <= s.sym_end && (bflush <==> s.sym_next == s.sym_end)
  {
    hide *;
    s.ShapeIs();
    LimitIs(s);
    SlowTokensAre(s);
    s.VIs(end);
    WindowedIs(s.V(end));
    s.LiteralCodes(s.Tokens(), end, s.strstart - 1);
    SlowLiteral(s.Tokens(), Literal(s.window[s.strstart - 1]), s.consumed, |s.consumed| - s.lookahead - 1, s.Limit(),
                s.cuts);
    bflush := s.TallyLit(s.window[s.strstart - 1]);
    BufferIs(s);
  }

  lemma {:induction false} WindowedIs(v: View)
    requires Windowed(v)
    ensures v.str <= v.end <= |v.win|
  {
  }

  /** Moves on; what was current may be pending now. */
  method Wait(s: DeflateState)
    requires s.Shape() && Current(s.V(s.strstart + s.lookahead), s.insert) && s.match_start < 0x1_0000_0000
    requires s.Buffered() && Codes(s.Tokens(), s.consumed, |s.consumed| - s.lookahead, MaxDist(s.w_size))
      && s.lookahead > 0
    requires 2 <= s.match_length && (s.match_length >= 3 ==> s.match_length <= s.lookahead)
    requires Parsed(Slow, s.Tokens(), s.consumed, s.Limit(), s.cuts)
      && Searchable(s.V(s.strstart + s.lookahead), s.Limit(), All, s.cuts) && (s.strstart in s.ins || s.lookahead < 3)
    requires Pending(s.consumed, s.Limit(), s.cuts, |s.consumed| - s.lookahead, U32(s.strstart - s.match_start),
                     s.match_length)
    requires s.match_available
    modifies s`strstart, s`lookahead
    ensures SlowOk(s) && s.lookahead == old(s.lookahead) - 1
  {
    hide *;
    ghost var end := s.strstart + s.lookahead;
    ghost var v := s.V(end);
    s.VIs(end);
    s.MoveOn(end);
    s.lookahead := s.lookahead - 1;
    s.VIs(end);
    StockedAll(v, s.V(end), s.Limit(), s.cuts, 1);
    SlowTokensAre(s);
    SlowIs(s);
  }

  // ----- the loop

  method FillForSlow(s: DeflateState, strm: ZStream)
    requires SlowOk(s) && s.lookahead < 262
    modifies s`strstart, s`lookahead, s`insert, s`match_start, s`ins_h, s`high_water, s`consumed, s`ins
    modifies s.window, s.head, s.prev, strm`next_in
    ensures SlowOk(s) && s.strstart + 262 <= 2 * s.w_size && (s.lookahead >= 262 || strm.next_in == [])
    ensures s.lookahead + |strm.next_in| == old(s.lookahead) + |old(strm.next_in)|
    ensures Fed(old(strm.next_in), old(s.consumed), strm.next_in, s.consumed)
  {
    hide *;
    SlowIs(s);
    SlowTokensAre(s);
    s.ShapeIs();
    ghost var v := s.V(s.strstart + s.lookahead);
    DictionarySlack(v, s.insert);
    s.CurrentWindowed(v, s.insert);
    BaseOf(s, s.strstart + s.lookahead);
    s.VIs(s.strstart + s.lookahead);
    ghost var ts, data, look := s.Tokens(), s.consumed, s.lookahead;
    ghost var input, dist, d := strm.next_in, U32(s.strstart - 1 - s.match_start), if s.match_available then 1 else 0;
    WrapBefore(s.strstart, s.match_start);
    s.FillWindow(strm);
    WrapBefore(s.strstart, s.match_start);
    ghost var more := input[..s.lookahead - look];
    CodesMore(ts, data, more, |data| - look - d, MaxDist(s.w_size));
    if s.match_available {
      MorePending(data, more, s.Limit(), s.cuts, s.cuts, |data| - look - 1, dist, s.match_length);
    }
    MoreParsed(Slow, ts, data, more, s.Limit(), s.cuts, s.cuts);
    CarriedStocked(v, s.V(s.strstart + s.lookahead), All, s.cuts);
    FedBy(input, data, s.lookahead - look);
    assert s.Tokens() == ts;
    SlowTokensAre(s);
    SlowIs(s);
  }

  lemma {:induction false} WrapBefore(a: nat, b: nat)
    ensures U32(a - 1 - b) == U32(U32(a - b) - 1)
  {
  }

  lemma {:induction false} MorePending(data: seq<byte>, more: seq<byte>, p: Limits, cuts: set<nat>, cuts': set<nat>,
                                       n: int, dist: nat, len: nat)
    requires Pending(data, p, cuts, n, dist, len) && cuts <= cuts'
    ensures Pending(data + more, p, cuts', n, dist, len)
  {
    hide NothingUseful, Best;
    if len < 3 {
      MoreUseful(data, more, p, cuts, cuts', n);
    } else {
      MoreBest(data, more, p, All, All, cuts, cuts', n, dist, len, p.chain / 4);
    }
  }

  /** The input ends here for the time being. */
  ghost method CutSlow(s: DeflateState)
    requires SlowOk(s)
    modifies s`cuts
    ensures SlowOk(s) && s.cuts == old(s.cuts) + {|s.consumed|}
  {
    hide *;
    SlowIs(s);
    SlowTokensAre(s);
    ghost var cuts, ts, end := s.cuts, s.Tokens(), s.strstart + s.lookahead;
    s.cuts := s.cuts + {|s.consumed|};
    assert s.consumed + [] == s.consumed;
    MoreParsed(Slow, ts, s.consumed, [], s.Limit(), cuts, s.cuts);
    if s.match_available {
      MorePending(s.consumed, [], s.Limit(), cuts, s.cuts, |s.consumed| - s.lookahead - 1,
                  U32(s.strstart - 1 - s.match_start), s.match_length);
    }
    FewerAll();
    StockedCuts(s.V(end), All, All, cuts, s.cuts);
    SlowTokensAre(s);
    s.VIs(end);
    SlowIs(s);
  }

  lemma {:induction false} FewerAll()
    ensures Fewer(All, All)
  {
  }

  /** The input that a turn needs, or all there is; a cut is made where a flush finds no more. */
  method FeedSlow(s: DeflateState, strm: ZStream, flush: Flush) returns (enough: bool)
    requires SlowOk(s)
    modifies s`strstart, s`lookahead, s`insert, s`match_start, s`ins_h, s`high_water, s`consumed, s`ins, s`cuts
    modifies s.window, s.head, s.prev, strm`next_in
    ensures SlowOk(s) && s.lookahead + |strm.next_in| == old(s.lookahead) + |old(strm.next_in)|
    ensures Fed(old(strm.next_in), old(s.consumed), strm.next_in, s.consumed)
    ensures CutsBy(old(s.cuts), s.cuts, flush, |s.consumed|, strm.next_in)
    ensures enough ==> EndCut(s, 262) && s.strstart + 262 <= 2 * s.w_size && (s.lookahead == 0 ==> strm.next_in == [])
    ensures enough && s.lookahead == 0 ==> flush != NO_FLUSH
    ensures !enough ==> flush == NO_FLUSH && strm.next_in == [] && s.lookahead < 262
  {
    hide *;
    enough := true;
    FedNone(strm.next_in, s.consumed);
    NoCutYet(s.cuts, flush, |s.consumed|, strm.next_in);
    SlowIs(s);
    s.CurrentWindowed(s.V(s.strstart + s.lookahead), s.insert);
    s.VIs(s.strstart + s.lookahead);
    if s.lookahead < 262 {
      FillForSlow(s, strm);
      NoCutYet(s.cuts, flush, |s.consumed|, strm.next_in);
      if s.lookahead < 262 && flush == NO_FLUSH { return false; }
      if s.lookahead < 262 {
        CutMade(s.cuts, flush, |s.consumed|, strm.next_in);
        CutSlow(s);
      }
    }
    EndCutIs(s, 262);
  }

  /** One turn of the loop; stop if there is no output room left. */
  method SlowTurn(s: DeflateState, strm: ZStream) returns (stop: bool)
    requires SlowOk(s) && s.sym_next < s.sym_end && s.lookahead > 0 && s.strstart + 262 <= 2 * s.w_size
      && EndCut(s, 262)
    modifies s`match_length, s`match_start, s`match_available, s`prev_length, s`prev_match, s`strstart, s`lookahead,
      s`ins_h, s`ins
    modifies s.head, s.prev, s`sym_next, s`flushed, s.sym_buf, strm`avail_out
    ensures SlowOk(s) && s.lookahead < old(s.lookahead) && s.sym_next < s.sym_end
    ensures (stop ==> strm.avail_out == 0) && strm.avail_out <= old(strm.avail_out)
    ensures Spent(old(s.flushed), old(strm.avail_out), s.flushed, strm.avail_out)
  {
    hide *;
    SlowIs(s);
    s.ShapeIs();
    SpentNone(s.flushed, strm.avail_out);
    FindBetter(s);
    if s.prev_length >= 3 && s.match_length <= s.prev_length {
      var bflush := TakePrevious(s);
      if bflush {
        FlushSlow(s, strm);
        if strm.avail_out == 0 { return true; }
      }
      return false;
    }
    if s.match_available {
      TruncateToLiteral(s, strm);
      if strm.avail_out == 0 { return true; }
    } else {
      StartPending(s);
    }
    stop := false;
  }

  method FlushSlow(s: DeflateState, strm: ZStream)
    requires SlowOk(s)
    modifies s`sym_next, s`flushed, strm`avail_out
    ensures SlowOk(s) && s.sym_next == 0 && strm.avail_out <= old(strm.avail_out)
    ensures old(s.sym_next) > 0 ==> Spent(old(s.flushed), old(strm.avail_out), s.flushed, strm.avail_out)
  {
    hide *;
    SlowIs(s);
    SlowTokensAre(s);
    s.FlushBlock(strm);
    SlowTokensAre(s);
    SlowIs(s);
  }

  /** No match at the previous position, or a better one here: the byte between is a literal. */
  method TruncateToLiteral(s: DeflateState, strm: ZStream)
    requires Deciding(s) && s.match_available && s.sym_next < s.sym_end && s.lookahead > 0
    requires !(s.prev_length >= 3 && s.match_length <= s.prev_length)
    modifies s`strstart, s`lookahead, s`sym_next, s`flushed, s.sym_buf, strm`avail_out
    ensures SlowOk(s) && s.lookahead == old(s.lookahead) - 1 && s.sym_next < s.sym_end
    ensures Spent(old(s.flushed), old(strm.avail_out), s.flushed, strm.avail_out)
    ensures strm.avail_out <= old(strm.avail_out)
  {
    hide *;
    SpentNone(s.flushed, strm.avail_out);
    DecidingIs(s);
    s.ShapeIs();
    CurrentWhole(s.V(s.strstart + s.lookahead), s.insert);
    NotTaken(s);
    s.VIs(s.strstart + s.lookahead);
    var bflush := TakeByteBefore(s, s.strstart + s.lookahead);
    s.VIs(s.strstart + s.lookahead);
    if bflush { s.FlushBlock(strm); }
    s.VIs(s.strstart + s.lookahead);
    Wait(s);
  }

  /** Nothing is pending yet: the current position will be. */
  method StartPending(s: DeflateState)
    requires Deciding(s) && !s.match_available && s.lookahead > 0 && s.sym_next < s.sym_end
    modifies s`match_available, s`strstart, s`lookahead
    ensures SlowOk(s) && s.lookahead == old(s.lookahead) - 1 && s.sym_next == old(s.sym_next)
  {
    hide *;
    DecidingIs(s);
    SlowTokensAre(s);
    NotTaken(s);
    s.match_available := true;
    s.VIs(s.strstart + s.lookahead);
    Wait(s);
  }

  /** After the loop: the byte still pending. */
  method TakeLast(s: DeflateState)
    requires SlowOk(s) && s.lookahead == 0 && s.sym_next < s.sym_end
    modifies s`match_available, s`sym_next, s.sym_buf
    ensures SlowOk(s) && !s.match_available && TokensOk(s) && s.match_length == 2
  {
    hide *;
    SlowIs(s);
    SlowTokensAre(s);
    s.ShapeIs();
    s.CurrentWindowed(s.V(s.strstart + s.lookahead), s.insert);
    if s.match_available {
      PendingIs(s.consumed, s.Limit(), s.cuts, |s.consumed| - s.lookahead - 1, U32(s.strstart - 1 - s.match_start),
                s.match_length);
      var _ := TakeByteBefore(s, s.strstart + s.lookahead);
      s.match_available := false;
    }
    s.VIs(s.strstart + s.lookahead);
    SlowTokensAre(s);
    TokensAre(s);
    SlowIs(s);
  }

  /** EndLoop and FinishCall keep what deflate_slow relies on. */
  method SlowEnd(s: DeflateState, strm: ZStream, flush: Flush) returns (r: BlockState)
    requires SlowOk(s) && s.lookahead == 0 && s.sym_next < s.sym_end && flush != NO_FLUSH
    modifies s`match_available, s`sym_next, s`flushed, s`insert, s.sym_buf, strm`avail_out
    ensures SlowOk(s) && s.sym_next == 0 && !s.match_available && Expand(s.flushed, |s.flushed|) == s.consumed
    ensures s.lookahead == 0 && strm.avail_out <= old(strm.avail_out)
    ensures flush != FINISH ==> Spent(old(s.flushed), old(strm.avail_out), s.flushed, strm.avail_out)
    ensures flush == FINISH ==> r == if strm.avail_out == 0 then FINISH_STARTED else FINISH_DONE
    ensures flush != FINISH ==> r == BLOCK_DONE || (r == NEED_MORE && strm.avail_out == 0)
  {
    hide *;
    TakeLast(s);
    SlowIs(s);
    s.ShapeIs();
    ghost var look := s.lookahead;
    s.VIs(s.strstart + s.lookahead);
    EndLoop(s);
    TokensAre(s);
    r := FinishCall(s, strm, flush);
    TokensAre(s);
    SlowTokensAre(s);
    s.VIs(s.strstart + s.lookahead);
    SlowIs(s);
    AllCoded(s);
  }

  /**
   * deflate_slow. Whatever it returns, the tokens stand for exactly the input before strstart, but for one byte
   * while a decision is pending; a block is done only when all input is consumed and no token is left in the
   * buffer.
   */
  method DeflateSlow(s: DeflateState, strm: ZStream, flush: Flush) returns (r: BlockState)
    requires SlowOk(s) && s.sym_next < s.sym_end
    modifies s, s.window, s.head, s.prev, s.sym_buf, strm
    ensures SlowOk(s) && s.sym_next < s.sym_end
    ensures Fed(old(strm.next_in), old(s.consumed), strm.next_in, s.consumed)
    ensures r == NEED_MORE ==>
      strm.avail_out == 0 || (flush == NO_FLUSH && strm.next_in == [] && s.lookahead < 262)
    ensures r != NEED_MORE ==> Expand(s.flushed, |s.flushed|) == s.consumed && strm.next_in == [] && s.lookahead == 0
    ensures r == BLOCK_DONE ==> flush == SOME_FLUSH
    ensures r == FINISH_STARTED ==> flush == FINISH && strm.avail_out == 0
    ensures r == FINISH_DONE ==> flush == FINISH && strm.avail_out > 0
    ensures Parsed(Slow, s.Tokens(), s.consumed, s.Limit(), s.cuts)
    ensures old(s.cuts) <= s.cuts <= old(s.cuts) + if flush == NO_FLUSH then {} else {|s.consumed|}
    ensures strm.avail_out <= old(strm.avail_out) && (flush != FINISH || r == NEED_MORE ==>
      Spent(old(s.flushed), old(strm.avail_out), s.flushed, strm.avail_out))
  {
    hide *;
    ghost var input, data := strm.next_in, s.consumed;
    ghost var out, room := s.flushed, strm.avail_out;
    FedNone(input, data);
    SpentNone(out, room);
    NoCutYet(s.cuts, flush, |s.consumed|, strm.next_in);
    while true
      invariant SlowOk(s) && s.sym_next < s.sym_end && Fed(input, data, strm.next_in, s.consumed)
      invariant strm.avail_out <= room && Spent(out, room, s.flushed, strm.avail_out)
      invariant CutsBy(old(s.cuts), s.cuts, flush, |s.consumed|, strm.next_in)
      decreases |strm.next_in| + s.lookahead
    {
      ghost var rest, now, cuts := strm.next_in, s.consumed, s.cuts;
      var enough := FeedSlow(s, strm, flush);
      FedMore(input, data, rest, now, strm.next_in, s.consumed);
      CutsStep(old(s.cuts), cuts, s.cuts, flush, rest, now, strm.next_in, s.consumed);
      CutsWithin(old(s.cuts), s.cuts, flush, |s.consumed|, strm.next_in);
      SlowIs(s);
      if !enough { return NEED_MORE; }
      if s.lookahead == 0 { break; }
      ghost var out1, room1 := s.flushed, strm.avail_out;
      var stop := SlowTurn(s, strm);
      SpentMore(out, room, out1, room1, s.flushed, strm.avail_out);
      SlowIs(s);
      if stop { return NEED_MORE; }
    }
    ghost var out1, room1 := s.flushed, strm.avail_out;
    CutsWithin(old(s.cuts), s.cuts, flush, |s.consumed|, strm.next_in);
    r := SlowEnd(s, strm, flush);
    SlowIs(s);
    if flush != FINISH { SpentMore(out, room, out1, room1, s.flushed, strm.avail_out); }
    FlushKinds(flush);
  }

  lemma {:induction false} SlowStart(s: DeflateState)
    requires s.Shape() && Dictionary(s.V(s.strstart + s.lookahead), s.insert) && TokensOk(s)
      && s.match_start < 0x1_0000_0000
    requires !s.match_available && s.match_length == 2 && s.strstart == 0 && s.lookahead == 0 && s.consumed == []
      && s.Tokens() == []
    ensures SlowOk(s)
  {
    hide Dictionary, Parsed, Cut;
    NothingParsed(Slow, s.consumed, s.Limit(), s.cuts);
  }
}
