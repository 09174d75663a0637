/** deflate_rle: matches of distance one only, without the dictionary. */
module DeflateRle {
  import opened Bytes
  import opened Lz77
  import opened HashChains
  import opened Parsing
  import opened Deflate
  import opened DeflateFast
  import opened Powers
  import DeflateSlow

  /** Between two turns of deflate_rle. */
  ghost predicate RleOk(s: DeflateState)
    reads s, s.window, s.head, s.prev, s.sym_buf
  {
    && s.Shape() && Slack(s.V(s.strstart + s.lookahead), s.insert) && TokensOk(s) && s.match_start < 0x1_0000_0000
    && Parsed(Rle, s.Tokens(), s.consumed, s.Limit(), s.cuts) && (s.strstart == 0 ==> |s.consumed| == s.lookahead)
  }

  lemma {:induction false} RleIs(s: DeflateState)
    ensures RleOk(s) <==>
      && s.Shape() && Slack(s.V(s.strstart + s.lookahead), s.insert) && TokensOk(s) && s.match_start < 0x1_0000_0000
      && Parsed(Rle, s.Tokens(), s.consumed, s.Limit(), s.cuts) && (s.strstart == 0 ==> |s.consumed| == s.lookahead)
  {
  }

  /** How often the byte before strstart follows again; less than 3 if fewer than 3 times. */
  method FindRun(s: DeflateState) returns (len: nat)
    requires s.Shape() && 3 <= s.lookahead && 0 < s.strstart && s.strstart + 259 <= 2 * s.w_size
    ensures len <= s.lookahead && len <= 258 && (len >= 3 ==> Matches(s.window[..], s.strstart - 1, s.strstart, len))
    ensures len < s.lookahead && len < 258 && len >= 3 ==>
      !Matches(s.window[..], s.strstart - 1, s.strstart, len + 1)
    ensures len < 3 ==> !Matches(s.window[..], s.strstart - 1, s.strstart, 3)
  {
    hide *;
    s.ShapeIs();
    var prev := s.window[s.strstart - 1];
    if prev == s.window[s.strstart] && prev == s.window[s.strstart + 1] && prev == s.window[s.strstart + 2] {
      len := 3;
      while len < 258 && prev == s.window[s.strstart + len]
        invariant 3 <= len <= 258 && forall x {:trigger s.window[x]} :: s.strstart - 1 <= x < s.strstart + len ==>
          s.window[x] == prev
      {
        len := len + 1;
      }
      if len < 258 { NotMatched(s.window[..], s.strstart, len + 1, len); }
      if len > s.lookahead { len := s.lookahead; }
      RunMatches(s, prev, len);
    } else {
      len := 0;
      ghost var win := s.window[..];
      assert win[s.strstart - 1] == prev && win[s.strstart] == s.window[s.strstart]
        && win[s.strstart + 1] == s.window[s.strstart + 1] && win[s.strstart + 2] == s.window[s.strstart + 2];
      NotARun(win, s.strstart);
    }
  }

  lemma {:induction false} NotARun(win: seq<byte>, p: nat)
    requires 1 <= p && p + 3 <= |win| && !(win[p - 1] == win[p] == win[p + 1] == win[p + 2])
    ensures !Matches(win, p - 1, p, 3)
  {
    if win[p] != win[p - 1] {
      NotMatched(win, p, 3, 0);
    } else if win[p + 1] != win[p] {
      NotMatched(win, p, 3, 1);
    } else {
      NotMatched(win, p, 3, 2);
    }
  }

  lemma {:induction false} RunMatches(s: DeflateState, prev: byte, len: nat)
    requires 1 <= s.strstart && s.strstart + len <= s.window.Length
    requires forall x {:trigger s.window[x]} :: s.strstart - 1 <= x < s.strstart + len ==> s.window[x] == prev
    ensures Matches(s.window[..], s.strstart - 1, s.strstart, len)
  {
  }

  // ----- the tokens are right

  /** In the window and in the data the same repeats. */
  lemma {:induction false} WindowRepeats(s: DeflateState, end: nat, len: nat)
    requires s.Shape() && Windowed(s.V(end)) && 1 <= s.strstart && s.strstart + len <= end
    ensures Repeats(s.consumed, |s.consumed| - end + s.strstart, 1, len)
      <==> Matches(s.window[..], s.strstart - 1, s.strstart, len)
  {
    var n := |s.consumed| - end + s.strstart;
    if Repeats(s.consumed, n, 1, len) {
      forall x | s.strstart <= x < s.strstart + len ensures s.window[..][x] == s.window[..][x - 1] {
        assert s.consumed[|s.consumed| - end + x] == s.consumed[|s.consumed| - end + x - 1];
      }
    }
    if Matches(s.window[..], s.strstart - 1, s.strstart, len) {
      MatchRepeats(s.V(end), s.strstart - 1, s.strstart, len);
    }
  }

  lemma {:induction false} NotMatched(win: seq<byte>, p: nat, len: nat, k: nat)
    requires 1 <= p && k < len && p + len <= |win| && win[p + k] != win[p + k - 1]
    ensures !Matches(win, p - 1, p, len)
  {
  }

  lemma {:induction false} CutHere(s: DeflateState, len: nat)
    requires EndCut(s, 259) && 0 < s.lookahead < len && s.lookahead <= 258 && s.lookahead <= |s.consumed|
    ensures Cut(s.cuts, |s.consumed| - s.lookahead, len)
  {
    assert |s.consumed| in s.cuts;
  }

  /** The run found is as long as it can be. */
  lemma {:induction false} RunEnds(s: DeflateState, end: nat, len: nat)
    requires s.Shape() && Windowed(s.V(end)) && 1 <= s.strstart && end == s.strstart + s.lookahead && EndCut(s, 259)
      && 3 <= len <= s.lookahead && len <= 258 && end <= |s.consumed|
    requires len < s.lookahead && len < 258 ==> !Matches(s.window[..], s.strstart - 1, s.strstart, len + 1)
    ensures Ends(s.consumed, s.cuts, |s.consumed| - s.lookahead, 1, len)
  {
    hide Cut, Repeats, Matches, Windowed, EndCut;
    if len < 258 {
      if len == s.lookahead { CutHere(s, len + 1); } else { WindowRepeats(s, end, len + 1); }
    }
  }

  /** Without a run a literal is right. */
  lemma {:induction false} NoRun(s: DeflateState, end: nat)
    requires s.Shape() && Windowed(s.V(end)) && end == s.strstart + s.lookahead && EndCut(s, 259) && s.lookahead > 0
      && end <= |s.consumed| && (s.strstart == 0 ==> |s.consumed| == s.lookahead)
    requires s.lookahead >= 3 && s.strstart > 0 ==> !Matches(s.window[..], s.strstart - 1, s.strstart, 3)
    ensures var n := |s.consumed| - s.lookahead; n == 0 || NoMatch(s.consumed, s.cuts, n, n - 1, 3)
  {
    hide Cut, Repeats, Matches, Windowed, EndCut;
    if s.lookahead < 3 {
      CutHere(s, 3);
    } else if s.strstart > 0 {
      WindowRepeats(s, end, 3);
    }
  }

  lemma {:induction false} RleLiteral(ts: seq<Token>, t: Token, data: seq<byte>, n: nat, p: Limits, cuts: set<nat>)
    requires Codes(ts, data, n, p.maxDist) && Parsed(Rle, ts, data, p, cuts) && t.Literal?
      && (n == 0 || NoMatch(data, cuts, n, n - 1, 3))
    ensures Parsed(Rle, ts + [t], data, p, cuts)
  {
    hide Codes, NoMatch, Parsed;
    NewPosition(ts, t, data, n, p.maxDist);
    ParsedNext(Rle, ts, t, data, p, cuts);
  }

  lemma {:induction false} RleCopy(ts: seq<Token>, len: nat, data: seq<byte>, n: nat, p: Limits, cuts: set<nat>)
    requires Codes(ts, data, n, p.maxDist) && Parsed(Rle, ts, data, p, cuts) && Ends(data, cuts, n, 1, len)
    ensures Parsed(Rle, ts + [Copy(1, len)], data, p, cuts)
  {
    hide Codes, Ends, Parsed;
    NewPosition(ts, Copy(1, len), data, n, p.maxDist);
    ParsedNext(Rle, ts, Copy(1, len), data, p, cuts);
  }

  /** Moves on over bytes that tokens stand for. */
  method Advance(s: DeflateState, n: nat)
    requires s.Shape() && Slack(s.V(s.strstart + s.lookahead), s.insert) && n <= s.lookahead
    modifies s`lookahead, s`strstart
    ensures s.strstart == old(s.strstart) + n && s.lookahead == old(s.lookahead) - n
    ensures Slack(s.V(s.strstart + s.lookahead), s.insert)
  {
    hide *;
    ghost var end := s.strstart + s.lookahead;
    ghost var v := s.V(end);
    s.VIs(end);
    s.lookahead := s.lookahead - n;
    s.strstart := s.strstart + n;
    s.VIs(end);
    SlackMoves(v, s.V(end), s.insert, n);
  }

  lemma {:induction false} SlackMoves(v: View, u: View, insert: nat, n: nat)
    requires Slack(v, insert) && u == v.(str := v.str + n) && u.str <= u.end
    ensures Slack(u, insert)
  {
    hide Chains;
    ChainsMove(v, u, v.str - insert, u.str - insert);
  }

  /** Takes the run found. */
  method TakeRun(s: DeflateState) returns (bflush: bool)
    requires RleOk(s) && s.sym_next < s.sym_end && 3 <= s.match_length <= s.lookahead && s.match_length <= 258
      && 0 < s.strstart
    requires Matches(s.window[..], s.strstart - 1, s.strstart, s.match_length) && EndCut(s, 259)
    requires s.match_length < s.lookahead && s.match_length < 258 ==>
      !Matches(s.window[..], s.strstart - 1, s.strstart, s.match_length + 1)
    modifies s`match_length, s`strstart, s`lookahead, s`sym_next, s.sym_buf
    ensures RleOk(s) && s.lookahead < old(s.lookahead) && s.sym_next <= s.sym_end
      && (bflush <==> s.sym_next == s.sym_end)
  {
    hide *;
    RleIs(s);
    TokensAre(s);
    s.ShapeIs();
    s.LimitsAre();
    ghost var end := s.strstart + s.lookahead;
    s.CurrentWindowed(s.V(end), s.insert);
    s.VIs(end);
    s.MatchCodes(s.Tokens(), end, s.strstart - 1, s.strstart, s.match_length);
    RunEnds(s, end, s.match_length);
    LimitIs(s);
    RleCopy(s.Tokens(), s.match_length, s.consumed, |s.consumed| - s.lookahead, s.Limit(), s.cuts);
    bflush := s.TallyDist(1, s.match_length - 3);
    s.VIs(end);
    Advance(s, s.match_length);
    s.match_length := 0;
    s.VIs(s.strstart + s.lookahead);
    TokensAre(s);
    RleIs(s);
    BufferedIs(s);
  }

  /** Takes a literal. */
  method TakeByte(s: DeflateState) returns (bflush: bool)
    requires RleOk(s) && s.sym_next < s.sym_end && s.lookahead > 0 && EndCut(s, 259)
    requires s.lookahead >= 3 && s.strstart > 0 ==> !Matches(s.window[..], s.strstart - 1, s.strstart, 3)
    modifies s`strstart, s`lookahead, s`sym_next, s.sym_buf
    ensures RleOk(s) && s.lookahead < old(s.lookahead) && s.sym_next <= s.sym_end
      && (bflush <==> s.sym_next == s.sym_end)
  {
    hide *;
    RleIs(s);
    TokensAre(s);
    s.ShapeIs();
    ghost var end := s.strstart + s.lookahead;
    s.CurrentWindowed(s.V(end), s.insert);
    s.VIs(end);
    s.LiteralCodes(s.Tokens(), end, s.strstart);
    NoRun(s, end);
    LimitIs(s);
    RleLiteral(s.Tokens(), Literal(s.window[s.strstart]), s.consumed, |s.consumed| - s.lookahead, s.Limit(), s.cuts);
    bflush := s.TallyLit(s.window[s.strstart]);
    s.VIs(end);
    Advance(s, 1);
    TokensAre(s);
    RleIs(s);
    BufferedIs(s);
  }

  /** One turn of the loop. */
  method RleTurn(s: DeflateState) returns (bflush: bool)
    requires RleOk(s) && s.sym_next < s.sym_end && s.lookahead > 0 && s.strstart + 259 <= 2 * s.w_size && EndCut(s, 259)
    modifies s`match_length, s`strstart, s`lookahead, s`sym_next, s.sym_buf
    ensures RleOk(s) && s.lookahead < old(s.lookahead) && s.sym_next <= s.sym_end
      && (bflush <==> s.sym_next == s.sym_end)
  {
    hide *;
    RleIs(s);
    s.match_length := 0;
    if s.lookahead >= 3 && s.strstart > 0 {
      s.match_length := FindRun(s);
    }
    s.VIs(s.strstart + s.lookahead);
    TokensAre(s);
    RleIs(s);
    if s.match_length >= 3 {
      bflush := TakeRun(s);
    } else {
      bflush := TakeByte(s);
    }
  }

  method FillForRle(s: DeflateState, strm: ZStream)
    requires RleOk(s) && s.lookahead <= 258
    modifies s`strstart, s`lookahead, s`insert, s`match_start, s`ins_h, s`high_water, s`consumed, s`ins
    modifies s.window, s.head, s.prev, strm`next_in
    ensures RleOk(s) && s.strstart + 262 <= 2 * s.w_size && (s.lookahead >= 262 || strm.next_in == [])
    ensures s.lookahead + |strm.next_in| == old(s.lookahead) + |old(strm.next_in)|
    ensures Fed(old(strm.next_in), old(s.consumed), strm.next_in, s.consumed)
  {
    hide *;
    RleIs(s);
    ghost var ts, data := s.Tokens(), s.consumed;
    FillForTokens(s, strm);
    MoreParsed(Rle, ts, data, s.consumed[|data|..], s.Limit(), s.cuts, s.cuts);
    assert data + s.consumed[|data|..] == s.consumed;
    RleIs(s);
  }

  /** The input that a turn needs, or all there is; a cut is made where a flush finds no more. */
  method FeedRle(s: DeflateState, strm: ZStream, flush: Flush) returns (enough: bool)
    requires RleOk(s)
    modifies s`strstart, s`lookahead, s`insert, s`match_start, s`ins_h, s`high_water, s`consumed, s`ins, s`cuts
    modifies s.window, s.head, s.prev, strm`next_in
    ensures RleOk(s) && s.lookahead + |strm.next_in| == old(s.lookahead) + |old(strm.next_in)|
    ensures Fed(old(strm.next_in), old(s.consumed), strm.next_in, s.consumed)
    ensures CutsBy(old(s.cuts), s.cuts, flush, |s.consumed|, strm.next_in)
    ensures enough ==> EndCut(s, 259) && s.strstart + 259 <= 2 * s.w_size && (s.lookahead == 0 ==> strm.next_in == [])
    ensures enough && s.lookahead == 0 ==> flush != NO_FLUSH
    ensures !enough ==> flush == NO_FLUSH && strm.next_in == [] && s.lookahead <= 258
  {
    hide *;
    enough := true;
    FedNone(strm.next_in, s.consumed);
    NoCutYet(s.cuts, flush, |s.consumed|, strm.next_in);
    if s.lookahead <= 258 {
      FillForRle(s, strm);
      NoCutYet(s.cuts, flush, |s.consumed|, strm.next_in);
      if s.lookahead <= 258 && flush == NO_FLUSH { return false; }
      if s.lookahead <= 258 {
        CutMade(s.cuts, flush, |s.consumed|, strm.next_in);
        CutRle(s);
      }
    }
    EndCutIs(s, 259);
    Room(s);
  }

  /** deflate_rle: the tokens stand for exactly the input before the lookahead. */
  method DeflateRle(s: DeflateState, strm: ZStream, flush: Flush) returns (r: BlockState)
    requires RleOk(s) && s.sym_next < s.sym_end
    modifies s, s.window, s.head, s.prev, s.sym_buf, strm
    ensures RleOk(s) && s.sym_next < s.sym_end
    ensures Fed(old(strm.next_in), old(s.consumed), strm.next_in, s.consumed)
    ensures r == NEED_MORE ==>
      strm.avail_out == 0 || (flush == NO_FLUSH && strm.next_in == [] && s.lookahead <= 258)
    ensures r != NEED_MORE ==> Expand(s.flushed, |s.flushed|) == s.consumed && strm.next_in == [] && s.lookahead == 0
    ensures r == BLOCK_DONE ==> flush == SOME_FLUSH
    ensures r == FINISH_STARTED ==> flush == FINISH && strm.avail_out == 0
    ensures r == FINISH_DONE ==> flush == FINISH && strm.avail_out > 0
    ensures Parsed(Rle, s.Tokens(), s.consumed, s.Limit(), s.cuts)
    ensures old(s.cuts) <= s.cuts <= old(s.cuts) + if flush == NO_FLUSH then {} else {|s.consumed|}
    ensures strm.avail_out <= old(strm.avail_out) && (flush != FINISH || r == NEED_MORE ==>
      Spent(old(s.flushed), old(strm.avail_out), s.flushed, strm.avail_out))
  {
    hide *;
    ghost var input, data := strm.next_in, s.consumed;
    ghost var out, room := s.flushed, strm.avail_out;
    FedNone(input, data);
    SpentNone(out, room);
    NoCutYet(s.cuts, flush, |s.consumed|, strm.next_in);
    while true
      invariant RleOk(s) && s.sym_next < s.sym_end && Fed(input, data, strm.next_in, s.consumed)
      invariant strm.avail_out <= room && Spent(out, room, s.flushed, strm.avail_out)
      invariant CutsBy(old(s.cuts), s.cuts, flush, |s.consumed|, strm.next_in)
      decreases |strm.next_in| + s.lookahead
    {
      ghost var rest, now, cuts := strm.next_in, s.consumed, s.cuts;
      var enough := FeedRle(s, strm, flush);
      FedMore(input, data, rest, now, strm.next_in, s.consumed);
      CutsStep(old(s.cuts), cuts, s.cuts, flush, rest, now, strm.next_in, s.consumed);
      CutsWithin(old(s.cuts), s.cuts, flush, |s.consumed|, strm.next_in);
      RleIs(s);
      if !enough { return NEED_MORE; }
      if s.lookahead == 0 { break; }
      var bflush := RleTurn(s);
      RleIs(s);
      if bflush {
        ghost var out1, room1 := s.flushed, strm.avail_out;
        FlushForRle(s, strm);
        SpentMore(out, room, out1, room1, s.flushed, strm.avail_out);
        RleIs(s);
        if strm.avail_out == 0 { return NEED_MORE; }
      }
    }
    ghost var out1, room1 := s.flushed, strm.avail_out;
    CutsWithin(old(s.cuts), s.cuts, flush, |s.consumed|, strm.next_in);
    r := RleEnd(s, strm, flush);
    RleIs(s);
    if flush != FINISH { SpentMore(out, room, out1, room1, s.flushed, strm.avail_out); }
    FlushKinds(flush);
  }

  /** The input ends here for the time being. */
  ghost method CutRle(s: DeflateState)
    requires RleOk(s)
    modifies s`cuts
    ensures RleOk(s) && s.cuts == old(s.cuts) + {|s.consumed|}
  {
    hide *;
    RleIs(s);
    ghost var cuts := s.cuts;
    s.cuts := s.cuts + {|s.consumed|};
    MoreParsed(Rle, s.Tokens(), s.consumed, [], s.Limit(), cuts, s.cuts);
    assert s.consumed + [] == s.consumed;
    TokensAre(s);
    s.VIs(s.strstart + s.lookahead);
    RleIs(s);
  }

  /** With more than 258 bytes ahead the position is far enough from the window's end. */
  lemma {:induction false} Room(s: DeflateState)
    requires RleOk(s) && (s.lookahead > 258 || s.strstart + 262 <= 2 * s.w_size)
    ensures s.strstart + 259 <= 2 * s.w_size
  {
  }

  method FlushForRle(s: DeflateState, strm: ZStream)
    requires RleOk(s)
    modifies s`sym_next, s`flushed, strm`avail_out
    ensures RleOk(s) && s.sym_next == 0 && strm.avail_out <= old(strm.avail_out)
    ensures old(s.sym_next) > 0 ==> Spent(old(s.flushed), old(strm.avail_out), s.flushed, strm.avail_out)
  {
    hide *;
    RleIs(s);
    FlushTokens(s, strm);
    RleIs(s);
  }

  method RleEnd(s: DeflateState, strm: ZStream, flush: Flush) returns (r: BlockState)
    requires RleOk(s) && s.lookahead == 0 && flush != NO_FLUSH
    modifies s`insert, s`sym_next, s`flushed, strm`avail_out
    ensures RleOk(s) && s.sym_next == 0 && Expand(s.flushed, |s.flushed|) == s.consumed
    ensures s.lookahead == 0 && strm.avail_out <= old(strm.avail_out)
    ensures flush != FINISH ==> Spent(old(s.flushed), old(strm.avail_out), s.flushed, strm.avail_out)
    ensures flush == FINISH ==> r == if strm.avail_out == 0 then FINISH_STARTED else FINISH_DONE
    ensures flush != FINISH ==> r == BLOCK_DONE || (r == NEED_MORE && strm.avail_out == 0)
  {
    hide *;
    RleIs(s);
    s.VIs(s.strstart);
    NoInsert(s.V(s.strstart), s.insert);
    s.insert := 0;
    s.VIs(s.strstart);
    r := FinishCall(s, strm, flush);
    RleIs(s);
    AllCoded(s);
  }

  lemma {:induction false} NoInsert(v: View, insert: nat)
    requires Slack(v, insert)
    ensures Slack(v, 0)
  {
    hide Chains;
    ChainsMove(v, v, v.str - insert, v.str);
  }

  // ----- deflateInit2_

  lemma {:induction false} NothingTallied(s: DeflateState)
    ensures s.flushed == [] && s.sym_next == 0 ==> s.Tokens() == []
  {
  }

  /** A new state is ready for any of the three. */
  method DeflateInit(level: nat, windowBits: nat, memLevel: nat, filtered: bool) returns (s: DeflateState)
    requires 1 <= level <= 9 && 8 <= windowBits <= 15 && 1 <= memLevel <= 9
    ensures fresh(s) && FastOk(s) && DeflateSlow.SlowOk(s) && RleOk(s) && s.sym_next < s.sym_end && s.consumed == []
    ensures s.w_size == Pow2(if windowBits == 8 then 9 else windowBits) && s.config == Configuration(level)
      && s.filtered == filtered && s.hash_bits == memLevel + 7 && s.sym_end == 3 * (Pow2(memLevel + 6) - 1)
      && s.cuts == {} && s.Tokens() == []
  {
    s := new DeflateState(level, windowBits, memLevel, filtered);
    NothingTallied(s);
    NothingParsed(Rle, s.consumed, s.Limit(), s.cuts);
    DeflateSlow.SlowStart(s);
    DictionarySlack(s.V(0), 0);
  }
}
