/** deflate_state: the window, the dictionary, the symbol buffer, and fill_window and longest_match on them. */
module Deflate {
  import opened Bytes
  import opened Powers
  import opened HashKey
  import opened Lz77
  import opened HashChains
  import opened Parsing
  import opened WindowSearch

  /** Bytes behind the data that longest_match may look at. */
  const WIN_INIT := 258

  datatype Flush = NO_FLUSH | SOME_FLUSH | FINISH

  datatype BlockState = NEED_MORE | BLOCK_DONE | FINISH_STARTED | FINISH_DONE

  /** Unsigned 32-bit arithmetic. */
  function U32(x: int): nat {
    x % 0x1_0000_0000
  }

  /** Tokens that are out stay out, and room is used up only by more of them. */
  ghost predicate Spent(flushed0: seq<Token>, room0: nat, flushed: seq<Token>, room: nat) {
    room <= room0 && flushed0 <= flushed && (room < room0 ==> |flushed0| < |flushed|)
  }

  lemma {:induction false} SpentNone(flushed: seq<Token>, room: nat)
    ensures Spent(flushed, room, flushed, room)
  {
  }

  lemma {:induction false} SpentMore(f0: seq<Token>, r0: nat, f1: seq<Token>, r1: nat, f2: seq<Token>, r2: nat)
    requires Spent(f0, r0, f1, r1) && Spent(f1, r1, f2, r2)
    ensures Spent(f0, r0, f2, r2)
  {
  }

  class ZStream {
    var next_in: seq<byte>
    var avail_out: nat

    constructor ()
      ensures next_in == [] && avail_out == 0
    {
      next_in, avail_out := [], 0;
    }
  }

  /** One line of the configuration table. */
  datatype Config = Config(good: nat, lazy: nat, nice: nat, chain: nat)

  function Configuration(level: nat): (c: Config)
    requires 1 <= level <= 9
    ensures 4 <= c.chain && 4 <= c.lazy && 4 <= c.good && 8 <= c.nice <= MAX_MATCH
  {
    match level
    case 1 => Config(4, 4, 8, 4)
    case 2 => Config(4, 5, 16, 8)
    case 3 => Config(4, 6, 32, 32)
    case 4 => Config(4, 4, 16, 16)
    case 5 => Config(8, 16, 32, 32)
    case 6 => Config(8, 16, 128, 128)
    case 7 => Config(8, 32, 128, 256)
    case 8 => Config(32, 128, 258, 1024)
    case _ => Config(32, 258, 258, 4096)
  }

  /** No line of a configuration does less than another one. */
  predicate AtLeast(c: Config, d: Config) {
    c.good >= d.good && c.lazy >= d.lazy && c.nice >= d.nice && c.chain >= d.chain
  }

  /** Higher levels do no less, up to 3, where deflate_fast is used, and from 4 on; and three of them in full. */
  lemma {:induction false} LevelsGrow(low: nat, high: nat)
    requires 1 <= low <= high <= 9 && (high <= 3 || 4 <= low)
    ensures AtLeast(Configuration(high), Configuration(low))
    ensures Configuration(1) == Config(4, 4, 8, 4) && Configuration(6) == Config(8, 16, 128, 128)
      && Configuration(9) == Config(32, 258, 258, 4096)
  {
  }

  // ----- matches in the window

  /** A match longer than prev starts at start; those nearer by match no more than earlier bytes. */
  ghost predicate BestSoFar(v: View, start: int, prev: nat, best: nat, earlier: nat, nice: nat) {
    best > prev ==>
      && 0 <= start && Matches(v.win, start, v.str, best) && 1 <= v.str - start <= MaxDist(v.w)
      && earlier < best && (earlier == prev || earlier < nice) && NoneFrom(v, start + 1, earlier)
      && (best < 258 ==> !Matches(v.win, start, v.str, best + 1))
  }

  lemma {:induction false} MatchAt(win: seq<byte>, c: nat, p: nat, len: nat, k: nat)
    requires Matches(win, c, p, len) && k < len
    ensures p + len <= |win| && win[p + k] == win[c + k]
  {
    assert win[p + k] == win[p + k - (p - c)];
  }

  /** One differing byte rules out a match that would hold it. */
  lemma {:induction false} Mismatch(win: seq<byte>, c: nat, p: nat, k: nat, len: nat)
    requires c < p && k < len && p + len <= |win| && win[c + k] != win[p + k]
    ensures !Matches(win, c, p, len)
  {
    if Matches(win, c, p, len) { MatchAt(win, c, p, len, k); }
  }

  lemma {:induction false} MatchMore(win: seq<byte>, c: nat, p: nat, len: nat)
    requires Matches(win, c, p, len) && p + len < |win| && win[c + len] == win[p + len]
    ensures Matches(win, c, p, len + 1)
  {
  }

  lemma {:induction false} MatchLess(win: seq<byte>, c: int, p: int, len: int, len': int)
    requires Matches(win, c, p, len) && 0 <= len' <= len
    ensures Matches(win, c, p, len')
  {
  }

  lemma {:induction false} MatchSize(win: seq<byte>, c: int, p: int, len: int)
    requires Matches(win, c, p, len)
    ensures 0 <= c < p && p + len <= |win|
  {
  }

  lemma {:induction false} Sizes(w_bits: nat, memLevel: nat)
    requires 9 <= w_bits <= 15 && 1 <= memLevel <= 9
    ensures 512 <= Pow2(w_bits) <= 32768 && Pow2(memLevel + 6) >= 128 && Params(memLevel + 7, (memLevel + 9) / 3)
  {
    Pow2Monotone(9, w_bits);
    Pow2Monotone(w_bits, 15);
    Pow2Monotone(7, memLevel + 6);
    assert Pow2(9) == 512 && Pow2(15) == 32768 && Pow2(7) == 128;
  }

  lemma {:induction false} NothingYet(v: View)
    requires 512 <= v.w <= 32768 && |v.win| == 2 * v.w && v.str == v.end == 0 && v.data == [] && v.ins == {}
    requires |v.prev| == v.w && |v.head| == Pow2(v.bits) && Params(v.bits, v.shift) && forall j :: 0 <= j < |v.head| ==>
      v.head[j] == NIL
    ensures Dictionary(v, 0)
  {
    hide Pow2, KeyAt;
    forall j | 0 <= j < |v.head| ensures HeadAt(v, j) { }
  }

  class DeflateState {
    const w_size: nat
    const hash_bits: nat
    const hash_shift: nat
    const window: array<byte>
    const prev: array<nat>
    const head: array<nat>
    const sym_buf: array<byte>
    const sym_end: nat
    const config: Config
    const filtered: bool
    var ins_h: nat
    var strstart: nat
    var lookahead: nat
    var insert: nat
    var match_length: nat
    var match_start: nat
    var match_available: bool
    var prev_length: nat
    var prev_match: nat
    var high_water: nat
    var sym_next: nat
    ghost var consumed: seq<byte>
    ghost var flushed: seq<Token>
    ghost var ins: set<nat>
    ghost var cuts: set<nat>

    /** What never changes. */
    ghost predicate Shape() {
      && 512 <= w_size <= 32768 && Params(hash_bits, hash_shift)
      && window.Length == 2 * w_size && prev.Length == w_size && head.Length == Pow2(hash_bits)
      && sym_end % 3 == 0 && 0 < sym_end <= sym_buf.Length
      && prev != head && window != sym_buf
      && window as object != prev && window as object != head && sym_buf as object != prev && sym_buf as object != head
      && 4 <= config.chain && 8 <= config.nice <= MAX_MATCH && 4 <= config.good && 4 <= config.lazy
    }

    /** deflateInit2_ and lm_init. */
    constructor (level: nat, windowBits: nat, memLevel: nat, filtered: bool)
      requires 1 <= level <= 9 && 8 <= windowBits <= 15 && 1 <= memLevel <= 9
      ensures Shape() && Dictionary(V(0), 0) && strstart == 0 && lookahead == 0 && insert == 0 && match_start == 0
      ensures match_length == 2 && prev_length == 2 && !match_available
      ensures Buffered() && sym_next == 0 && sym_next < sym_end && Codes(Tokens(), consumed, 0, MaxDist(w_size))
        && consumed == [] && flushed == [] && cuts == {}
      ensures w_size == Pow2(if windowBits == 8 then 9 else windowBits) && config == Configuration(level)
        && this.filtered == filtered && hash_bits == memLevel + 7 && sym_end == 3 * (Pow2(memLevel + 6) - 1)
      ensures fresh(window) && fresh(prev) && fresh(head) && fresh(sym_buf)
    {
      var w_bits := if windowBits == 8 then 9 else windowBits;
      var lit_bufsize := Pow2(memLevel + 6);
      Sizes(w_bits, memLevel);
      w_size, hash_bits := Pow2(w_bits), memLevel + 7;
      hash_shift := (memLevel + 7 + MIN_MATCH - 1) / MIN_MATCH;
      window := new byte[2 * Pow2(w_bits)];
      prev := new nat[Pow2(w_bits)];
      head := new nat[Pow2(memLevel + 7)](i => NIL);
      sym_buf := new byte[3 * lit_bufsize];
      sym_end := (lit_bufsize - 1) * 3;
      config, this.filtered := Configuration(level), filtered;
      ins_h, strstart, lookahead, insert, high_water, sym_next := 0, 0, 0, 0, 0, 0;
      match_length, match_start, match_available, prev_length, prev_match := 2, 0, false, 2, 0;
      consumed, flushed, ins, cuts := [], [], {}, {};
      new;
      NothingYet(V(0));
      assert Tokens() == [];
    }

    ghost function V(end: nat): View
      reads this`ins, this`consumed, this`strstart, this`ins_h, window, head, prev
    {
      View(hash_bits, hash_shift, w_size, window[..], head[..], prev[..], ins, consumed, end, strstart, ins_h)
    }

    lemma {:induction false} VIs(end: nat)
      ensures V(end)
        == View(hash_bits, hash_shift, w_size, window[..], head[..], prev[..], ins, consumed, end, strstart, ins_h)
    {
    }

    /** What limits the search for matches. */
    ghost function Limit(): Limits {
      Limits(hash_bits, hash_shift, MaxDist(w_size), config.chain, config.nice, config.lazy, filtered)
    }

    /** How much of the input the tokens stand for, if none is pending. */
    ghost function Done(): int
      reads this`consumed, this`lookahead
    {
      |consumed| - lookahead
    }

    ghost function Tokens(): seq<Token>
      reads this`flushed, this`sym_next, sym_buf
    {
      if sym_next <= sym_buf.Length then flushed + TokensIn(sym_buf[..], sym_next) else flushed
    }

    ghost predicate Buffered()
      reads this`sym_next
    {
      sym_next % 3 == 0 && sym_next <= sym_end
    }

    // ----- INSERT_STRING

    method InsertString(str: nat, ghost end: nat) returns (match_head: nat)
      requires Shape() && end <= window.Length && str + 3 <= end && KeyAt(V(end), str) < head.Length
        && Slot(str, w_size) < prev.Length && Ready(V(end), str)
      modifies this`ins_h, this`ins, head, prev
      ensures V(end) == Inserted(old(V(end)), str) && match_head == old(V(end)).head[KeyAt(old(V(end)), str)]
    {
      hide Key, Update, Pow2, Slot;
      ghost var v := V(end);
      HashIs(v, str);
      ins_h := Update(hash_bits, hash_shift, ins_h, window[str + 2]);
      match_head := head[ins_h];
      prev[Slot(str, w_size)] := match_head;
      head[ins_h] := str;
      ins := ins + {str};
      assert window[..] == v.win;
      assert head[..] == v.head[KeyAt(v, str) := str];
      assert prev[..] == v.prev[Slot(str, w_size) := match_head];
    }

    lemma {:induction false} HashIs(v: View, str: nat)
      requires str + 3 <= |v.win| && Ready(v, str)
      ensures Update(v.bits, v.shift, v.insH, v.win[str + 2]) == KeyAt(v, str)
    {
      hide Key, Update;
    }

    // ----- longest_match

    /** The comparison of a match: the bytes from the fourth on, 258 in all. */
    method Compare(cur_match: nat) returns (len: nat)
      requires Shape() && strstart + 259 <= window.Length && Matches(window[..], cur_match, strstart, 3)
      ensures 3 <= len <= 258 && Matches(window[..], cur_match, strstart, len)
      ensures len < 258 ==> !Matches(window[..], cur_match, strstart, len + 1)
    {
      hide Matches;
      ghost var win := window[..];
      len := 3;
      MatchSize(win, cur_match, strstart, 3);
      while len < 258 && window[strstart + len] == window[cur_match + len]
        invariant 3 <= len <= 258 && Matches(win, cur_match, strstart, len)
      {
        assert win[cur_match + len] == window[cur_match + len] && win[strstart + len] == window[strstart + len];
        MatchMore(win, cur_match, strstart, len);
        len := len + 1;
      }
      if len < 258 {
        assert win[cur_match + len] == window[cur_match + len] && win[strstart + len] == window[strstart + len];
        Mismatch(win, cur_match, strstart, len, len + 1);
      }
    }

    /** One candidate: its length, or 0 if it cannot be longer than bestLen. */
    method Try(cur_match: nat, bestLen: nat, ghost end: nat) returns (len: nat)
      requires Shape() && Candidate(V(end), cur_match, strstart) && strstart + 262 <= window.Length
        && 1 <= bestLen <= 258
      ensures len == 0 ==> !Matches(window[..], cur_match, strstart, bestLen + 1)
      ensures len != 0 ==> 3 <= len <= 258 && Matches(window[..], cur_match, strstart, len)
      ensures len != 0 && len < 258 ==> !Matches(window[..], cur_match, strstart, len + 1)
    {
      hide *;
      ghost var win := window[..];
      ShapeIs();
      CandidateIs(V(end), cur_match, strstart);
      VIs(end);
      var match', scan := cur_match, strstart;
      if window[match' + bestLen] != window[scan + bestLen] {
        Mismatch(win, cur_match, strstart, bestLen, bestLen + 1);
        return 0;
      }
      if window[match' + (bestLen - 1)] != window[scan + (bestLen - 1)] {
        Mismatch(win, cur_match, strstart, bestLen - 1, bestLen + 1);
        return 0;
      }
      if window[match'] != window[scan] {
        Mismatch(win, cur_match, strstart, 0, bestLen + 1);
        return 0;
      }
      if window[match' + 1] != window[scan + 1] {
        Mismatch(win, cur_match, strstart, 1, bestLen + 1);
        return 0;
      }
      ThreeMatch(V(end), cur_match, strstart);
      len := Compare(cur_match);
    }

    lemma {:induction false} ShapeIs()
      requires Shape()
      ensures 512 <= w_size <= 32768 && window.Length == 2 * w_size && prev.Length == w_size
        && Params(hash_bits, hash_shift)
      ensures 4 <= config.chain && 8 <= config.nice <= 258 && 4 <= config.good && 4 <= config.lazy
      ensures sym_end % 3 == 0 && 0 < sym_end <= sym_buf.Length
      ensures prev != head && window != sym_buf && window as object != prev && window as object != head
      ensures sym_buf as object != prev && sym_buf as object != head && head.Length == Pow2(hash_bits)
    {
    }

    lemma {:induction false} CandidateIs(v: View, c: nat, p: nat)
      requires Candidate(v, c, p)
      ensures c < p
    {
    }

    /** What longest_match promises, chain and nice being what is left of the limits at this position. */
    ghost predicate Found(end: nat, len: nat, chain: nat, nice: nat)
      reads this`ins, this`consumed, this`strstart, this`ins_h, this`match_start, this`prev_length, window, head, prev
    {
      var v := V(end);
      && (len <= prev_length < v.end - v.str ==> Exhausted(v, prev_length, chain))
      && (prev_length < len < nice ==> Exhausted(v, len, chain))
      && (len > prev_length ==>
          && Matches(v.win, match_start, v.str, len) && 1 <= v.str - match_start <= MaxDist(w_size)
          && NoneFrom(v, match_start + 1, len - 1)
          && (len < MAX_MATCH && v.str + len < end ==> !Matches(v.win, match_start, v.str, len + 1)))
    }

    function ChainLength(): (n: nat)
      reads this`prev_length
      requires 4 <= config.chain
      ensures n >= 1
    {
      if prev_length >= config.good then config.chain / 4 else config.chain
    }

    function NiceMatch(): nat
      reads this`lookahead
    {
      if config.nice > lookahead then lookahead else config.nice
    }

    lemma {:induction false} BestIs(v: View, start: nat, prev: nat, best: nat, earlier: nat, nice: nat)
      ensures BestSoFar(v, start, prev, best, earlier, nice) <==>
        best > prev ==>
          && Matches(v.win, start, v.str, best) && 1 <= v.str - start <= MaxDist(v.w)
          && earlier < best && (earlier == prev || earlier < nice) && NoneFrom(v, start + 1, earlier)
          && (best < 258 ==> !Matches(v.win, start, v.str, best + 1))
    {
      hide Matches, NoneFrom;
    }

    /** One candidate: it becomes the match if it is longer than the best so far. */
    method TryLonger(cur: nat, best: nat, ghost earlier: nat, ghost end: nat)
      returns (best': nat, better: bool, ghost earlier': nat)
      requires Shape() && Candidate(V(end), cur, strstart) && strstart + 262 <= window.Length && 1 <= best <= 258
        && NoneFrom(V(end), cur + 1, best)
      modifies this`match_start
      ensures best <= best' <= 258 && NoneFrom(V(end), cur, best') && (better <==> best' > best)
      ensures !better ==> best' == best && match_start == old(match_start) && earlier' == earlier
      ensures better ==>
        && match_start == cur && Matches(window[..], cur, strstart, best') && earlier' == best
        && NoneFrom(V(end), cur + 1, best) && (best' < 258 ==> !Matches(window[..], cur, strstart, best' + 1))
    {
      hide *;
      ghost var v := V(end);
      VIs(end);
      ShapeIs();
      LimitsAre();
      best', better, earlier' := best, false, earlier;
      var n := Try(cur, best, end);
      if n > best {
        NoneFromLonger(v, cur + 1, best, n);
        NoneFromNext(v, cur, n);
        match_start := cur;
        best', better, earlier' := n, true, best;
      } else {
        if n != 0 && n < best { LongerNot(window[..], cur, strstart, n, best); }
        NoneFromNext(v, cur, best);
      }
      VIs(end);
    }

    /** Where a link leads, or that the search is over. */
    lemma {:induction false} FollowLink(v: View, c: nat, q: nat, limit: nat, best: nat, left: nat, chain: nat)
      requires Candidate(v, c, v.str) && NoneFrom(v, c, best) && Latest(v, KeyAt(v, v.str), q, c)
        && (q == NIL || q < c) && left >= 1
      requires limit == (if v.str > MaxDist(v.w) then v.str - MaxDist(v.w) else 0)
        && left + Rivals(v, c + 1, v.str) == chain
      ensures q <= limit || left == 1 ==> Exhausted(v, best, chain)
      ensures q > limit ==> NoneFrom(v, q + 1, best) && left - 1 + Rivals(v, q + 1, v.str) == chain
    {
      hide *;
      CandidateIs(v, c, v.str);
      RivalsStep(v, c);
      NoneFromLink(v, c, q, best);
      NilIs();
      if q <= limit {
        ExhaustedAtLimit(v, q, limit, best, chain);
      } else {
        RivalsLink(v, c, q);
        if left == 1 { ExhaustedChain(v, c, best, chain); }
      }
    }

    lemma {:induction false} BestNone(v: View, start: int, prev: nat, earlier: nat, nice: nat)
      ensures BestSoFar(v, start, prev, prev, earlier, nice)
    {
    }

    lemma {:induction false} NilIs()
      ensures NIL == 0
    {
    }

    /**
     * The longest match for the string at strstart, if it is longer than prev_length, and of several of this length
     * the nearest. The search ends with a match of nice length, at the limit of distance, or when as many positions
     * with the same key have been tried as the chain may be long; otherwise no position is left out.
     */
    method LongestMatch(cur_match: nat, ghost end: nat) returns (len: nat)
      requires Shape() && Windowed(V(end)) && Chains(V(end), strstart + 1) && Candidate(V(end), cur_match, strstart)
      requires strstart - cur_match <= MaxDist(w_size) && strstart + 262 <= window.Length && 3 <= lookahead
        && end == strstart + lookahead
      requires 1 <= prev_length <= 258 && Latest(V(end), KeyAt(V(end), strstart), cur_match, strstart)
      modifies this`match_start
      ensures match_start == old(match_start) || match_start < 2 * w_size
      ensures len <= lookahead && len <= 258 && (len >= prev_length || len == lookahead)
      ensures 4 <= config.chain && Found(end, len, ChainLength(), NiceMatch())
    {
      hide *;
      ShapeIs();
      LimitsAre();
      ghost var v := V(end);
      VIs(end);
      var chain_length := config.chain;
      var cur: nat := cur_match;
      var best_len := prev_length;
      var nice_match := config.nice;
      var limit := if strstart > w_size - 262 then strstart - (w_size - 262) else 0;
      if prev_length >= config.good { chain_length := chain_length / 4; }
      if nice_match > lookahead { nice_match := lookahead; }
      ghost var chain := chain_length;
      ghost var earlier: nat := prev_length;
      NothingAbove(v, cur, best_len);
      BestNone(v, match_start, prev_length, earlier, nice_match);
      LimitIs(v, limit);
      LimitsHere();
      CandidateIs(v, cur, strstart);
      NoRivals(v, cur, cur + 1, strstart);
      while true
        invariant Candidate(v, cur, strstart) && strstart - cur <= w_size - 262 && chain_length >= 1
          && prev_length <= best_len <= 258
        invariant match_start == old(match_start) || match_start < 2 * w_size
        invariant V(end) == v && NoneFrom(v, cur + 1, best_len) && chain_length + Rivals(v, cur + 1, strstart) == chain
        invariant BestSoFar(v, match_start, prev_length, best_len, earlier, nice_match)
        invariant best_len == prev_length || best_len < nice_match
        decreases chain_length
      {
        CandidateIs(v, cur, strstart);
        assert strstart + 262 <= window.Length;
        var better;
        ghost var best := best_len;
        best_len, better, earlier := TryLonger(cur, best_len, earlier, end);
        VIs(end);
        if better { BestIs(v, cur, prev_length, best_len, best, nice_match); }
        if better && best_len >= nice_match { break; }
        NextCandidate(v, cur, strstart, strstart + 1);
        assert prev[Slot(cur, w_size)] == v.prev[Slot(cur, v.w)];
        FollowLink(v, cur, v.prev[Slot(cur, v.w)], limit, best_len, chain_length, chain);
        cur := prev[Slot(cur, w_size)];
        if !(cur > limit) { break; }
        chain_length := chain_length - 1;
        if chain_length == 0 { break; }
      }
      len := if best_len <= lookahead then best_len else lookahead;
      VIs(end);
      FoundBy(end, best_len, len, earlier, chain, nice_match);
    }

    lemma {:induction false} LimitsHere()
      requires 4 <= config.chain
      ensures ChainLength() == if prev_length >= config.good then config.chain / 4 else config.chain
      ensures NiceMatch() == if config.nice > lookahead then lookahead else config.nice
    {
    }

    lemma {:induction false} FoundBy(end: nat, best: nat, len: nat, earlier: nat, chain: nat, nice: nat)
      requires nice <= lookahead && end == strstart + lookahead && strstart + 262 <= window.Length
        && prev_length <= best <= 258 && len == if best <= lookahead then best else lookahead
      requires best < nice || best == prev_length ==> Exhausted(V(end), best, chain)
      requires BestSoFar(V(end), match_start, prev_length, best, earlier, nice)
      ensures Found(end, len, chain, nice)
    {
      hide NoneFrom, Exhausted, Matches;
      if len > prev_length {
        MatchLess(window[..], match_start, strstart, best, len);
        NoneFromLonger(V(end), match_start + 1, earlier, len - 1);
      }
    }

    lemma {:induction false} LimitIs(v: View, limit: nat)
      requires limit == (if strstart > w_size - 262 then strstart - (w_size - 262) else 0) && Shape()
      requires v.str == strstart && v.w == w_size
      ensures limit == if v.str > MaxDist(v.w) then v.str - MaxDist(v.w) else 0
    {
    }

    lemma {:induction false} NothingAbove(v: View, cur: nat, len: nat)
      requires Latest(v, KeyAt(v, v.str), cur, v.str)
      ensures NoneFrom(v, cur + 1, len)
    {
      hide KeyAt, Matches;
      forall x: nat | cur + 1 <= x ensures !Alike(v, x) {
        if x in v.ins { assert x in v.ins; }
      }
    }

    lemma {:induction false} RivalsStep(v: View, c: nat)
      requires Candidate(v, c, v.str)
      ensures Rivals(v, c, v.str) == Rivals(v, c + 1, v.str) + 1
    {
      hide KeyAt;
      RivalsSplit(v, c, c + 1, v.str);
      assert Alike(v, c);
      assert Rivals(v, c, c) == 0;
    }

    lemma {:induction false} RivalsLink(v: View, c: nat, q: nat)
      requires Latest(v, KeyAt(v, v.str), q, c) && q < c < v.str
      ensures Rivals(v, q + 1, v.str) == Rivals(v, c, v.str)
    {
      hide KeyAt, Latest;
      RivalsSplit(v, q + 1, c, v.str);
      NoRivals(v, q, q + 1, c);
    }

    lemma {:induction false} LongerNot(win: seq<byte>, c: nat, p: nat, n: nat, len: nat)
      requires n < 258 ==> !Matches(win, c, p, n + 1)
      requires n <= len <= 258
      ensures len < 258 ==> !Matches(win, c, p, len + 1)
    {
      if len < 258 && Matches(win, c, p, len + 1) { MatchLess(win, c, p, len + 1, n + 1); }
    }

    lemma {:induction false} LimitsAre()
      requires Shape()
      ensures MaxDist(w_size) == w_size - 262 && MAX_MATCH == 258 && MIN_MATCH == 3 && MIN_LOOKAHEAD == 262 && NIL == 0
    {
    }

    // ----- fill_window

    method SlideTable(table: array<nat>, n: nat)
      requires n == table.Length
      modifies table
      ensures forall j {:trigger table[j]} :: 0 <= j < n ==> table[j] == Down(old(table[j]), w_size)
    {
      var i := n;
      while i > 0
        invariant 0 <= i <= n
        invariant forall j {:trigger table[j]} :: i <= j < n ==> table[j] == Down(old(table[j]), w_size)
        invariant forall j {:trigger table[j]} :: 0 <= j < i ==> table[j] == old(table[j])
      {
        i := i - 1;
        var m := table[i];
        table[i] := if m >= w_size then m - w_size else NIL;
      }
    }

    /** The upper half of the window, n bytes of it, to the lower. */
    method CopyDown(n: nat)
      requires n <= w_size && window.Length == 2 * w_size
      modifies window
      ensures forall x {:trigger window[x]} :: 0 <= x < n ==> window[x] == old(window[x + w_size])
    {
      ghost var win := window[..];
      var i := 0;
      while i < n
        invariant 0 <= i <= n
        invariant forall x {:trigger window[x]} :: 0 <= x < i ==> window[x] == win[x + w_size]
        invariant forall x {:trigger window[x]} :: i <= x < window.Length ==> window[x] == win[x]
      {
        window[i] := window[w_size + i];
        i := i + 1;
      }
    }

    /** Moves the upper half of the window down, positions and all. */
    method Slide(more: nat, ghost end: nat)
      requires Shape() && Windowed(V(end)) && strstart >= w_size && end <= 2 * w_size && more == 2 * w_size - end
        && strstart <= end && match_start < 0x1_0000_0000
      modifies this`strstart, this`match_start, this`insert, this`ins, window, head, prev
      ensures strstart == old(strstart) - w_size && Slid(old(V(end)), V(end - w_size))
      ensures insert == if old(insert) > strstart then strstart else old(insert)
      ensures match_start < 0x1_0000_0000 && U32(strstart - match_start) == U32(old(strstart) - old(match_start))
    {
      hide *;
      ShapeIs();
      ghost var v := V(end);
      VIs(end);
      CopyDown(w_size - more);
      WrapDown(strstart, match_start, w_size);
      match_start := U32(match_start - w_size);
      strstart := strstart - w_size;
      if insert > strstart { insert := strstart; }
      assert head[..] == v.head && prev[..] == v.prev;
      SlideTable(head, head.Length);
      assert forall j {:trigger prev[j]} :: 0 <= j < prev.Length ==> prev[j] == v.prev[j];
      SlideTable(prev, w_size);
      ins := MovedDown(ins, w_size);
      VIs(end - w_size);
      SlidBy(v, V(end - w_size));
    }

    lemma {:induction false} SlidBy(v: View, u: View)
      requires v.w <= v.str <= v.end <= 2 * v.w && u.bits == v.bits && u.shift == v.shift && u.w == v.w
        && u.data == v.data && u.insH == v.insH
      requires u.end == v.end - v.w && u.str == v.str - v.w && |u.win| == |v.win| == 2 * v.w
      requires forall x {:trigger u.win[x]} :: 0 <= x < u.end ==> u.win[x] == v.win[x + v.w]
      requires |u.head| == |v.head| && forall j {:trigger u.head[j]} :: 0 <= j < |u.head| ==>
        u.head[j] == Down(v.head[j], v.w)
      requires |u.prev| == |v.prev| && forall j {:trigger u.prev[j]} :: 0 <= j < |u.prev| ==>
        u.prev[j] == Down(v.prev[j], v.w)
      requires u.ins == MovedDown(v.ins, v.w)
      ensures Slid(v, u)
    {
    }

    lemma {:induction false} WrapDown(a: nat, b: nat, w: nat)
      requires b < 0x1_0000_0000
      ensures U32(b - w) < 0x1_0000_0000 && U32((a - w) - U32(b - w)) == U32(a - b)
    {
    }

    /** read_buf: input behind the lookahead. */
    method ReadBuf(strm: ZStream, buf: nat, size: nat) returns (n: nat)
      requires buf + size <= window.Length
      modifies strm`next_in, this`consumed, window
      ensures n == (if |old(strm.next_in)| <= size then |old(strm.next_in)| else size)
      ensures strm.next_in == old(strm.next_in)[n..] && consumed == old(consumed) + old(strm.next_in)[..n]
      ensures window[..buf] == old(window[..buf]) && window[buf..buf + n] == old(strm.next_in)[..n]
    {
      n := |strm.next_in|;
      if n > size { n := size; }
      ghost var win := window[..];
      ghost var input := strm.next_in;
      var i := 0;
      while i < n
        invariant 0 <= i <= n <= |input| && strm.next_in == input
        invariant forall x {:trigger window[x]} :: 0 <= x < buf ==> window[x] == win[x]
        invariant forall x {:trigger window[x]} :: buf <= x < buf + i ==> window[x] == input[x - buf]
        modifies window
      {
        window[buf + i] := strm.next_in[i];
        i := i + 1;
      }
      consumed := consumed + input[..n];
      strm.next_in := strm.next_in[n..];
    }

    /** Zeroes bytes behind the data that have never been written. */
    method ZeroBehind(ghost end: nat, curr: nat)
      requires curr == end <= window.Length
      modifies this`high_water, window
      ensures window[..end] == old(window[..end])
    {
      if high_water < window.Length {
        var from, init := 0, 0;
        if high_water < curr {
          init := window.Length - curr;
          if init > WIN_INIT { init := WIN_INIT; }
          from := curr;
          high_water := curr + init;
        } else if high_water < curr + WIN_INIT {
          init := curr + WIN_INIT - high_water;
          if init > window.Length - high_water { init := window.Length - high_water; }
          from := high_water;
          high_water := high_water + init;
        }
        var i := 0;
        ghost var win := window[..];
        while i < init
          invariant 0 <= i <= init && (forall x {:trigger window[x]} :: 0 <= x < end ==> window[x] == win[x])
          modifies window
        {
          window[from + i] := 0;
          i := i + 1;
        }
        assert window[..end] == win[..end];
      }
    }

    /** Hashes begun afresh, and the strings inserted that could not be before. */
    method HashNewInput(ghost end: nat)
      requires Shape() && Slack(V(end), insert) && end == strstart + lookahead
      modifies this`ins_h, this`ins, this`insert, head, prev
      ensures insert <= old(insert) && Dictionary(V(end), insert) && old(ins) <= ins
    {
      hide *;
      ShapeIs();
      LimitsAre();
      VIs(end);
      SlackIs(V(end), insert);
      if lookahead + insert >= 3 {
        var str := strstart - insert;
        ins_h := window[str];
        ins_h := Update(hash_bits, hash_shift, ins_h, window[str + 1]);
        VIs(end);
        ChainsHash(old(V(end)), V(end), str);
        StartReady(V(end), str);
        while insert != 0
          invariant str == strstart - insert && insert <= old(insert) && lookahead + insert >= 3
            && end == strstart + lookahead
          invariant Windowed(V(end)) && Chains(V(end), str) && Ready(V(end), str) && old(ins) <= ins
        {
          ghost var v := V(end);
          VIs(end);
          InsertFits(v, str, str);
          InsertKeeps(v, str, str);
          SameKeyAt(v, str);
          var _ := InsertString(str, end);
          InsertedReady(v, str);
          VIs(end);
          str := str + 1;
          insert := insert - 1;
          VIs(end);
          assert V(end) == Inserted(v, str - 1);
          if lookahead + insert < 3 { break; }
        }
        VIs(end);
        SlackBy(V(end), insert);
      }
      VIs(end);
      SlackDictionary(V(end), insert);
    }

    lemma {:induction false} SlackBy(v: View, insert: nat)
      requires Windowed(v) && insert <= v.str && Chains(v, v.str - insert)
      ensures Slack(v, insert)
    {
    }

    lemma {:induction false} ChainsHash(v: View, u: View, top: int)
      requires Windowed(v) && Chains(v, top) && u == v.(insH := u.insH)
      ensures Windowed(u) && Chains(u, top)
    {
      ChainsMove(v, u, top, top);
    }

    lemma {:induction false} InsertedReady(v: View, p: nat)
      requires Params(v.bits, v.shift) && p + 3 <= |v.win| && KeyAt(v, p) < |v.head| && Slot(p, v.w) < |v.prev|
      ensures Ready(Inserted(v, p), p + 1)
    {
      hide Key, Update, Ready;
      SameKey(v, p);
      InsertReady(Inserted(v, p), p);
    }

    /** One turn of the loop in fill_window, up to where it finds no input. */
    method SlideIfFull()
      requires Shape() && Slack(V(strstart + lookahead), insert) && match_start < 0x1_0000_0000 && lookahead < 262
      modifies this`strstart, this`match_start, this`insert, this`ins, window, head, prev
      ensures Slack(V(strstart + lookahead), insert)
        && (Dictionary(old(V(strstart + lookahead)), old(insert)) ==> Dictionary(V(strstart + lookahead), insert))
      ensures match_start < 0x1_0000_0000 && U32(strstart - match_start) == U32(old(strstart) - old(match_start))
      ensures strstart + 262 <= 2 * w_size && (old(strstart) >= 1 ==> strstart >= 1)
      ensures Carried(old(V(strstart + lookahead)), V(strstart + lookahead))
    {
      hide *;
      ShapeIs();
      LimitsAre();
      ghost var v := V(strstart + lookahead);
      CarriedSame(v, v);
      VIs(strstart + lookahead);
      SlackIs(v, insert);
      var more := 2 * w_size - lookahead - strstart;
      if strstart >= w_size + (w_size - 262) {
        Slide(more, strstart + lookahead);
        ghost var u := V(strstart + lookahead);
        VIs(strstart + lookahead);
        SlideKeeps(v, u, old(insert), insert);
        CarriedSlide(v, u);
        SlackBy(u, insert);
        if Dictionary(v, old(insert)) { SlideDictionary(v, u, old(insert), insert); }
      }
    }

    /** The rest of the turn: reading, and hashing what was read. */
    method ReadMore(strm: ZStream)
      requires Shape() && Slack(V(strstart + lookahead), insert) && strm.next_in != [] && lookahead < 262
        && strstart + 262 <= 2 * w_size
      modifies this`lookahead, this`insert, this`ins_h, this`consumed, this`ins, window, head, prev, strm`next_in
      ensures old(lookahead) < lookahead <= old(lookahead) + |old(strm.next_in)|
        && Dictionary(V(strstart + lookahead), insert)
      ensures var n := lookahead - old(lookahead);
        strm.next_in == old(strm.next_in)[n..] && consumed == old(consumed) + old(strm.next_in)[..n]
      ensures Carried(old(V(strstart + lookahead)), V(strstart + lookahead))
    {
      hide *;
      ShapeIs();
      LimitsAre();
      ghost var end := strstart + lookahead;
      ghost var v := V(end);
      VIs(end);
      SlackIs(v, insert);
      ghost var input := strm.next_in;
      var n := ReadBuf(strm, strstart + lookahead, 2 * w_size - lookahead - strstart);
      lookahead := lookahead + n;
      VIs(end + n);
      assert head[..] == v.head && prev[..] == v.prev;
      ReadKeeps(v, V(end + n), insert, input[..n]);
      HashNewInput(end + n);
      VIs(end + n);
      BaseIs(v, V(end + n));
      CarriedSame(v, V(end + n));
    }

    lemma {:induction false} BaseIs(v: View, u: View)
      requires |u.data| - u.end == |v.data| - v.end
      ensures Base(u) == Base(v)
    {
    }

    /** The loop of fill_window. */
    method FillLoop(strm: ZStream)
      requires Shape() && Slack(V(strstart + lookahead), insert) && match_start < 0x1_0000_0000 && lookahead < 262
      modifies this`strstart, this`lookahead, this`insert, this`match_start, this`ins_h, this`consumed, this`ins
      modifies window, head, prev, strm`next_in
      ensures Slack(V(strstart + lookahead), insert)
        && (Dictionary(old(V(strstart + lookahead)), old(insert)) ==> Dictionary(V(strstart + lookahead), insert))
      ensures match_start < 0x1_0000_0000 && U32(strstart - match_start) == U32(old(strstart) - old(match_start))
      ensures strstart + 262 <= 2 * w_size && (old(strstart) >= 1 ==> strstart >= 1)
      ensures lookahead >= 262 || strm.next_in == []
      ensures old(lookahead) <= lookahead <= old(lookahead) + |old(strm.next_in)|
      ensures var n := lookahead - old(lookahead);
        strm.next_in == old(strm.next_in)[n..] && consumed == old(consumed) + old(strm.next_in)[..n]
      ensures Carried(old(V(strstart + lookahead)), V(strstart + lookahead))
    {
      hide *;
      ShapeIs();
      ghost var v0 := V(strstart + lookahead);
      CarriedSame(v0, v0);
      ghost var input, data := strm.next_in, consumed;
      ghost var held := Dictionary(V(strstart + lookahead), insert);
      ghost var k := 0;
      while true
        invariant Slack(V(strstart + lookahead), insert) && (held ==> Dictionary(V(strstart + lookahead), insert))
        invariant match_start < 0x1_0000_0000 && U32(strstart - match_start) == U32(old(strstart) - old(match_start))
        invariant lookahead < 262 && (old(strstart) >= 1 ==> strstart >= 1)
        invariant 0 <= k <= |input| && lookahead == old(lookahead) + k && strm.next_in == input[k..]
          && consumed == data + input[..k]
        invariant Carried(v0, V(strstart + lookahead))
        decreases |input| - k
      {
        ghost var v1 := V(strstart + lookahead);
        SlideIfFull();
        CarriedOn(v0, v1, V(strstart + lookahead));
        v1 := V(strstart + lookahead);
        if strm.next_in == [] { break; }
        ReadMore(strm);
        CarriedOn(v0, v1, V(strstart + lookahead));
        DictionarySlack(V(strstart + lookahead), insert);
        ghost var n := lookahead - old(lookahead) - k;
        assert input[k..][n..] == input[k + n..] && input[..k] + input[k..][..n] == input[..k + n];
        assert data + input[..k] + input[k..][..n] == data + (input[..k] + input[k..][..n]);
        k := k + n;
        if !(lookahead < 262 && strm.next_in != []) { break; }
      }
    }

    /** fill_window. */
    method FillWindow(strm: ZStream)
      requires Shape() && Slack(V(strstart + lookahead), insert) && match_start < 0x1_0000_0000 && lookahead < 262
      modifies this`strstart, this`lookahead, this`insert, this`match_start, this`ins_h, this`high_water, this`consumed,
        this`ins
      modifies window, head, prev, strm`next_in
      ensures Slack(V(strstart + lookahead), insert)
        && (Dictionary(old(V(strstart + lookahead)), old(insert)) ==> Dictionary(V(strstart + lookahead), insert))
      ensures match_start < 0x1_0000_0000 && U32(strstart - match_start) == U32(old(strstart) - old(match_start))
      ensures strstart + 262 <= 2 * w_size && (old(strstart) >= 1 ==> strstart >= 1)
      ensures lookahead >= 262 || strm.next_in == []
      ensures old(lookahead) <= lookahead <= old(lookahead) + |old(strm.next_in)|
      ensures var n := lookahead - old(lookahead);
        strm.next_in == old(strm.next_in)[n..] && consumed == old(consumed) + old(strm.next_in)[..n]
      ensures Carried(old(V(strstart + lookahead)), V(strstart + lookahead))
    {
      hide *;
      ghost var v0 := V(strstart + lookahead);
      FillLoop(strm);
      ghost var end := strstart + lookahead;
      ghost var v := V(end);
      VIs(end);
      SlackIs(v, insert);
      ZeroBehind(end, strstart + lookahead);
      VIs(end);
      assert head[..] == v.head && prev[..] == v.prev;
      BehindKeeps(v, V(end), insert);
      BaseIs(v, V(end));
      CarriedSame(v, V(end));
      CarriedOn(v0, v, V(end));
    }

    // ----- the symbol buffer

    method Put(t: Token, a: byte, b: byte, c: byte) returns (bflush: bool)
      requires Shape() && Buffered() && sym_next < sym_end && TokenBytes(t) == [a, b, c]
      requires t.Copy? ==> 1 <= t.dist < 0x1_0000 && 3 <= t.len <= 258
      modifies this`sym_next, sym_buf
      ensures Buffered() && Tokens() == old(Tokens()) + [t] && (bflush <==> sym_next == sym_end)
    {
      hide TokensIn, TokenBytes, Params, Pow2;
      ghost var buf, n := sym_buf[..], sym_next;
      sym_buf[sym_next] := a;
      sym_buf[sym_next + 1] := b;
      sym_buf[sym_next + 2] := c;
      sym_next := sym_next + 3;
      assert sym_buf[..][..n] == buf[..n] && sym_buf[..][n..n + 3] == [a, b, c];
      TokenWritten(buf, sym_buf[..], n, t);
      bflush := sym_next == sym_end;
    }

    /** _tr_tally_lit. */
    method TallyLit(c: byte) returns (bflush: bool)
      requires Shape() && Buffered() && sym_next < sym_end
      modifies this`sym_next, sym_buf
      ensures Buffered() && Tokens() == old(Tokens()) + [Literal(c)] && (bflush <==> sym_next == sym_end)
    {
      bflush := Put(Literal(c), 0, 0, c);
    }

    /** _tr_tally_dist. */
    method TallyDist(distance: nat, length: nat) returns (bflush: bool)
      requires Shape() && Buffered() && sym_next < sym_end && 1 <= distance < 0x1_0000 && length <= 255
      modifies this`sym_next, sym_buf
      ensures Buffered() && Tokens() == old(Tokens()) + [Copy(distance, length + 3)]
        && (bflush <==> sym_next == sym_end)
    {
      bflush := Put(Copy(distance, length + 3), distance % 256, distance / 256 % 256, length % 256);
    }

    /**
     * FLUSH_BLOCK_ONLY, as far as the symbols go: they leave the buffer. How much output room it takes is not known.
     */
    method FlushBlock(strm: ZStream)
      requires Shape() && Buffered()
      modifies this`sym_next, this`flushed, strm`avail_out
      ensures sym_next == 0 && Buffered() && Tokens() == old(Tokens())
      ensures strm.avail_out <= old(strm.avail_out) && old(flushed) <= flushed
      ensures old(sym_next) > 0 ==> Spent(old(flushed), old(strm.avail_out), flushed, strm.avail_out)
    {
      flushed := Tokens();
      sym_next := 0;
      assert flushed + [] == flushed;
      var room: nat :| room <= strm.avail_out;
      strm.avail_out := room;
    }

    // ----- steps that the loops share

    /** Inserts the string at strstart. */
    method InsertHere(ghost end: nat) returns (hash_head: nat)
      requires Shape() && Dictionary(V(end), insert) && end - strstart >= 3
      modifies this`ins_h, this`ins, head, prev
      ensures insert == 0 && Current(V(end), 0) && Chains(V(end), strstart + 1) && Windowed(V(end))
      ensures hash_head != NIL ==> Candidate(V(end), hash_head, strstart)
      ensures Latest(V(end), KeyAt(V(end), strstart), hash_head, strstart)
      ensures ins == old(ins) + {strstart}
    {
      hide *;
      ShapeIs();
      LimitsAre();
      VIs(end);
      ghost var v := V(end);
      SameKeyAt(v, strstart);
      InsertCurrent(v, insert);
      DictionarySlack(v, insert);
      SlackIs(v, insert);
      hash_head := InsertString(strstart, end);
      VIs(end);
      CurrentIs(V(end));
    }

    lemma {:induction false} SameKeyAt(v: View, p: nat)
      ensures p + 3 <= |v.win| && KeyAt(v, p) < |v.head| && Slot(p, v.w) < |v.prev| ==>
        KeyAt(Inserted(v, p), p) == KeyAt(v, p) && Inserted(v, p).ins == v.ins + {p}
    {
      hide Key;
    }

    lemma {:induction false} CurrentIs(v: View)
      requires Current(v, 0) && v.end - v.str >= 3
      ensures Windowed(v) && Chains(v, v.str + 1)
    {
      hide Chains;
    }

    /** Inserts the string at strstart if it has three bytes. */
    method InsertIfLong() returns (hash_head: nat)
      requires Shape() && Dictionary(V(strstart + lookahead), insert)
      modifies this`ins_h, this`ins, head, prev
      ensures Current(V(strstart + lookahead), insert)
      ensures hash_head != NIL ==> lookahead >= 3 && Candidate(V(strstart + lookahead), hash_head, strstart)
      ensures lookahead >= 3 ==>
        Latest(V(strstart + lookahead), KeyAt(V(strstart + lookahead), strstart), hash_head, strstart)
      ensures ins == if lookahead >= 3 then old(ins) + {strstart} else old(ins)
    {
      hide *;
      LimitsAre();
      hash_head := 0;
      VIs(strstart + lookahead);
      if lookahead >= 3 {
        hash_head := InsertHere(strstart + lookahead);
      } else {
        TooShort(V(strstart + lookahead), insert);
      }
    }

    /** Moves on by one byte. */
    method MoveOn(ghost end: nat)
      requires Shape() && Current(V(end), insert) && strstart < end
      modifies this`strstart
      ensures strstart == old(strstart) + 1 && Dictionary(V(end), insert)
    {
      hide *;
      ghost var v := V(end);
      VIs(end);
      StepOne(v, insert);
      strstart := strstart + 1;
      VIs(end);
    }

    lemma {:induction false} WindowByte(end: nat, p: nat)
      requires Shape() && Windowed(V(end)) && p < end
      ensures end <= window.Length && end <= |consumed| && window[p] == consumed[|consumed| - end + p]
    {
      assert window[..][p] == window[p];
    }

    lemma {:induction false} CurrentWindowed(v: View, insert: nat)
      requires Current(v, insert) || Slack(v, insert) || Dictionary(v, insert)
      ensures Windowed(v) && v.str <= v.end <= 2 * v.w == |v.win| && v.end <= |v.data| && insert <= v.str
    {
      hide Chains, Ready;
    }

    /** What a literal adds. */
    lemma {:induction false} LiteralCodes(ts: seq<Token>, end: nat, p: nat)
      requires Shape() && Windowed(V(end)) && p < end && Codes(ts, consumed, |consumed| - end + p, MaxDist(w_size))
      ensures end <= window.Length
        && Codes(ts + [Literal(window[p])], consumed, |consumed| - end + p + 1, MaxDist(w_size))
    {
      hide Codes, Windowed;
      WindowByte(end, p);
      CodesLiteral(ts, consumed, |consumed| - end + p, MaxDist(w_size));
    }

    /** What a match adds. */
    lemma {:induction false} MatchCodes(ts: seq<Token>, end: nat, c: nat, p: nat, len: nat)
      requires Shape() && Windowed(V(end)) && Matches(window[..], c, p, len) && p + len <= end && 3 <= len <= 258
        && p - c <= MaxDist(w_size)
      requires Codes(ts, consumed, |consumed| - end + p, MaxDist(w_size))
      ensures c < p && Codes(ts + [Copy(p - c, len)], consumed, |consumed| - end + p + len, MaxDist(w_size))
    {
      hide Codes, Windowed, Matches, Repeats;
      MatchSize(window[..], c, p, len);
      MatchRepeats(V(end), c, p, len);
      CodesCopy(ts, consumed, |consumed| - end + p, MaxDist(w_size), p - c, len);
    }
  }
}
