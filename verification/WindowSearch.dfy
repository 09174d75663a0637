/** What a search in the window says of the data: longest_match against the positions of the whole input. */
module WindowSearch {
  import opened Bytes
  import opened HashKey
  import opened Lz77
  import opened HashChains
  import opened Parsing

  /** Where the window begins in the data. */
  function Base(v: View): int {
    |v.data| - v.end
  }

  ghost predicate LimitsOf(p: Limits, v: View) {
    p.bits == v.bits && p.shift == v.shift && p.maxDist == MaxDist(v.w)
  }

  /** Of the known positions in the window all have been inserted, but for those near a cut. */
  ghost predicate Stocked(v: View, known: Known, cuts: set<nat>) {
    forall x: nat {:trigger x in v.ins} ::
      x < v.str && 0 <= Base(v) && Listed(known, Base(v) + x) && !Cut(cuts, Base(v) + x, 3) ==> x in v.ins
  }

  /** Once the window has moved, everything within the greatest distance is in it. */
  ghost predicate Deep(v: View) {
    Base(v) > 0 ==> v.str >= MaxDist(v.w)
  }

  /** Near the end of the input there is a cut. */
  ghost predicate Ended(v: View, cuts: set<nat>) {
    v.end - v.str < MIN_LOOKAHEAD ==> |v.data| in cuts
  }

  /** What a search needs. */
  ghost predicate Searchable(v: View, p: Limits, known: Known, cuts: set<nat>) {
    && Windowed(v) && LimitsOf(p, v) && Stocked(v, known, cuts) && Deep(v) && Ended(v, cuts)
    && v.str < v.end && (v.end - v.str >= MIN_MATCH ==> Below(v, v.str + 1))
  }

  lemma {:induction false} WindowByte(v: View, x: nat)
    requires Windowed(v) && x < v.end
    ensures 0 <= Base(v) + x < |v.data| && v.win[x] == v.data[Base(v) + x]
  {
  }

  lemma {:induction false} KeyIs(v: View, p: Limits, x: nat)
    requires Windowed(v) && LimitsOf(p, v) && x + 3 <= v.end
    ensures 0 <= Base(v) + x && Base(v) + x + 3 <= |v.data|
    ensures KeyAt(v, x)
      == Key(p.bits, p.shift, v.data[Base(v) + x], v.data[Base(v) + x + 1], v.data[Base(v) + x + 2])
  {
    hide Key;
    WindowByte(v, x);
    WindowByte(v, x + 1);
    WindowByte(v, x + 2);
  }

  /** In the window there are no more of them than in the data. */
  lemma {:induction false} RivalsBetween(v: View, p: Limits, lo: nat, hi: nat)
    requires Windowed(v) && LimitsOf(p, v) && Below(v, v.str + 1) && hi <= v.str && v.str + 3 <= v.end
    ensures 0 <= Base(v) && Rivals(v, lo, hi) <= Between(v.data, p, Base(v) + lo, Base(v) + hi, Base(v) + v.str)
    decreases hi
  {
    hide Key, KeyAt;
    if lo < hi {
      RivalsBetween(v, p, lo, hi - 1);
      if Alike(v, hi - 1) {
        KeyIs(v, p, hi - 1);
        KeyIs(v, p, v.str);
      }
    }
  }

  /** The same bytes in the window and in the data. */
  lemma {:induction false} MatchesRepeats(v: View, x: nat, len: nat)
    requires Windowed(v) && x < v.str && v.str + len <= v.end
    ensures Matches(v.win, x, v.str, len) <==> Repeats(v.data, Base(v) + v.str, v.str - x, len)
  {
    hide Repeats, Windowed;
    if Repeats(v.data, Base(v) + v.str, v.str - x, len) { RepeatsMatches(v, x, len); }
    if Matches(v.win, x, v.str, len) {
      hide Matches;
      MatchRepeats(v, x, v.str, len);
    }
  }

  lemma {:induction false} RepeatsMatches(v: View, x: nat, len: nat)
    requires Windowed(v) && x < v.str && v.str + len <= v.end && Repeats(v.data, Base(v) + v.str, v.str - x, len)
    ensures Matches(v.win, x, v.str, len)
  {
    forall y | v.str <= y < v.str + len ensures v.win[y] == v.win[y - (v.str - x)] {
      assert v.data[Base(v) + y] == v.data[Base(v) + y - (v.str - x)];
    }
  }

  lemma {:induction false} NotInWindow(v: View, cuts: set<nat>, x: nat, len: nat)
    requires Windowed(v) && Ended(v, cuts) && x < v.str < v.end && len <= MIN_LOOKAHEAD
      && !Matches(v.win, x, v.str, len)
    ensures NoMatch(v.data, cuts, Base(v) + v.str, Base(v) + x, len)
  {
    hide Matches, Repeats;
    if v.str + len <= v.end {
      MatchesRepeats(v, x, len);
      DistanceIs(v, x);
    } else {
      assert |v.data| in cuts;
    }
  }

  lemma {:induction false} DistanceIs(v: View, x: int)
    ensures Base(v) + v.str - (Base(v) + x) == v.str - x
  {
  }

  lemma {:induction false} SameBytes(v: View, x: nat)
    requires x < v.str && v.str + 3 <= |v.win| && Matches(v.win, x, v.str, 3)
    ensures KeyAt(v, x) == KeyAt(v, v.str)
  {
    hide Key;
    assert v.win[v.str] == v.win[v.str - (v.str - x)] && v.win[v.str + 1] == v.win[v.str + 1 - (v.str - x)]
      && v.win[v.str + 2] == v.win[v.str + 2 - (v.str - x)];
  }

  lemma {:induction false} OtherKey(v: View, x: nat)
    requires x < v.str && v.str + 3 <= |v.win| && KeyAt(v, x) != KeyAt(v, v.str)
    ensures !Matches(v.win, x, v.str, 3)
  {
    if Matches(v.win, x, v.str, 3) { SameBytes(v, x); }
  }

  lemma {:induction false} LessMatches(win: seq<byte>, x: int, p: int, len: int, len': int)
    requires Matches(win, x, p, len) && 0 <= len' <= len
    ensures Matches(win, x, p, len')
  {
  }

  /** A position in reach is in the window, and if it has the key of the current one it is among those to be tried. */
  lemma {:induction false} ReachAlike(v: View, p: Limits, known: Known, cuts: set<nat>, y: nat, chain: nat)
    requires Searchable(v, p, known, cuts) && v.end - v.str >= MIN_MATCH && Base(v) >= 0
    requires Reach(v.data, p, known, cuts, y, Base(v) + v.str, chain)
    ensures var x := y - Base(v);
      && 0 < x < v.str && v.str - x < MaxDist(v.w) && x in v.ins && Rivals(v, x + 1, v.str) < chain
  {
    hide Between, Cut, Rivals, Windowed, Below;
    var x := y - Base(v);
    RivalsBetween(v, p, x + 1, v.str);
  }

  /** The search has left nothing in reach out. */
  lemma {:induction false} ExhaustedNone(v: View, p: Limits, known: Known, cuts: set<nat>, len: nat, chain: nat)
    requires Searchable(v, p, known, cuts) && v.end - v.str >= MIN_MATCH && 2 <= len < MAX_MATCH
      && Exhausted(v, len, chain)
    ensures Base(v) >= 0 && NoneInReach(v.data, p, known, cuts, Base(v) + v.str, len + 1, chain)
  {
    hide Reach, NoMatch, Matches, KeyAt, Rivals, Stocked, Cut, Below;
    var n := Base(v) + v.str;
    forall y: nat | Reach(v.data, p, known, cuts, y, n, chain) ensures NoMatch(v.data, cuts, n, y, len + 1) {
      ReachAlike(v, p, known, cuts, y, chain);
      var x := y - Base(v);
      if KeyAt(v, x) == KeyAt(v, v.str) {
        assert Alike(v, x);
      } else {
        OtherKey(v, x);
        if Matches(v.win, x, v.str, len + 1) { LessMatches(v.win, x, v.str, len + 1, 3); }
      }
      NotInWindow(v, cuts, x, len + 1);
    }
  }

  /** With less than three bytes ahead nothing could be found. */
  lemma {:induction false} ShortNone(v: View, p: Limits, known: Known, cuts: set<nat>, len: nat, chain: nat)
    requires Searchable(v, p, known, cuts) && v.end - v.str < MIN_MATCH && len >= 3
    ensures Base(v) >= 0 && Cut(cuts, Base(v) + v.str, 3)
    ensures NoneInReach(v.data, p, known, cuts, Base(v) + v.str, len, chain)
  {
    hide Reach, NoMatch, Stocked, Below;
    var n := Base(v) + v.str;
    assert |v.data| in cuts;
    forall y: nat | Reach(v.data, p, known, cuts, y, n, chain) ensures NoMatch(v.data, cuts, n, y, len) {
      ShortNoMatch(v.data, cuts, n, y, len);
    }
  }

  /** The nearest of the matches of this length. */
  lemma {:induction false} NearestNone(v: View, p: Limits, known: Known, cuts: set<nat>, start: nat, len: nat)
    requires Searchable(v, p, known, cuts) && v.end - v.str >= MIN_MATCH && 3 <= len <= MAX_MATCH && start < v.str
      && NoneFrom(v, start + 1, len - 1)
    ensures Base(v) >= 0 && NoneNearer(v.data, p, known, cuts, Base(v) + v.str, v.str - start, len)
  {
    hide NoMatch, Matches, KeyAt, Cut, Below, Listed;
    var n := Base(v) + v.str;
    forall y: nat | n - (v.str - start) < y < n && Listed(known, y) && !Cut(cuts, y, 3)
      ensures NoMatch(v.data, cuts, n, y, len)
    {
      var x := y - Base(v);
      assert x in v.ins;
      if KeyAt(v, x) == KeyAt(v, v.str) {
        assert Alike(v, x);
      } else {
        OtherKey(v, x);
        if Matches(v.win, x, v.str, len) { LessMatches(v.win, x, v.str, len, 3); }
      }
      NotInWindow(v, cuts, x, len);
    }
  }

  /** A match found in the window is the best one in the data. */
  lemma {:induction false} BestFound(v: View, p: Limits, known: Known, cuts: set<nat>, start: nat, len: nat, nice: nat,
                                     chain: nat)
    requires Searchable(v, p, known, cuts) && 3 <= len <= v.end - v.str && len <= MAX_MATCH && start < v.str
    requires Matches(v.win, start, v.str, len) && v.str - start <= MaxDist(v.w) && NoneFrom(v, start + 1, len - 1)
    requires len < MAX_MATCH && v.str + len < v.end ==> !Matches(v.win, start, v.str, len + 1)
    requires len < nice ==> Exhausted(v, len, chain)
    requires nice == if p.nice > v.end - v.str then v.end - v.str else p.nice
    ensures Base(v) >= 0 && Best(v.data, p, known, cuts, Base(v) + v.str, v.str - start, len, chain)
  {
    hide Exhausted, NoneFrom, Matches, Repeats, NoneInReach, NoneNearer, Stocked, Below;
    var n := Base(v) + v.str;
    MatchesRepeats(v, start, len);
    NearestNone(v, p, known, cuts, start, len);
    DistanceIs(v, start);
    if len < MAX_MATCH {
      if v.str + len < v.end {
        NotInWindow(v, cuts, start, len + 1);
      } else {
        assert |v.data| in cuts;
      }
    }
    if len < p.nice && len < MAX_MATCH {
      if len < nice { ExhaustedNone(v, p, known, cuts, len, chain); } else { CutNone(v, p, known, cuts, len, chain); }
    }
  }

  /** Where the input ends nothing longer could be seen. */
  lemma {:induction false} CutNone(v: View, p: Limits, known: Known, cuts: set<nat>, len: nat, chain: nat)
    requires Searchable(v, p, known, cuts) && v.end - v.str <= len < MIN_LOOKAHEAD && len >= 2
    ensures Base(v) >= 0 && Cut(cuts, Base(v) + v.str, len + 1)
    ensures NoneInReach(v.data, p, known, cuts, Base(v) + v.str, len + 1, chain)
  {
    hide Reach, Stocked, Below;
    var n := Base(v) + v.str;
    assert |v.data| in cuts;
    forall y: nat | Reach(v.data, p, known, cuts, y, n, chain) ensures NoMatch(v.data, cuts, n, y, len + 1) { }
  }

  /** Nothing is tried if the chain is empty or begins out of reach. */
  lemma {:induction false} HeadOut(v: View, head: nat, len: nat, chain: nat)
    requires Latest(v, KeyAt(v, v.str), head, v.str) && (head == NIL || v.str > head + MaxDist(v.w))
    ensures Exhausted(v, len, chain)
  {
    hide KeyAt, Matches, Rivals;
    forall x: nat | Alike(v, x) ensures x <= head {
      assert x in v.ins;
    }
  }

  // ----- the window moves on

  /** The same place in the data, and nothing that was inserted is lost as long as it is in the window. */
  ghost predicate Carried(v: View, u: View) {
    && Base(v) <= Base(u) && Base(u) + u.str == Base(v) + v.str && (Deep(v) ==> Deep(u))
    && forall x: nat {:trigger x in u.ins} :: x + (Base(u) - Base(v)) in v.ins ==> x in u.ins
  }

  lemma {:induction false} CarriedSame(v: View, u: View)
    requires Base(v) == Base(u) && u.str == v.str && u.w == v.w && v.ins <= u.ins
    ensures Carried(v, u)
  {
  }

  lemma {:induction false} CarriedOn(v: View, u: View, t: View)
    requires Carried(v, u) && Carried(u, t)
    ensures Carried(v, t)
  {
    hide Deep, Base;
    forall x: nat | x + (Base(t) - Base(v)) in v.ins ensures x in t.ins {
      var y := x + (Base(t) - Base(u));
      assert y + (Base(u) - Base(v)) in v.ins;
      assert y in u.ins;
    }
  }

  lemma {:induction false} CarriedSlide(v: View, u: View)
    requires Slid(v, u) && u.str >= MaxDist(u.w)
    ensures Carried(v, u)
  {
    hide Down;
  }

  lemma {:induction false} CarriedStocked(v: View, u: View, known: Known, cuts: set<nat>)
    requires Carried(v, u) && Stocked(v, known, cuts) && Base(v) >= 0
    ensures Stocked(u, known, cuts) && (Deep(v) ==> Deep(u))
  {
    hide Deep, Cut, Listed;
    forall x: nat | x < u.str && 0 <= Base(u) && Listed(known, Base(u) + x) && !Cut(cuts, Base(u) + x, 3)
      ensures x in u.ins
    {
      var y := x + (Base(u) - Base(v));
      assert Base(v) + y == Base(u) + x;
      assert y in v.ins;
    }
  }

  /** A token of len bytes has been made at the current position of v, and u is behind it. */
  ghost predicate Passed(v: View, u: View, len: nat) {
    Base(u) == Base(v) && u.str == v.str + len && u.w == v.w && v.ins <= u.ins
  }

  /** All positions are known, and those passed have been inserted as far as they could be seen. */
  lemma {:induction false} PassedAll(v: View, u: View, len: nat, cuts: set<nat>)
    requires Passed(v, u, len) && Stocked(v, All, cuts) && (Deep(v) ==> Deep(u)) && Base(v) >= 0
    requires forall x: nat {:trigger x in u.ins} :: v.str <= x < u.str ==> x in u.ins || Cut(cuts, Base(v) + x, 3)
    ensures Stocked(u, All, cuts)
  {
    hide Cut, Deep;
    forall x: nat | x < u.str && !Cut(cuts, Base(u) + x, 3) ensures x in u.ins {
      if x < v.str { assert x in v.ins; }
    }
  }

  lemma {:induction false} IndexedNext(ts: seq<Token>, k: nat, p: Limits, cuts: set<nat>)
    requires k < |ts|
    ensures Indexed(ts, k + 1, p, cuts) == Indexed(ts, k, p, cuts) + Places(ts[k], |Expand(ts, k)|, p, cuts)
  {
    hide Places, Expand;
  }

  lemma {:induction false} IndexedBelow(ts: seq<Token>, k: nat, p: Limits, cuts: set<nat>, n: nat)
    requires k <= |ts| && |Expand(ts, k)| <= n && Legal(ts, p.maxDist)
    ensures forall x: nat {:trigger x in Indexed(ts, k, p, cuts)} :: x in Indexed(ts, k, p, cuts) ==> x < n
  {
    hide Cut;
    if k > 0 {
      IndexedBelow(ts, k - 1, p, cuts, |Expand(ts, k - 1)|);
    }
  }

  /** Those that deflate_fast knows. */
  lemma {:induction false} PassedIndexed(v: View, u: View, ts: seq<Token>, t: Token, len: nat, p: Limits,
                                         cuts: set<nat>)
    requires Passed(v, u, len) && Stocked(v, Only(Indexed(ts, |ts|, p, cuts)), cuts) && Base(v) >= 0
    requires |Expand(ts, |ts|)| == Base(v) + v.str && (t.Copy? ==> t.len == len) && len >= 1 && Legal(ts, p.maxDist)
    requires t.Literal? ==> len == 1
    requires v.str in u.ins || Cut(cuts, Base(v) + v.str, 3)
    requires t.Copy? && len <= p.lazy && !Cut(cuts, Base(v) + v.str + len - 1, 4) ==>
      forall x: nat {:trigger x in u.ins} :: v.str <= x < u.str ==> x in u.ins
    ensures Stocked(u, Only(Indexed(ts + [t], |ts| + 1, p, cuts)), cuts)
  {
    hide Cut, Deep, Expand;
    var us, n := ts + [t], Base(v) + v.str;
    ExpandPrefix(ts, us, |ts|);
    IndexedPrefix(ts, us, |ts|, p, cuts);
    IndexedBelow(ts, |ts|, p, cuts, n);
    hide Indexed, Legal;
    IndexedNext(us, |ts|, p, cuts);
    forall x: nat
      | x < u.str && Base(u) + x in Indexed(us, |us|, p, cuts) && !Cut(cuts, Base(u) + x, 3)
      ensures x in u.ins
    {
      if Base(u) + x in Indexed(ts, |ts|, p, cuts) && x < v.str {
        assert Listed(Only(Indexed(ts, |ts|, p, cuts)), Base(v) + x);
        assert x in v.ins;
      }
    }
  }

  /** More cuts. */
  lemma {:induction false} StockedCuts(v: View, known: Known, known': Known, cuts: set<nat>, cuts': set<nat>)
    requires Stocked(v, known, cuts) && cuts <= cuts' && Fewer(known, known')
    ensures Stocked(v, known', cuts')
  {
    hide Cut, Listed;
    forall x: nat | x < v.str && 0 <= Base(v) && Listed(known', Base(v) + x) && !Cut(cuts', Base(v) + x, 3)
      ensures x in v.ins
    {
      if Cut(cuts, Base(v) + x, 3) { MoreCut(cuts, cuts', Base(v) + x, 3); }
      assert x in v.ins;
    }
  }

  // ----- what deflate_slow makes of a search

  /** As far as can be seen, or up to the cut. */
  lemma {:induction false} SeenOrCut(v: View, cuts: set<nat>, len: nat)
    requires Windowed(v) && Ended(v, cuts) && v.str < v.end && len <= MIN_LOOKAHEAD
    ensures Base(v) >= 0 && (Base(v) + v.str + len <= |v.data| || Cut(cuts, Base(v) + v.str, len))
  {
    if v.str + len > v.end { assert |v.data| in cuts; }
  }

  lemma {:induction false} UsefulNone(v: View, p: Limits, cuts: set<nat>)
    requires Windowed(v) && Ended(v, cuts) && v.str < v.end && Base(v) >= 0
    requires NoneInReach(v.data, p, All, cuts, Base(v) + v.str, 3, p.chain)
    ensures NothingUseful(v.data, p, cuts, Base(v) + v.str)
  {
    hide Reach, NoMatch, Cut, Windowed, Ended, Useful;
    var n := Base(v) + v.str;
    forall x: nat | Reach(v.data, p, All, cuts, x, n, p.chain) ensures NoMatch(v.data, cuts, n, x, Useful(p, n - x)) {
      UsefulSize(p, n - x);
      SeenOrCut(v, cuts, Useful(p, n - x));
      LongerNoMatch(v.data, cuts, n, x, 3, Useful(p, n - x));
    }
  }

  /** A search among all in reach that found nothing. */
  lemma {:induction false} Useless(v: View, p: Limits, cuts: set<nat>)
    requires Searchable(v, p, All, cuts) && (v.end - v.str >= MIN_MATCH ==> Exhausted(v, 2, p.chain))
    ensures Base(v) >= 0 && NothingUseful(v.data, p, cuts, Base(v) + v.str)
  {
    hide NothingUseful, NoneInReach, Exhausted, Stocked, Below;
    if v.end - v.str >= MIN_MATCH {
      ExhaustedNone(v, p, All, cuts, 2, p.chain);
    } else {
      ShortNone(v, p, All, cuts, 3, p.chain);
    }
    UsefulNone(v, p, cuts);
  }

  /** No match is longer than len, be it that the search says so or that the input ends. */
  lemma {:induction false} NoneLonger(v: View, p: Limits, cuts: set<nat>, len: nat, chain: nat)
    requires Searchable(v, p, All, cuts) && v.end - v.str >= MIN_MATCH && 2 <= len < MAX_MATCH
    requires len < v.end - v.str ==> Exhausted(v, len, chain)
    ensures Base(v) >= 0 && NoneInReach(v.data, p, All, cuts, Base(v) + v.str, len + 1, chain)
  {
    hide NoneInReach, Exhausted, Stocked, Below;
    if len < v.end - v.str { ExhaustedNone(v, p, All, cuts, len, chain); }
      else { CutNone(v, p, All, cuts, len, chain); }
  }

  /** The best match is of no use, being short and far away. */
  lemma {:induction false} TooFarAway(v: View, p: Limits, cuts: set<nat>, start: nat)
    requires Searchable(v, p, All, cuts) && v.end - v.str >= MIN_MATCH && start < v.str && v.str - start > TOO_FAR
    requires NoneFrom(v, start + 1, 2) && (3 < v.end - v.str ==> Exhausted(v, 3, p.chain)) && !p.filtered
    ensures Base(v) >= 0 && NothingUseful(v.data, p, cuts, Base(v) + v.str)
  {
    hide Reach, NoMatch, Cut, Exhausted, NoneFrom, Stocked, Below;
    NoneLonger(v, p, cuts, 3, p.chain);
    NearestNone(v, p, All, cuts, start, 3);
    var n := Base(v) + v.str;
    forall x: nat | Reach(v.data, p, All, cuts, x, n, p.chain) ensures NoMatch(v.data, cuts, n, x, Useful(p, n - x)) {
      ReachIs(v.data, p, cuts, x, n, p.chain);
      if n - x <= TOO_FAR { assert Listed(All, x); }
    }
  }

  lemma {:induction false} ReachIs(data: seq<byte>, p: Limits, cuts: set<nat>, x: nat, n: nat, chain: nat)
    requires Reach(data, p, All, cuts, x, n, chain)
    ensures x < n && !Cut(cuts, x, 3)
  {
    hide Cut, Between;
  }

  /** With Z_FILTERED a match of at most five bytes is of no use. */
  lemma {:induction false} FilteredOut(v: View, p: Limits, cuts: set<nat>, len: nat, chain: nat)
    requires Searchable(v, p, All, cuts) && v.end - v.str >= MIN_MATCH && 2 <= len <= 5
    requires len < v.end - v.str ==> Exhausted(v, len, chain)
    ensures Base(v) >= 0 && NoneInReach(v.data, p, All, cuts, Base(v) + v.str, 6, chain)
  {
    hide NoneInReach, Exhausted, Stocked, Below;
    NoneLonger(v, p, cuts, len, chain);
    SeenOrCut(v, cuts, 6);
    LongerNone(v.data, p, All, cuts, Base(v) + v.str, len + 1, 6, chain);
  }

  lemma {:induction false} FilteredUseless(v: View, p: Limits, cuts: set<nat>, len: nat)
    requires Searchable(v, p, All, cuts) && v.end - v.str >= MIN_MATCH && 2 <= len <= 5 && p.filtered
    requires len < v.end - v.str ==> Exhausted(v, len, p.chain)
    ensures Base(v) >= 0 && NothingUseful(v.data, p, cuts, Base(v) + v.str)
  {
    hide NoMatch, Reach, Exhausted, Stocked, Below;
    FilteredOut(v, p, cuts, len, p.chain);
  }

  /** No match at the current position is better than one of prev bytes at the previous one. */
  lemma {:induction false} NothingBetter(v: View, p: Limits, cuts: set<nat>, prev: nat, chain: nat)
    requires Searchable(v, p, All, cuts) && 3 <= prev <= MAX_MATCH && chain >= p.chain / 4
    requires MIN_MATCH <= v.end - v.str && prev < v.end - v.str ==> Exhausted(v, prev, chain)
    ensures Base(v) >= 0 && NoBetter(v.data, p, cuts, Base(v) + v.str, prev)
  {
    hide NoneInReach, Exhausted, Stocked, Below;
    var n := Base(v) + v.str;
    if prev < MAX_MATCH {
      if v.end - v.str <= prev {
        assert |v.data| in cuts;
      } else {
        ExhaustedNone(v, p, All, cuts, prev, chain);
        ShorterChain(v.data, p, All, cuts, n, prev + 1, chain, p.chain / 4);
        SeenOrCut(v, cuts, 6);
        if prev <= 4 { LongerNone(v.data, p, All, cuts, n, prev + 1, 6, p.chain / 4); }
      }
    }
  }

  lemma {:induction false} FilteredBetter(v: View, p: Limits, cuts: set<nat>, prev: nat, len: nat, chain: nat)
    requires Searchable(v, p, All, cuts) && v.end - v.str >= MIN_MATCH && 3 <= prev < len <= 5 && p.filtered
      && chain >= p.chain / 4
    requires len < v.end - v.str ==> Exhausted(v, len, chain)
    ensures Base(v) >= 0 && NoBetter(v.data, p, cuts, Base(v) + v.str, prev)
  {
    hide NoneInReach, Exhausted, Stocked, Below;
    FilteredOut(v, p, cuts, len, chain);
    ShorterChain(v.data, p, All, cuts, Base(v) + v.str, 6, chain, p.chain / 4);
  }

  /** What longest_match has to say of a match of len bytes at start, as the caller uses it. */
  ghost predicate Outcome(v: View, start: int, len: nat, prev: nat, chain: nat, nice: nat) {
    && 2 <= prev <= MAX_MATCH && len <= v.end - v.str && len <= MAX_MATCH && (len >= prev || len == v.end - v.str)
    && (len <= prev < v.end - v.str ==> Exhausted(v, prev, chain))
    && (prev < len < nice ==> Exhausted(v, len, chain))
    && (len > prev ==>
        && 0 <= start && Matches(v.win, start, v.str, len) && 1 <= v.str - start <= MaxDist(v.w)
        && NoneFrom(v, start + 1, len - 1)
        && (len < MAX_MATCH && v.str + len < v.end ==> !Matches(v.win, start, v.str, len + 1)))
  }

  /** The choice between the match of prev bytes at the previous position and the one found here. */
  ghost predicate Chosen(data: seq<byte>, p: Limits, cuts: set<nat>, n: int, dist: int, len: nat, prev: nat) {
    && 0 <= n
    && (len <= prev && prev >= 3 ==> NoBetter(data, p, cuts, n, prev))
    && (len > prev ==> dist >= 0 && Best(data, p, All, cuts, n, dist, len, p.chain / 4))
    && (prev < 3 && len < 3 ==> NothingUseful(data, p, cuts, n))
  }

  /** A match that deflate_slow does not want. */
  predicate Dropped(p: Limits, len: nat, dist: int) {
    len <= 5 && (p.filtered || (len == 3 && dist > TOO_FAR))
  }

  lemma {:induction false} ChooseOld(v: View, p: Limits, cuts: set<nat>, start: int, len: nat, prev: nat, chain: nat,
                                     nice: nat, dist: int, final: nat)
    requires Searchable(v, p, All, cuts) && v.end - v.str >= MIN_MATCH && Outcome(v, start, len, prev, chain, nice)
      && chain >= p.chain / 4 && (prev < 3 ==> chain == p.chain) && len <= prev && final <= len && final <= prev
    ensures Base(v) >= 0 && Chosen(v.data, p, cuts, Base(v) + v.str, dist, final, prev)
  {
    hide Searchable, NothingUseful, NoBetter, Best, Exhausted, NoneFrom, Matches;
    SearchedBase(v, p, All, cuts);
    if prev >= 3 { NothingBetter(v, p, cuts, prev, chain); } else { Useless(v, p, cuts); }
  }

  lemma {:induction false} SearchedBase(v: View, p: Limits, known: Known, cuts: set<nat>)
    requires Searchable(v, p, known, cuts)
    ensures Base(v) >= 0
  {
  }

  lemma {:induction false} ChooseNone(v: View, p: Limits, cuts: set<nat>, start: int, len: nat, prev: nat, chain: nat,
                                      nice: nat, dist: int)
    requires Searchable(v, p, All, cuts) && v.end - v.str >= MIN_MATCH && Outcome(v, start, len, prev, chain, nice)
      && chain >= p.chain / 4 && (prev < 3 ==> chain == p.chain) && len > prev && Dropped(p, len, v.str - start)
    requires 8 <= p.nice && nice == if p.nice > v.end - v.str then v.end - v.str else p.nice
    ensures Base(v) >= 0 && Chosen(v.data, p, cuts, Base(v) + v.str, dist, 2, prev)
  {
    hide Searchable, NothingUseful, NoBetter, Best, Exhausted, NoneFrom, Matches;
    SearchedBase(v, p, All, cuts);
    if prev >= 3 {
      FilteredBetter(v, p, cuts, prev, len, chain);
    } else if p.filtered {
      FilteredUseless(v, p, cuts, len);
    } else {
      TooFarAway(v, p, cuts, start);
    }
  }

  lemma {:induction false} ChooseNew(v: View, p: Limits, cuts: set<nat>, start: int, len: nat, prev: nat, chain: nat,
                                     nice: nat)
    requires Searchable(v, p, All, cuts) && v.end - v.str >= MIN_MATCH && Outcome(v, start, len, prev, chain, nice)
      && chain >= p.chain / 4 && len > prev
    requires 8 <= p.nice && nice == if p.nice > v.end - v.str then v.end - v.str else p.nice
    ensures Base(v) >= 0 && Chosen(v.data, p, cuts, Base(v) + v.str, v.str - start, len, prev)
  {
    hide Searchable, NothingUseful, NoBetter, Best, Exhausted, NoneFrom, Matches;
    BestFound(v, p, All, cuts, start, len, nice, chain);
    BestOfFewer(v.data, p, All, cuts, Base(v) + v.str, v.str - start, len, chain, p.chain / 4);
  }

  /** Without a search: there is no candidate, or the previous match is long enough. */
  lemma {:induction false} ChooseUnsearched(v: View, p: Limits, cuts: set<nat>, head: nat, prev: nat, dist: int)
    requires Searchable(v, p, All, cuts) && 2 <= prev <= MAX_MATCH && p.lazy >= 4
    requires v.end - v.str >= MIN_MATCH ==> Latest(v, KeyAt(v, v.str), head, v.str)
    requires v.end - v.str < MIN_MATCH || head == NIL || v.str > head + MaxDist(v.w) || prev >= p.lazy
    ensures Base(v) >= 0 && Chosen(v.data, p, cuts, Base(v) + v.str, dist, 2, prev)
  {
    hide Searchable, NothingUseful, NoneInReach, Best, Exhausted, NoneFrom, Matches, Latest, KeyAt;
    SearchedBase(v, p, All, cuts);
    if v.end - v.str >= MIN_MATCH && (head == NIL || v.str > head + MaxDist(v.w)) {
      HeadOut(v, head, 2, p.chain);
      HeadOut(v, head, prev, p.chain);
    }
    if prev < 3 {
      Useless(v, p, cuts);
    } else if prev < p.lazy {
      NothingBetter(v, p, cuts, prev, p.chain);
    }
  }
}
