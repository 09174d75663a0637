/** The dictionary of deflate: a sliding window, and chains of earlier positions with the same key. */
module HashChains {
  import opened Bytes
  import opened Powers
  import opened HashKey
  import opened Xors
  import opened Lz77

  /** The least lookahead, except at the end of the input. */
  const MIN_LOOKAHEAD := 262
  const NIL := 0

  /**
   * The window win holds, up to end, the last bytes of data; str is the current position, ins the positions ever
   * inserted that are still in the window, insH the running hash.
   */
  datatype View = View(bits: nat, shift: nat, w: nat, win: seq<byte>, head: seq<nat>, prev: seq<nat>, ins: set<nat>,
                       data: seq<byte>, end: nat, str: nat, insH: nat)

  function MaxDist(w: nat): nat {
    if w >= MIN_LOOKAHEAD then w - MIN_LOOKAHEAD else 0
  }

  /** p & w_mask, for a position in the window. */
  function Slot(p: nat, w: nat): nat {
    if p < w then p else p - w
  }

  function KeyAt(v: View, p: nat): nat {
    if p + 3 <= |v.win| then Key(v.bits, v.shift, v.win[p], v.win[p + 1], v.win[p + 2]) else 0
  }

  /** The window holds the end of the data. */
  ghost predicate Windowed(v: View) {
    && 512 <= v.w <= 32768 && |v.win| == 2 * v.w && v.str <= v.end <= 2 * v.w && v.end <= |v.data|
    && forall x {:trigger v.win[x]} :: 0 <= x < v.end ==> v.win[x] == v.data[|v.data| - v.end + x]
  }

  /** No inserted position below top with the key k is above q. */
  ghost predicate Latest(v: View, k: nat, q: nat, top: nat) {
    forall x: nat {:trigger x in v.ins} :: x in v.ins && x < top && KeyAt(v, x) == k ==> x <= q
  }

  /** Each chain starts at the latest inserted position with its key. */
  ghost predicate Heads(v: View) {
    |v.head| == Pow2(v.bits) && Params(v.bits, v.shift)
    && forall j {:trigger v.head[j]} :: 0 <= j < |v.head| ==> HeadAt(v, j)
  }

  ghost predicate HeadAt(v: View, j: nat)
    requires j < |v.head|
  {
    (v.head[j] == NIL || (v.head[j] in v.ins && KeyAt(v, v.head[j]) == j)) && Latest(v, j, v.head[j], 2 * v.w)
  }

  /** Within the window's size a link leads to the latest earlier position with the same key. */
  ghost predicate Links(v: View) {
    |v.prev| == v.w && forall p: nat {:trigger p in v.ins} :: p in v.ins && p + v.w > v.str ==> LinkAt(v, p)
  }

  ghost predicate LinkAt(v: View, p: nat) {
    && p < 2 * v.w && |v.prev| == v.w
    && var q := v.prev[Slot(p, v.w)];
      (q == NIL || (q in v.ins && q < p && KeyAt(v, q) == KeyAt(v, p))) && Latest(v, KeyAt(v, p), q, p)
  }

  /** All inserted positions are below top and have three bytes. */
  ghost predicate Below(v: View, top: int) {
    forall p: nat {:trigger p in v.ins} :: p in v.ins ==> p < top && p + 3 <= v.end
  }

  ghost predicate Chains(v: View, top: int) {
    Heads(v) && Links(v) && Below(v, top)
  }

  /** The running hash is ready for the third byte of the string at p. */
  ghost predicate Ready(v: View, p: nat) {
    p + 2 <= |v.win| && forall c: byte {:trigger Update(v.bits, v.shift, v.insH, c)} ::
      Update(v.bits, v.shift, v.insH, c) == Key(v.bits, v.shift, v.win[p], v.win[p + 1], c)
  }

  /** Between two steps: the last insert strings before str may still be missing. */
  ghost predicate Dictionary(v: View, insert: nat) {
    && Windowed(v) && insert <= v.str && Chains(v, v.str - insert)
    && (v.end - v.str >= MIN_MATCH ==> insert == 0 && Ready(v, v.str))
  }

  // ----- INSERT_STRING

  function Inserted(v: View, p: nat): View
    requires p + 3 <= |v.win| && KeyAt(v, p) < |v.head| && Slot(p, v.w) < |v.prev|
  {
    var k := KeyAt(v, p);
    v.(head := v.head[k := p], prev := v.prev[Slot(p, v.w) := v.head[k]], ins := v.ins + {p}, insH := k)
  }

  /** A position from which a match may be tried. */
  ghost predicate Candidate(v: View, c: nat, p: nat) {
    c in v.ins && c < p && KeyAt(v, c) == KeyAt(v, p)
  }

  lemma {:induction false} InsertFits(v: View, p: nat, top: int)
    requires Windowed(v) && Chains(v, top) && p <= v.str && p + 3 <= v.end
    ensures p + 3 <= |v.win| && KeyAt(v, p) < |v.head| == Pow2(v.bits) && Slot(p, v.w) < |v.prev| == v.w
      && Params(v.bits, v.shift)
  {
  }

  /** The inserted positions below top are the same, and their keys. */
  ghost predicate SameBelow(v: View, u: View, top: nat) {
    forall x: nat {:trigger x in u.ins} :: x in u.ins && x < top ==> x in v.ins && KeyAt(u, x) == KeyAt(v, x)
  }

  lemma {:induction false} LatestKept(v: View, u: View, k: nat, q: nat, top: nat, top': nat)
    requires SameBelow(v, u, top') && Latest(v, k, q, top) && top' <= top
    ensures Latest(u, k, q, top')
  {
    hide KeyAt;
  }

  /** Inserting p leaves the positions below it as they were. */
  lemma {:induction false} InsertedBelow(v: View, p: nat, top: int)
    requires p + 3 <= |v.win| && KeyAt(v, p) < |v.head| && Slot(p, v.w) < |v.prev| && Below(v, top) && top <= p
    ensures SameBelow(v, Inserted(v, p), p)
    ensures Latest(Inserted(v, p), KeyAt(v, p), p, 2 * v.w)
    ensures forall k, q :: k != KeyAt(v, p) && Latest(v, k, q, 2 * v.w) ==> Latest(Inserted(v, p), k, q, 2 * v.w)
  {
    hide Key;
  }

  lemma {:induction false} InsertHeads(v: View, p: nat, top: int)
    requires Windowed(v) && Chains(v, top) && top <= p <= v.str && p + 3 <= v.end
    requires KeyAt(v, p) < |v.head| && Slot(p, v.w) < |v.prev|
    ensures Heads(Inserted(v, p))
  {
    hide Pow2, Latest, SameBelow, Links;
    InsertedBelow(v, p, top);
    var u := Inserted(v, p);
    forall j | 0 <= j < |u.head| ensures HeadAt(u, j) {
      assert HeadAt(v, j);
    }
  }

  lemma {:induction false} InsertLinks(v: View, p: nat, top: int)
    requires Windowed(v) && Chains(v, top) && top <= p <= v.str && p + 3 <= v.end
    requires KeyAt(v, p) < |v.head| && Slot(p, v.w) < |v.prev|
    ensures Links(Inserted(v, p))
  {
    hide Pow2, Latest, SameBelow;
    InsertedBelow(v, p, top);
    var u := Inserted(v, p);
    assert HeadAt(v, KeyAt(v, p));
    LatestKept(v, u, KeyAt(v, p), v.head[KeyAt(v, p)], 2 * v.w, p);
    forall q: nat | q in u.ins && q + u.w > u.str ensures LinkAt(u, q) {
      if q != p {
        assert LinkAt(v, q);
        LowerBelow(v, u, q, p);
        LatestKept(v, u, KeyAt(v, q), v.prev[Slot(q, v.w)], q, q);
      }
    }
  }

  lemma {:induction false} LowerBelow(v: View, u: View, q: nat, p: nat)
    requires SameBelow(v, u, p) && q <= p
    ensures SameBelow(v, u, q)
  {
    hide KeyAt;
  }

  lemma {:induction false} InsertKeeps(v: View, p: nat, top: int)
    requires Windowed(v) && Chains(v, top) && top <= p <= v.str && p + 3 <= v.end
    requires KeyAt(v, p) < |v.head| && Slot(p, v.w) < |v.prev|
    ensures Windowed(Inserted(v, p)) && Chains(Inserted(v, p), p + 1)
    ensures v.head[KeyAt(v, p)] != NIL ==> Candidate(Inserted(v, p), v.head[KeyAt(v, p)], p)
    ensures Latest(Inserted(v, p), KeyAt(v, p), v.head[KeyAt(v, p)], p)
  {
    hide Key, Pow2, Latest, SameBelow, Links;
    InsertHeads(v, p, top);
    InsertLinks(v, p, top);
    InsertedBelow(v, p, top);
    assert HeadAt(v, KeyAt(v, p));
    LatestKept(v, Inserted(v, p), KeyAt(v, p), v.head[KeyAt(v, p)], 2 * v.w, p);
  }

  /** After an insertion the hash is ready for the next string. */
  lemma {:induction false} InsertReady(v: View, p: nat)
    requires Params(v.bits, v.shift) && p + 3 <= |v.win| && v.insH == KeyAt(v, p)
    ensures Ready(v, p + 1)
  {
    hide Update;
    forall c: byte ensures Update(v.bits, v.shift, v.insH, c) == Key(v.bits, v.shift, v.win[p + 1], v.win[p + 2], c) {
      UpdatesForget(v.bits, v.shift, Update(v.bits, v.shift, 0, v.win[p]), v.win[p + 1], v.win[p + 2], c);
    }
  }

  /** A hash begun afresh is ready as well. */
  lemma {:induction false} StartReady(v: View, p: nat)
    requires Params(v.bits, v.shift) && p + 2 <= |v.win| && v.insH == Update(v.bits, v.shift, v.win[p], v.win[p + 1])
    ensures Ready(v, p)
  {
    FirstUpdate(v.bits, v.shift, v.win[p]);
  }

  lemma {:induction false} FirstUpdate(bits: nat, shift: nat, c: byte)
    requires Params(bits, shift)
    ensures Update(bits, shift, 0, c) == c
  {
    ShlZero(shift);
    XorZero(c);
    Pow2Monotone(8, bits);
    Pow2Values();
    LowSmall(c, bits);
  }

  // ----- moving on, reading, sliding

  /** The chains do not depend on where str is, once it only grows, nor on what lies behind end. */
  lemma {:induction false} ChainsMove(v: View, u: View, top: int, top': int)
    requires Chains(v, top) && top <= top' && Windowed(v)
    requires u.bits == v.bits && u.shift == v.shift && u.w == v.w && u.head == v.head && u.prev == v.prev
      && u.ins == v.ins
    requires v.str <= u.str && v.end <= u.end && |u.win| == |v.win| && u.win[..v.end] == v.win[..v.end]
    ensures Chains(u, top')
  {
    hide Key, Pow2, Latest;
    forall p: nat | p in v.ins ensures KeyAt(u, p) == KeyAt(v, p) {
      assert u.win[p] == u.win[..v.end][p] && u.win[p + 1] == u.win[..v.end][p + 1]
        && u.win[p + 2] == u.win[..v.end][p + 2];
      assert v.win[p] == v.win[..v.end][p] && v.win[p + 1] == v.win[..v.end][p + 1]
        && v.win[p + 2] == v.win[..v.end][p + 2];
    }
    hide KeyAt;
    assert forall top: nat :: SameBelow(v, u, top);
    forall j | 0 <= j < |u.head| ensures HeadAt(u, j) {
      assert HeadAt(v, j);
      LatestKept(v, u, j, v.head[j], 2 * v.w, 2 * v.w);
    }
    forall p: nat | p in u.ins && p + u.w > u.str ensures LinkAt(u, p) {
      assert LinkAt(v, p);
      LatestKept(v, u, KeyAt(v, p), v.prev[Slot(p, v.w)], p, p);
    }
  }

  function Down(q: nat, w: nat): nat {
    if q >= w then q - w else NIL
  }

  /** Everything moved down by half the window. */
  ghost predicate Slid(v: View, u: View) {
    && v.w <= v.str <= v.end <= 2 * v.w && u.bits == v.bits && u.shift == v.shift && u.w == v.w && u.data == v.data
       && u.insH == v.insH
    && u.end == v.end - v.w && u.str == v.str - v.w && |u.win| == |v.win| == 2 * v.w
    && (forall x {:trigger u.win[x]} :: 0 <= x < u.end ==> u.win[x] == v.win[x + v.w])
    && |u.head| == |v.head|
       && (forall j {:trigger u.head[j]} :: 0 <= j < |u.head| ==> u.head[j] == Down(v.head[j], v.w))
    && |u.prev| == |v.prev|
       && (forall j {:trigger u.prev[j]} :: 0 <= j < |u.prev| ==> u.prev[j] == Down(v.prev[j], v.w))
    && u.ins == MovedDown(v.ins, v.w)
  }

  ghost function MovedDown(ins: set<nat>, w: nat): (r: set<nat>)
    ensures forall p: nat {:trigger p in r} :: p in r <==> p + w in ins
  {
    set p: nat | p in ins && p >= w :: p - w
  }

  lemma {:induction false} SlideKey(v: View, u: View, p: nat)
    requires Windowed(v) && Slid(v, u) && v.w <= p && p + 3 <= v.end
    ensures KeyAt(u, p - v.w) == KeyAt(v, p)
  {
    hide Key;
    var x := p - v.w;
    assert u.win[x] == v.win[p] && u.win[x + 1] == v.win[p + 1] && u.win[x + 2] == v.win[p + 2];
  }

  /** What was the latest is the latest after the slide. */
  lemma {:induction false} SlideLatest(v: View, u: View, k: nat, q: nat, top: nat, top': nat)
    requires Windowed(v) && Slid(v, u) && Latest(v, k, q, top) && top' + v.w <= top
    requires forall p: nat {:trigger p in v.ins} :: p in v.ins ==> p + 3 <= v.end
    ensures Latest(u, k, Down(q, v.w), top')
  {
    hide KeyAt, Pow2;
    forall x: nat | x in u.ins && x < top' && KeyAt(u, x) == k ensures x <= Down(q, v.w) {
      assert x + v.w in v.ins;
      SlideKey(v, u, x + v.w);
    }
  }

  /** Nothing that is left was inserted in the upper half of the new window. */
  lemma {:induction false} SlideLimit(v: View, u: View, k: nat, q: nat)
    requires Latest(u, k, q, v.w) && forall p: nat {:trigger p in u.ins} :: p in u.ins ==> p < v.w
    ensures Latest(u, k, q, 2 * v.w)
  {
    hide KeyAt;
  }

  lemma {:induction false} SlideHeads(v: View, u: View, top: int)
    requires Windowed(v) && Chains(v, top) && Slid(v, u)
    ensures Heads(u)
  {
    hide KeyAt, Pow2, Latest, Links;
    forall p: nat | p in u.ins ensures p < v.w { assert p + v.w in v.ins; }
    forall j | 0 <= j < |u.head| ensures HeadAt(u, j) {
      var q := v.head[j];
      assert HeadAt(v, j);
      SlideLatest(v, u, j, q, 2 * v.w, v.w);
      assert u.head[j] == Down(q, v.w);
      SlideLimit(v, u, j, u.head[j]);
      if u.head[j] != NIL {
        assert q in v.ins;
        SlideKey(v, u, q);
        assert u.head[j] + v.w in v.ins;
      }
    }
  }

  lemma {:induction false} SlideLinks(v: View, u: View, top: int)
    requires Windowed(v) && Chains(v, top) && Slid(v, u)
    ensures Links(u)
  {
    hide KeyAt, Pow2, Heads, Latest;
    forall p: nat | p in u.ins && p + u.w > u.str ensures LinkAt(u, p) {
      var p0 := p + v.w;
      assert p0 in v.ins;
      assert LinkAt(v, p0);
      SlideLink(v, u, p);
    }
  }

  lemma {:induction false} SlideLink(v: View, u: View, p: nat)
    requires Windowed(v) && Slid(v, u) && p + v.w in v.ins && LinkAt(v, p + v.w) && |v.prev| == v.w
    requires forall p: nat {:trigger p in v.ins} :: p in v.ins ==> p + 3 <= v.end
    ensures LinkAt(u, p)
  {
    hide KeyAt, Pow2, Latest;
    var p0 := p + v.w;
    assert Slot(p, v.w) == Slot(p0, v.w);
    var q := v.prev[Slot(p0, v.w)];
    assert u.prev[Slot(p, v.w)] == Down(q, v.w);
    SlideKey(v, u, p0);
    SlideLatest(v, u, KeyAt(v, p0), q, p0, p);
    if q >= v.w {
      assert q in v.ins;
      assert (q - v.w) + v.w in v.ins;
      SlideKey(v, u, q);
    }
  }

  /** Sliding keeps the dictionary. */
  lemma {:induction false} SlideKeeps(v: View, u: View, insert: nat, insert': nat)
    requires Windowed(v) && insert <= v.str && Chains(v, v.str - insert) && Slid(v, u)
    requires insert' == if insert > u.str then u.str else insert
    ensures Windowed(u) && insert' <= u.str && Chains(u, u.str - insert')
  {
    hide Heads, Links;
    SlideHeads(v, u, v.str - insert);
    SlideLinks(v, u, v.str - insert);
    SlideBelow(v, u, insert, insert');
    SlideWindow(v, u);
  }

  lemma {:induction false} SlideBelow(v: View, u: View, insert: nat, insert': nat)
    requires Slid(v, u) && insert <= v.str && Below(v, v.str - insert)
    requires insert' == if insert > u.str then u.str else insert
    ensures Below(u, u.str - insert')
  {
    forall p: nat | p in u.ins ensures p < u.str - insert' && p + 3 <= u.end {
      assert p + v.w in v.ins;
    }
  }

  lemma {:induction false} SlideWindow(v: View, u: View)
    requires Windowed(v) && Slid(v, u)
    ensures Windowed(u)
  {
    hide MovedDown, Down;
    forall x | 0 <= x < u.end ensures u.win[x] == u.data[|u.data| - u.end + x] {
      assert u.win[x] == v.win[x + v.w];
    }
  }

  // ----- matches

  /** len bytes at c equal those at p. */
  ghost predicate Matches(win: seq<byte>, c: int, p: int, len: int) {
    && 0 <= c < p && 0 <= len && p + len <= |win|
    && forall x {:trigger win[x]} :: p <= x < p + len ==> win[x] == win[x - (p - c)]
  }

  /** The key and the first two bytes vouch for the third. */
  lemma {:induction false} ThreeMatch(v: View, c: nat, p: nat)
    requires Params(v.bits, v.shift) && Candidate(v, c, p) && p + 3 <= |v.win|
    requires v.win[c] == v.win[p] && v.win[c + 1] == v.win[p + 1]
    ensures Matches(v.win, c, p, 3)
  {
    ThirdByte(v.bits, v.shift, v.win[p], v.win[p + 1], v.win[c + 2], v.win[p + 2]);
    hide Key;
    forall x | p <= x < p + 3 ensures v.win[x] == v.win[x - (p - c)] {
      assert x == p || x == p + 1 || x == p + 2;
    }
  }

  /** A match in the window, within the lookahead, is a repetition in the data. */
  lemma {:induction false} MatchRepeats(v: View, c: nat, p: nat, len: nat)
    requires Windowed(v) && Matches(v.win, c, p, len) && p + len <= v.end
    ensures Repeats(v.data, |v.data| - v.end + p, p - c, len)
  {
    var base := |v.data| - v.end;
    forall x | base + p <= x < base + p + len ensures v.data[x] == v.data[x - (p - c)] {
      assert v.win[x - base] == v.win[x - base - (p - c)];
    }
  }

  /** Following a link from a candidate not too far back. */
  lemma {:induction false} NextCandidate(v: View, c: nat, p: nat, top: int)
    requires Windowed(v) && Chains(v, top) && Candidate(v, c, p) && p == v.str && c + v.w > v.str
    ensures c < 2 * v.w && Slot(c, v.w) < |v.prev| == v.w
    ensures v.prev[Slot(c, v.w)] != NIL ==> Candidate(v, v.prev[Slot(c, v.w)], p)
    ensures Latest(v, KeyAt(v, p), v.prev[Slot(c, v.w)], c)
    ensures v.prev[Slot(c, v.w)] == NIL || v.prev[Slot(c, v.w)] < c
  {
    hide Key, Pow2, Latest;
    assert LinkAt(v, c);
  }

  // ----- the positions with the key of the current string

  /** Inserted, before the current position, and with its key. */
  ghost predicate Alike(v: View, x: nat) {
    x in v.ins && x < v.str && KeyAt(v, x) == KeyAt(v, v.str)
  }

  /** None of them from the position on matches more than len bytes. */
  ghost predicate NoneFrom(v: View, from: nat, len: nat) {
    len < MAX_MATCH ==> forall x: nat {:trigger Alike(v, x)} ::
      from <= x && Alike(v, x) ==> !Matches(v.win, x, v.str, len + 1)
  }

  /** How many there are from lo on and below hi. */
  ghost function Rivals(v: View, lo: nat, hi: nat): nat
    decreases hi
  {
    if hi <= lo then 0 else Rivals(v, lo, hi - 1) + if Alike(v, hi - 1) then 1 else 0
  }

  lemma {:induction false} RivalsSplit(v: View, lo: nat, mid: nat, hi: nat)
    requires lo <= mid <= hi
    ensures Rivals(v, lo, hi) == Rivals(v, lo, mid) + Rivals(v, mid, hi)
    decreases hi
  {
    hide Alike;
    if mid < hi { RivalsSplit(v, lo, mid, hi - 1); }
  }

  lemma {:induction false} NoRivals(v: View, q: nat, lo: nat, hi: nat)
    requires Latest(v, KeyAt(v, v.str), q, hi) && q < lo
    ensures Rivals(v, lo, hi) == 0
    decreases hi
  {
    hide KeyAt;
    if lo < hi { NoRivals(v, q, lo, hi - 1); }
  }

  /** A position that has been tried. */
  lemma {:induction false} NoneFromNext(v: View, c: nat, len: nat)
    requires NoneFrom(v, c + 1, len) && (len < MAX_MATCH ==> !Matches(v.win, c, v.str, len + 1))
    ensures NoneFrom(v, c, len)
  {
    hide Alike, Matches;
  }

  /** Nothing is between a position and the one its link leads to. */
  lemma {:induction false} NoneFromLink(v: View, c: nat, q: nat, len: nat)
    requires NoneFrom(v, c, len) && Latest(v, KeyAt(v, v.str), q, c)
    ensures NoneFrom(v, q + 1, len)
  {
    hide KeyAt, Matches;
    if len < MAX_MATCH {
      forall x: nat | q + 1 <= x && Alike(v, x) ensures !Matches(v.win, x, v.str, len + 1) {
        assert x in v.ins;
      }
    }
  }

  lemma {:induction false} NoneFromLonger(v: View, from: nat, len: nat, len': nat)
    requires NoneFrom(v, from, len) && len <= len' && v.str + len' < |v.win|
    ensures NoneFrom(v, from, len')
  {
    hide Alike;
    if len' < MAX_MATCH {
      forall x: nat | from <= x && Alike(v, x) ensures !Matches(v.win, x, v.str, len' + 1) {
        assert Matches(v.win, x, v.str, len' + 1) ==> Matches(v.win, x, v.str, len + 1);
      }
    }
  }

  /** Of those in reach that have less than chain others behind them, none matches more than len bytes. */
  ghost predicate Exhausted(v: View, len: nat, chain: nat) {
    len < MAX_MATCH ==> forall x: nat {:trigger Alike(v, x)} ::
      x > 0 && Alike(v, x) && v.str - x < MaxDist(v.w) && Rivals(v, x + 1, v.str) < chain ==>
      !Matches(v.win, x, v.str, len + 1)
  }

  /** The search ends at the limit: what is left is out of reach. */
  lemma {:induction false} ExhaustedAtLimit(v: View, c: nat, limit: nat, len: nat, chain: nat)
    requires NoneFrom(v, c + 1, len) && c <= limit
    requires limit == if v.str > MaxDist(v.w) then v.str - MaxDist(v.w) else 0
    ensures Exhausted(v, len, chain)
  {
    hide Alike, Matches, Rivals;
  }

  /** The search ends because the chain is long enough. */
  lemma {:induction false} ExhaustedChain(v: View, c: nat, len: nat, chain: nat)
    requires NoneFrom(v, c, len) && c <= v.str && Rivals(v, c, v.str) >= chain
    ensures Exhausted(v, len, chain)
  {
    hide Alike, Matches;
    if len < MAX_MATCH {
      forall x: nat
        | x > 0 && Alike(v, x) && v.str - x < MaxDist(v.w) && Rivals(v, x + 1, v.str) < chain
        ensures !Matches(v.win, x, v.str, len + 1)
      {
        if x < c { RivalsSplit(v, x + 1, c, v.str); }
      }
    }
  }

  // ----- one step of a deflate loop

  /** The string at str has been inserted, if it has three bytes. */
  ghost predicate Current(v: View, insert: nat) {
    && Windowed(v) && insert <= v.str
    && (v.end - v.str >= MIN_MATCH ==> insert == 0 && Chains(v, v.str + 1) && Ready(v, v.str + 1))
    && (v.end - v.str < MIN_MATCH ==> Chains(v, v.str - insert))
  }

  /** What remains if the running hash is not kept up. */
  ghost predicate Slack(v: View, insert: nat) {
    Windowed(v) && insert <= v.str && Chains(v, v.str - insert)
  }

  lemma {:induction false} DictionarySlack(v: View, insert: nat)
    requires Dictionary(v, insert)
    ensures Slack(v, insert)
  {
  }

  lemma {:induction false} StepOne(v: View, insert: nat)
    requires Current(v, insert) && v.str < v.end
    ensures Dictionary(v.(str := v.str + 1), insert)
  {
    hide Chains, Key, Update;
    var u := v.(str := v.str + 1);
    ChainsMove(v, u, if v.end - v.str >= MIN_MATCH then v.str + 1 else v.str - insert, u.str - insert);
  }

  lemma {:induction false} TooShort(v: View, insert: nat)
    requires Dictionary(v, insert) && v.end - v.str < MIN_MATCH
    ensures Current(v, insert)
  {
  }

  /** Inserting the current string. */
  lemma {:induction false} InsertCurrent(v: View, insert: nat)
    requires Dictionary(v, insert) && v.end - v.str >= MIN_MATCH
    ensures insert == 0 && v.str + 3 <= |v.win| && KeyAt(v, v.str) < |v.head| && Slot(v.str, v.w) < |v.prev|
      && Ready(v, v.str)
    ensures Current(Inserted(v, v.str), 0)
    ensures v.head[KeyAt(v, v.str)] != NIL ==> Candidate(Inserted(v, v.str), v.head[KeyAt(v, v.str)], v.str)
    ensures Latest(Inserted(v, v.str), KeyAt(v, v.str), v.head[KeyAt(v, v.str)], v.str)
  {
    hide Chains, Ready, KeyAt, Candidate, Heads, Latest;
    InsertFits(v, v.str, v.str);
    InsertKeeps(v, v.str, v.str);
    InsertReady(Inserted(v, v.str), v.str) by { SameKey(v, v.str); }
  }

  lemma {:induction false} SameKey(v: View, p: nat)
    requires p + 3 <= |v.win| && KeyAt(v, p) < |v.head| && Slot(p, v.w) < |v.prev|
    ensures KeyAt(Inserted(v, p), p) == KeyAt(v, p) == Inserted(v, p).insH
  {
    hide Key;
  }

  /** Jumping ahead without inserting, with the hash begun afresh. */
  lemma {:induction false} JumpAhead(v: View, u: View, n: nat)
    requires Current(v, 0) && v.str + n <= v.end && n > 0 && v.str + n + 2 <= |v.win|
    requires u == v.(str := v.str + n, insH := Update(v.bits, v.shift, v.win[v.str + n], v.win[v.str + n + 1]))
    ensures Dictionary(u, 0)
  {
    hide Key, Update, Pow2;
    ChainsMove(v, u, if v.end - v.str >= MIN_MATCH then v.str + 1 else v.str, u.str);
    StartReady(u, u.str);
  }

  /** Sliding keeps the running hash ready. */
  lemma {:induction false} SlideDictionary(v: View, u: View, insert: nat, insert': nat)
    requires Dictionary(v, insert) && Slid(v, u) && insert' == if insert > u.str then u.str else insert
    ensures Dictionary(u, insert')
  {
    hide Chains, Key, Update, MovedDown, Down;
    SlideKeeps(v, u, insert, insert');
    if v.end - v.str >= MIN_MATCH {
      assert u.win[u.str] == v.win[v.str] && u.win[u.str + 1] == v.win[v.str + 1];
      forall c: byte ensures Update(u.bits, u.shift, u.insH, c)
        == Key(u.bits, u.shift, u.win[u.str], u.win[u.str + 1], c) {
        assert Update(v.bits, v.shift, v.insH, c) == Key(v.bits, v.shift, v.win[v.str], v.win[v.str + 1], c);
      }
    }
  }

  /** New input behind the old. */
  lemma {:induction false} ReadKeeps(v: View, u: View, insert: nat, more: seq<byte>)
    requires Slack(v, insert) && u == v.(win := u.win, data := v.data + more, end := v.end + |more|)
      && u.end <= |v.win| == |u.win|
    requires u.win[..v.end] == v.win[..v.end] && u.win[v.end..u.end] == more
    ensures Slack(u, insert)
  {
    hide Chains, Key;
    ChainsMove(v, u, v.str - insert, v.str - insert);
    forall x | 0 <= x < u.end ensures u.win[x] == u.data[|u.data| - u.end + x] {
      if x < v.end {
        assert u.win[x] == u.win[..v.end][x] == v.win[..v.end][x] == v.win[x];
      } else {
        assert u.win[x] == u.win[v.end..u.end][x - v.end];
      }
    }
  }

  /** Bytes behind the data do not matter. */
  lemma {:induction false} BehindKeeps(v: View, u: View, insert: nat)
    requires u == v.(win := u.win) && |u.win| == |v.win| && v.end <= |v.win| && u.win[..v.end] == v.win[..v.end]
    ensures Slack(v, insert) ==> Slack(u, insert)
    ensures Dictionary(v, insert) ==> Dictionary(u, insert)
  {
    hide Chains, Key, Update;
    if Slack(v, insert) {
      ReadKeeps(v, u, insert, []) by {
        assert v.data + [] == v.data;
        assert u.win[v.end..u.end] == [];
      }
    }
    if Dictionary(v, insert) {
      ReadKeeps(v, u, insert, []) by {
        assert v.data + [] == v.data;
        assert u.win[v.end..u.end] == [];
      }
      if v.end - v.str >= MIN_MATCH {
        assert u.win[v.str] == u.win[..v.end][v.str] == v.win[..v.end][v.str];
        assert u.win[v.str + 1] == u.win[..v.end][v.str + 1] == v.win[..v.end][v.str + 1];
        forall c: byte
          ensures Update(u.bits, u.shift, u.insH, c) == Key(u.bits, u.shift, u.win[u.str], u.win[u.str + 1], c) {
          assert Update(v.bits, v.shift, v.insH, c) == Key(v.bits, v.shift, v.win[v.str], v.win[v.str + 1], c);
        }
      }
    }
  }

  lemma {:induction false} SlackIs(v: View, insert: nat)
    requires Slack(v, insert)
    ensures Windowed(v) && insert <= v.str <= v.end <= 2 * v.w == |v.win| && Chains(v, v.str - insert)
      && v.end <= |v.data|
  {
    hide Chains;
  }

  lemma {:induction false} SlackDictionary(v: View, insert: nat)
    requires Slack(v, insert)
    ensures v.end - v.str < MIN_MATCH || (insert == 0 && Ready(v, v.str)) ==> Dictionary(v, insert)
  {
    hide Chains, Ready;
  }
}
