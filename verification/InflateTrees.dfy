/** inflate_table: from code lengths to decoding tables, against section 3.2.2 of RFC 1951. */
module InflateTrees {
  import opened Bytes
  import opened Powers
  import opened KraftSums
  import opened StreamCodes
  import opened CanonicalCodes
  import DecodeTables
  import opened CodeTables
  import opened TableSpace

  // ----- the codes as RFC 1951 defines them

  /** The first code of n bits; symbols of length zero have no code. */
  function NextCodeOf(lens: seq<nat>, n: nat): nat {
    if n <= 1 then 0 else 2 * (NextCodeOf(lens, n - 1) + Num(lens, n - 1, |lens|))
  }

  function SymbolCode(lens: seq<nat>, i: nat): nat
    requires i < |lens|
  {
    NextCodeOf(lens, lens[i]) + Num(lens, lens[i], i)
  }

  /** The stream v starts with the code of symbol i. */
  predicate StartsWith(lens: seq<nat>, i: nat, v: nat)
    requires i < |lens|
  {
    lens[i] >= 1 && Head(v, lens[i]) == SymbolCode(lens, i)
  }

  /** The share of all streams that codes of at most n bits take, in units of 2^-n. */
  function Taken(lens: seq<nat>, n: nat, k: nat): nat
    requires k <= |lens|
  {
    if k == 0 then 0 else Taken(lens, n, k - 1) + if 1 <= lens[k - 1] <= n then Pow2(n - lens[k - 1]) else 0
  }

  /** The table decodes every stream like the canonical code does, bit by bit. */
  ghost predicate Decodes(t: seq<Entry>, root: nat, kind: CodeType, lens: seq<nat>) {
    && (forall i, v: nat {:trigger StartsWith(lens, i, v)} :: 0 <= i < |lens| && StartsWith(lens, i, v) ==>
        Lookup(t, root, v) == Says(kind, i, lens[i]))
    && (forall v: nat {:trigger Lookup(t, root, v)} ::
        (forall i {:trigger StartsWith(lens, i, v)} :: 0 <= i < |lens| ==> !StartsWith(lens, i, v)) ==>
          Lookup(t, root, v) == INVALID)
  }

  // ----- the space for the tables

  /** Symbol i has a code of more than root bits that starts with the root bits h. */
  predicate Under(lens: seq<nat>, i: nat, root: nat, h: nat)
    requires i < |lens|
  {
    lens[i] > root && Shr(SymbolCode(lens, i), lens[i] - root) == h
  }

  /** The length of the longest such code among the first k symbols; 0 if there is none. */
  function LongestUnder(lens: seq<nat>, root: nat, h: nat, k: nat): nat
    requires k <= |lens|
  {
    if k == 0 then 0
    else if Under(lens, k - 1, root, h) && lens[k - 1] > LongestUnder(lens, root, h, k - 1) then lens[k - 1]
    else LongestUnder(lens, root, h, k - 1)
  }

  /** The sub-tables behind the first h indices, each as large as the longest code behind its index asks for. */
  function SubTables(lens: seq<nat>, root: nat, h: nat): nat {
    if h == 0 then 0 else SubTables(lens, root, h - 1) + SubSize(LongestUnder(lens, root, h - 1, |lens|), root)
  }

  /** The entries of the root table and of all sub-tables. */
  function TableEntries(lens: seq<nat>, root: nat): nat {
    Pow2(root) + SubTables(lens, root, Pow2(root))
  }

  /** The least length from n on that occurs. */
  function Shortest(lens: seq<nat>, n: nat): nat
    decreases 16 - n
  {
    if n >= 16 || Num(lens, n, |lens|) > 0 then n else Shortest(lens, n + 1)
  }

  /**
   * The index bits of the root table: those asked for, but no more than the longest nor fewer than the shortest code.
   */
  function RootBits(lens: seq<nat>, bits: nat): nat {
    if bits > Longest(lens, |lens|) then Longest(lens, |lens|)
    else if bits < Shortest(lens, 1) then Shortest(lens, 1)
    else bits
  }

  /** A set that has no allowed code. */
  predicate Refused(kind: CodeType, lens: seq<nat>) {
    && Longest(lens, |lens|) > 0
    && (Oversubscribed(lens) || (Incomplete(lens) && (kind == CODES || Longest(lens, |lens|) != 1)))
  }

  lemma {:induction false} UnderAtLeast(lens: seq<nat>, root: nat, h: nat, k: nat, i: nat)
    requires i < k <= |lens| && Under(lens, i, root, h)
    ensures LongestUnder(lens, root, h, k) >= lens[i]
  {
    hide Under;
    if i < k - 1 { UnderAtLeast(lens, root, h, k - 1, i); }
  }

  lemma {:induction false} UnderAttained(lens: seq<nat>, root: nat, h: nat, k: nat) returns (i: nat)
    requires k <= |lens| && LongestUnder(lens, root, h, k) > 0
    ensures i < k && Under(lens, i, root, h) && lens[i] == LongestUnder(lens, root, h, k)
  {
    hide Under;
    if Under(lens, k - 1, root, h) && lens[k - 1] > LongestUnder(lens, root, h, k - 1) { i := k - 1; }
      else { i := UnderAttained(lens, root, h, k - 1); }
  }

  /** The p-th code of the list is under the same index as its symbol. */
  lemma {:induction false} SameGroup(work: seq<nat>, lens: seq<nat>, p: nat, root: nat, h: nat)
    requires Ranked(work, lens, |lens|) && (forall i :: 0 <= i < |lens| ==> lens[i] <= MAXBITS)
      && p < |Lengths(work, lens)| && root <= MAXBITS
    ensures work[p] < |lens| && Lengths(work, lens)[p] == lens[work[p]]
    ensures InGroup(Lengths(work, lens), p, root, h) <==> Under(lens, work[p], root, h)
  {
    var l := Lengths(work, lens);
    hide Num, Ranked, Unused, StreamCodes.Code, SymbolCode, Shr, Group;
    SameCodes(work, lens, p);
    if l[p] > root { GroupCode(l, p, root); }
  }

  lemma {:induction false} SameLongest(work: seq<nat>, lens: seq<nat>, root: nat, h: nat)
    requires Ranked(work, lens, |lens|) && (forall i :: 0 <= i < |lens| ==> lens[i] <= MAXBITS) && root <= MAXBITS
    ensures LongestIn(Lengths(work, lens), root, h, |Lengths(work, lens)|) == LongestUnder(lens, root, h, |lens|)
  {
    hide Num, Ranked, Unused, SymbolCode, Lengths, LongestIn, LongestUnder, InGroup;
    var l := Lengths(work, lens);
    if LongestIn(l, root, h, |l|) > 0 {
      var p := LongestAttained(l, root, h, |l|);
      SameGroup(work, lens, p, root, h);
      UnderAtLeast(lens, root, h, |lens|, work[p]);
    }
    if LongestUnder(lens, root, h, |lens|) > 0 {
      var i := UnderAttained(lens, root, h, |lens|);
      RankOf(work, lens, i);
      SameGroup(work, lens, Rank(lens, i), root, h);
      LongestAtLeast(l, root, h, |l|, Rank(lens, i));
    }
  }

  lemma {:induction false} SameTables(work: seq<nat>, lens: seq<nat>, root: nat, h: nat)
    requires Ranked(work, lens, |lens|) && (forall i :: 0 <= i < |lens| ==> lens[i] <= MAXBITS) && root <= MAXBITS
    ensures Opened(Lengths(work, lens), root, |Lengths(work, lens)|, h) == SubTables(lens, root, h)
  {
    hide Num, Ranked, Unused, Lengths, LongestIn, LongestUnder;
    if h > 0 {
      SameTables(work, lens, root, h - 1);
      SameLongest(work, lens, root, h - 1);
    }
  }

  /** If no code is longer than the index asked for, the root table is all. */
  lemma {:induction false} RootSuffices(lens: seq<nat>, bits: nat)
    requires 0 < Longest(lens, |lens|) <= bits && forall i :: 0 <= i < |lens| ==> lens[i] <= MAXBITS
    ensures RootBits(lens, bits) == Longest(lens, |lens|)
    ensures TableEntries(lens, RootBits(lens, bits)) == Pow2(Longest(lens, |lens|))
  {
    hide SubTables, Longest, Shortest, Num;
    var root := Longest(lens, |lens|);
    RootOnly(lens, root, Pow2(root));
    var i :| 0 <= i < |lens| && lens[i] == root;
    NumPositive(lens, i, |lens|);
    ShortestAtMost(lens, 1, root);
  }

  lemma {:induction false} ShortestAtMost(lens: seq<nat>, n: nat, m: nat)
    requires n <= m < 16 && Num(lens, m, |lens|) > 0
    ensures Shortest(lens, n) <= m
    decreases m - n
  {
    hide Num;
    if n < m { ShortestAtMost(lens, n + 1, m); }
  }

  lemma {:induction false} RootOnly(lens: seq<nat>, root: nat, h: nat)
    requires forall i :: 0 <= i < |lens| ==> lens[i] <= root
    ensures SubTables(lens, root, h) == 0
  {
    hide LongestUnder;
    if h > 0 {
      RootOnly(lens, root, h - 1);
      if LongestUnder(lens, root, h - 1, |lens|) > 0 {
        var i := UnderAttained(lens, root, h - 1, |lens|);
      }
    }
  }

  lemma {:induction false} ShortestIs(lens: seq<nat>, n: nat, min: nat)
    requires 1 <= n <= min < 16 && Num(lens, min, |lens|) > 0
    requires forall m :: 1 <= m < min ==> Num(lens, m, |lens|) == 0
    ensures Shortest(lens, n) == min
    decreases min - n
  {
    hide Num;
    if n < min { ShortestIs(lens, n + 1, min); }
  }

  // ----- listing the symbols by length

  /** How many symbols have no code. */
  function Unused(lens: seq<nat>): nat {
    Num(lens, 0, |lens|)
  }

  /** How many codes have fewer than n bits. */
  function Offset(lens: seq<nat>, n: nat): (p: nat)
    requires n >= 1
  {
    ShorterUsed(lens, n);
    Shorter(lens, n) - Unused(lens)
  }

  lemma {:induction false} ShorterUsed(lens: seq<nat>, n: nat)
    requires n >= 1
    ensures Shorter(lens, n) >= Unused(lens)
  {
    if n == 1 { assert Shorter(lens, 1) == Shorter(lens, 0) + Unused(lens); } else { ShorterUsed(lens, n - 1); }
  }

  lemma {:induction false} OffsetNext(lens: seq<nat>, n: nat)
    requires n >= 1
    ensures Offset(lens, n + 1) == Offset(lens, n) + Num(lens, n, |lens|) && Offset(lens, 1) == 0
  {
    assert Shorter(lens, 1) == Shorter(lens, 0) + Unused(lens);
  }

  /** The rank of a symbol that has a code. */
  function Rank(lens: seq<nat>, i: nat): (p: nat)
    requires i < |lens| && lens[i] >= 1
  {
    Offset(lens, lens[i]) + Num(lens, lens[i], i)
  }

  lemma {:induction false} RankPlace(lens: seq<nat>, i: nat)
    requires i < |lens|
    ensures lens[i] >= 1 ==> Rank(lens, i) == DecodeTables.Place(lens, i) - Unused(lens) < |lens| - Unused(lens)
    ensures lens[i] == 0 ==> DecodeTables.Place(lens, i) < Unused(lens)
  {
    DecodeTables.PlaceInRange(lens, i);
    if lens[i] == 0 { NumGrows(lens, 0, i, |lens|); }
  }

  /** Every rank belongs to a symbol. */
  lemma {:induction false} SymbolOfRank(lens: seq<nat>, p: nat) returns (i: nat)
    requires p < |lens| - Unused(lens)
    ensures i < |lens| && lens[i] >= 1 && Rank(lens, i) == p
  {
    hide Num, Shorter, DecodeTables.Place, Rank;
    var q := seq(|lens|, i requires 0 <= i < |lens| => DecodeTables.Place(lens, i));
    forall x | 0 <= x < |q| ensures q[x] < |q| { DecodeTables.PlaceInRange(lens, x); }
    forall x, y | 0 <= x < y < |q| ensures q[x] != q[y] {
      if lens[x] <= lens[y] { DecodeTables.PlacesDiffer(lens, x, y); } else { DecodeTables.PlacesDiffer(lens, y, x); }
    }
    PermutationHits(q, p + Unused(lens));
    i :| 0 <= i < |q| && q[i] == p + Unused(lens);
    RankPlace(lens, i);
  }

  /** work lists the symbols that have codes. */
  ghost predicate Ranked(work: seq<nat>, lens: seq<nat>, k: nat) {
    k <= |lens| && forall i {:trigger RankedAt(work, lens, i)} :: 0 <= i < k && lens[i] >= 1 ==> RankedAt(work, lens, i)
  }

  ghost predicate RankedAt(work: seq<nat>, lens: seq<nat>, i: nat)
    requires i < |lens| && lens[i] >= 1
  {
    Rank(lens, i) < |work| && work[Rank(lens, i)] == i
  }

  lemma {:induction false} RankedStep(work: seq<nat>, lens: seq<nat>, k: nat)
    requires Ranked(work, lens, k) && k < |lens| && |work| >= |lens| - Unused(lens)
    ensures lens[k] == 0 ==> Ranked(work, lens, k + 1)
    ensures lens[k] >= 1 ==> Rank(lens, k) < |work| && Ranked(work[Rank(lens, k) := k], lens, k + 1)
  {
    hide Rank, Num, Shorter, DecodeTables.Place;
    RankPlace(lens, k);
    if lens[k] >= 1 {
      var w := work[Rank(lens, k) := k];
      forall i | 0 <= i < k + 1 && lens[i] >= 1 ensures RankedAt(w, lens, i) {
        if i < k {
          assert RankedAt(work, lens, i);
          RankPlace(lens, i);
          if lens[i] <= lens[k] { DecodeTables.PlacesDiffer(lens, i, k); }
            else { DecodeTables.PlacesDiffer(lens, k, i); }
        }
      }
    }
  }

  lemma {:induction false} NumNext(lens: seq<nat>, k: nat)
    requires k < |lens|
    ensures forall n {:trigger Num(lens, n, k + 1)} :: Num(lens, n, k + 1) == Num(lens, n, k) + if lens[k] == n then 1
      else 0
  {
  }

  ghost function Lengths(work: seq<nat>, lens: seq<nat>): (l: seq<nat>)
    requires Ranked(work, lens, |lens|)
    ensures |l| == |lens| - Unused(lens) <= |work|
    ensures forall p {:trigger work[p]} {:trigger l[p]} :: 0 <= p < |l| ==>
      work[p] < |lens| && lens[work[p]] >= 1 && Rank(lens, work[p]) == p && l[p] == lens[work[p]]
  {
    hide Rank;
    RankedAll(work, lens);
    seq(|lens| - Unused(lens), p requires 0 <= p < |lens| - Unused(lens) => lens[work[p]])
  }

  lemma {:induction false} RanksFit(work: seq<nat>, lens: seq<nat>)
    requires Ranked(work, lens, |lens|)
    ensures 0 <= |lens| - Unused(lens) <= |work|
  {
    hide Rank;
    if |lens| - Unused(lens) > 0 {
      var i := SymbolOfRank(lens, |lens| - Unused(lens) - 1);
      assert RankedAt(work, lens, i);
    }
  }

  lemma {:induction false} RankedAll(work: seq<nat>, lens: seq<nat>)
    requires Ranked(work, lens, |lens|)
    ensures 0 <= |lens| - Unused(lens) <= |work|
    ensures forall p {:trigger work[p]} :: 0 <= p < |lens| - Unused(lens) ==>
      work[p] < |lens| && lens[work[p]] >= 1 && Rank(lens, work[p]) == p
  {
    hide Rank;
    RanksFit(work, lens);
    forall p: nat | p < |lens| - Unused(lens)
      ensures p < |work| && work[p] < |lens| && lens[work[p]] >= 1 && Rank(lens, work[p]) == p {
      var i := SymbolOfRank(lens, p);
      assert RankedAt(work, lens, i);
    }
  }

  lemma {:induction false} LengthsAscend(work: seq<nat>, lens: seq<nat>)
    requires Ranked(work, lens, |lens|) && forall i :: 0 <= i < |lens| ==> lens[i] <= MAXBITS
    ensures Ascending(Lengths(work, lens))
  {
    hide Rank, DecodeTables.Place, Num, Shorter;
    var l := Lengths(work, lens);
    forall p, q | 0 <= p < q < |l| ensures l[p] <= l[q] {
      var i, j := work[p], work[q];
      RankPlace(lens, i);
      RankPlace(lens, j);
      if lens[j] < lens[i] { DecodeTables.PlacesDiffer(lens, j, i); }
    }
    forall p | 0 <= p < |l| ensures 1 <= l[p] <= MAXBITS { assert work[p] < |lens|; }
  }

  /** The codes of n bits have the ranks from Offset(n) on. */
  lemma {:induction false} LengthRun(work: seq<nat>, lens: seq<nat>, p: nat, n: nat)
    requires Ranked(work, lens, |lens|) && p < |lens| - Unused(lens) && n >= 1
    ensures Lengths(work, lens)[p] == n <==> Offset(lens, n) <= p < Offset(lens, n + 1)
  {
    hide Num, Shorter, Lengths, Ranked;
    var l := Lengths(work, lens);
    assert l[p] == lens[work[p]];
    var i := work[p];
    NumGrows(lens, lens[i], i, |lens|);
    OffsetNext(lens, lens[i]);
    OffsetNext(lens, n);
    if lens[i] < n { DecodeTables.ShorterGrows(lens, lens[i], n); }
    if n < lens[i] { DecodeTables.ShorterGrows(lens, n, lens[i]); }
  }

  lemma {:induction false} OffsetEnd(lens: seq<nat>)
    requires forall i :: 0 <= i < |lens| ==> lens[i] <= MAXBITS
    ensures Offset(lens, 16) == |lens| - Unused(lens)
  {
    DecodeTables.ShorterCounts(lens, 16);
    AllUpto(lens, |lens|);
  }

  lemma {:induction false} AllUpto(lens: seq<nat>, k: nat)
    requires k <= |lens| && forall i :: 0 <= i < |lens| ==> lens[i] <= MAXBITS
    ensures DecodeTables.Upto(lens, 16, k) == k
  {
    if k > 0 { AllUpto(lens, k - 1); }
  }

  lemma {:induction false} OffsetGrows(lens: seq<nat>, m: nat, n: nat)
    requires 1 <= m <= n
    ensures Offset(lens, m) <= Offset(lens, n)
    decreases n
  {
    hide Offset;
    if m < n {
      OffsetGrows(lens, m, n - 1);
      OffsetNext(lens, n - 1);
    }
  }

  /** The table count[] at the start. */
  lemma {:induction false} LeftCount(work: seq<nat>, lens: seq<nat>, n: nat, p: nat)
    requires Ranked(work, lens, |lens|) && (forall i :: 0 <= i < |lens| ==> lens[i] <= MAXBITS) && 1 <= n <= MAXBITS
      && p <= |lens| - Unused(lens)
    ensures Left(Lengths(work, lens), n, p) ==
            if p <= Offset(lens, n) then Num(lens, n, |lens|)
              else if p <= Offset(lens, n + 1) then Offset(lens, n + 1) - p else 0
    decreases |lens| - p
  {
    hide Num, Offset, Lengths, Ranked, Unused;
    OffsetEnd(lens);
    OffsetNext(lens, n);
    OffsetGrows(lens, n + 1, 16);
    if p < |lens| - Unused(lens) {
      LeftCount(work, lens, n, p + 1);
      LengthRun(work, lens, p, n);
    }
  }

  /** The first p codes take what the canonical numbering says. */
  lemma {:induction false} SpaceInRun(work: seq<nat>, lens: seq<nat>, n: nat, p: nat)
    requires Ranked(work, lens, |lens|) && (forall i :: 0 <= i < |lens| ==> lens[i] <= MAXBITS) && 1 <= n <= MAXBITS
    requires Offset(lens, n) <= p <= Offset(lens, n + 1)
    ensures p <= |Lengths(work, lens)|
      && Kraft(Lengths(work, lens), MAXBITS, p) == Shl(NextCodeOf(lens, n) + (p - Offset(lens, n)), MAXBITS - n)
    decreases n, p
  {
    hide Num, Offset, Lengths, Ranked, Unused, Pow2;
    var l := Lengths(work, lens);
    OffsetEnd(lens);
    OffsetGrows(lens, n + 1, 16);
    if p == Offset(lens, n) {
      if n == 1 {
        OffsetNext(lens, 1);
        ShlZero(MAXBITS - 1);
      } else {
        OffsetGrows(lens, n - 1, n);
        OffsetNext(lens, n - 1);
        SpaceInRun(work, lens, n - 1, p);
        var c := NextCodeOf(lens, n - 1) + Num(lens, n - 1, |lens|);
        ShlShl(c, 1, MAXBITS - n);
        assert Shl(c, 1) == 2 * c;
      }
    } else {
      SpaceInRun(work, lens, n, p - 1);
      LengthRun(work, lens, p - 1, n);
      ShlAdd(NextCodeOf(lens, n) + (p - 1 - Offset(lens, n)), 1, MAXBITS - n);
      ShlOne(MAXBITS - n);
    }
  }

  lemma {:induction false} ShlSame(v: nat, w: nat, n: nat)
    requires Shl(v, n) == Shl(w, n)
    ensures v == w
  {
    ShlMonotone(v, w, n);
    ShlMonotone(w, v, n);
  }

  /** The p-th code of the list is the canonical code of its symbol. */
  lemma {:induction false} SameCodes(work: seq<nat>, lens: seq<nat>, p: nat)
    requires Ranked(work, lens, |lens|) && (forall i :: 0 <= i < |lens| ==> lens[i] <= MAXBITS)
      && p < |Lengths(work, lens)|
    ensures work[p] < |lens| && Ascending(Lengths(work, lens))
      && StreamCodes.Code(Lengths(work, lens), p) == SymbolCode(lens, work[p])
  {
    var l := Lengths(work, lens);
    hide Num, Lengths, Ranked, Unused, Pow2, StreamCodes.Code, Kraft, Offset, NextCodeOf, Shl;
    LengthsAscend(work, lens);
    var i := work[p];
    var n := l[p];
    LengthRun(work, lens, p, n);
    SpaceInRun(work, lens, n, p);
    CodeSpace(l, p);
    ShlSame(StreamCodes.Code(l, p), NextCodeOf(lens, n) + (p - Offset(lens, n)), MAXBITS - n);
  }

  // ----- how much is taken

  lemma {:induction false} TakenStep(lens: seq<nat>, n: nat, k: nat)
    requires k <= |lens|
    ensures Taken(lens, n + 1, k) == 2 * Taken(lens, n, k) + Num(lens, n + 1, k)
  {
    if k > 0 { TakenStep(lens, n, k - 1); }
  }

  lemma {:induction false} TakenNone(lens: seq<nat>, k: nat)
    requires k <= |lens|
    ensures Taken(lens, 0, k) == 0
  {
    if k > 0 { TakenNone(lens, k - 1); }
  }

  lemma {:induction false} TakenEnd(lens: seq<nat>, n: nat)
    requires n >= 1
    ensures Taken(lens, n, |lens|) == NextCodeOf(lens, n) + Num(lens, n, |lens|)
  {
    TakenStep(lens, n - 1, |lens|);
    if n == 1 { TakenNone(lens, |lens|); } else { TakenEnd(lens, n - 1); }
  }

  lemma {:induction false} TakenDoubles(lens: seq<nat>, n: nat, m: nat)
    requires n <= m
    ensures Taken(lens, m, |lens|) >= Shl(Taken(lens, n, |lens|), m - n)
    decreases m
  {
    if n < m {
      TakenDoubles(lens, n, m - 1);
      TakenStep(lens, m - 1, |lens|);
    }
  }

  lemma {:induction false} SpaceTaken(work: seq<nat>, lens: seq<nat>)
    requires Ranked(work, lens, |lens|) && (forall i :: 0 <= i < |lens| ==> lens[i] <= MAXBITS)
    ensures var l := Lengths(work, lens); Kraft(l, MAXBITS, |l|) == Taken(lens, MAXBITS, |lens|)
  {
    hide Num, Lengths, Ranked, Unused, Pow2, Kraft, Offset, NextCodeOf, Taken;
    OffsetEnd(lens);
    OffsetNext(lens, 15);
    OffsetGrows(lens, 15, 16);
    SpaceInRun(work, lens, 15, Offset(lens, 16));
    TakenEnd(lens, 15);
  }

  // ----- from the list back to the symbols

  lemma {:induction false} StartsBoth(work: seq<nat>, lens: seq<nat>, p: nat, v: nat)
    requires Ranked(work, lens, |lens|) && (forall i :: 0 <= i < |lens| ==> lens[i] <= MAXBITS)
      && p < |Lengths(work, lens)|
    ensures work[p] < |lens| && (StartsWith(lens, work[p], v) <==> Starts(Lengths(work, lens), p, v))
  {
    hide Num, Ranked, Unused, StreamCodes.Code, SymbolCode, Head;
    SameCodes(work, lens, p);
    assert work[p] < |lens|;
  }

  lemma {:induction false} RankOf(work: seq<nat>, lens: seq<nat>, i: nat)
    requires Ranked(work, lens, |lens|) && i < |lens| && lens[i] >= 1
    ensures Rank(lens, i) < |lens| - Unused(lens) && Rank(lens, i) < |work| && work[Rank(lens, i)] == i
  {
    hide Num, Shorter, Rank, DecodeTables.Place;
    assert RankedAt(work, lens, i);
    RankPlace(lens, i);
  }

  lemma {:induction false} SomeRanking(lens: seq<nat>, k: nat) returns (work: seq<nat>)
    requires k <= |lens|
    ensures |work| == |lens| && Ranked(work, lens, k)
  {
    hide Rank, Num, Unused;
    if k == 0 {
      work := lens;
    } else {
      work := SomeRanking(lens, k - 1);
      RankPlace(lens, k - 1);
      RankedStep(work, lens, k - 1);
      if lens[k - 1] >= 1 { work := work[Rank(lens, k - 1) := k - 1]; }
    }
  }

  /** No stream starts with the codes of two symbols, whatever the lengths. */
  lemma {:induction false} OneSymbol(lens: seq<nat>, i: nat, j: nat, v: nat)
    requires forall i :: 0 <= i < |lens| ==> lens[i] <= MAXBITS
    requires i < |lens| && j < |lens| && StartsWith(lens, i, v) && StartsWith(lens, j, v)
    ensures i == j
  {
    hide Num, Ranked, Unused, SymbolCode, Head, Lengths, Rank, Starts;
    var work := SomeRanking(lens, |lens|);
    RankOf(work, lens, i);
    RankOf(work, lens, j);
    StartsBoth(work, lens, Rank(lens, i), v);
    StartsBoth(work, lens, Rank(lens, j), v);
    LengthsAscend(work, lens);
    PrefixFree(Lengths(work, lens), Rank(lens, i), Rank(lens, j), v);
  }

  /** Unless something is left over, every stream starts with a code. */
  lemma {:induction false} SomeSymbol(lens: seq<nat>, v: nat) returns (i: nat)
    requires (forall i :: 0 <= i < |lens| ==> lens[i] <= MAXBITS) && !Incomplete(lens)
    ensures i < |lens| && StartsWith(lens, i, v)
  {
    hide Num, Ranked, Unused, SymbolCode, Head, Lengths, Rank, Starts, Taken, Kraft;
    var work := SomeRanking(lens, |lens|);
    SpaceTaken(work, lens);
    LengthsAscend(work, lens);
    var p := SomeCode(Lengths(work, lens), v, |Lengths(work, lens)|);
    StartsBoth(work, lens, p, v);
    i := work[p];
  }

  /** A table that is right for the list is right for the lengths. */
  lemma {:induction false} CompleteDecodes(t: seq<Entry>, root: nat, kind: CodeType, work: seq<nat>, lens: seq<nat>)
    requires Ranked(work, lens, |lens|) && (forall i :: 0 <= i < |lens| ==> lens[i] <= MAXBITS)
    requires Complete(t, root, kind, work, Lengths(work, lens))
    ensures Decodes(t, root, kind, lens)
  {
    hide Num, Ranked, Unused, SymbolCode, Head, Lengths, Rank, Starts, StartsWith, Lookup, Says, Kraft;
    var l := Lengths(work, lens);
    LengthsAscend(work, lens);
    forall i, v: nat | 0 <= i < |lens| && StartsWith(lens, i, v) ensures Lookup(t, root, v) == Says(kind, i, lens[i]) {
      UsedIs(lens, i, v);
      RankOf(work, lens, i);
      StartsBoth(work, lens, Rank(lens, i), v);
    }
    forall v: nat | forall i {:trigger StartsWith(lens, i, v)} :: 0 <= i < |lens| ==> !StartsWith(lens, i, v)
      ensures Lookup(t, root, v) == INVALID {
      if Head(v, MAXBITS) < Kraft(l, MAXBITS, |l|) {
        var p := SomeCode(l, v, |l|);
        StartsBoth(work, lens, p, v);
        assert false;
      }
    }
  }

  lemma {:induction false} UsedIs(lens: seq<nat>, i: nat, v: nat)
    requires i < |lens| && StartsWith(lens, i, v)
    ensures lens[i] >= 1
  {
  }

  // ----- the function itself

  function Longest(lens: seq<nat>, k: nat): (m: nat)
    requires k <= |lens|
    ensures forall i :: 0 <= i < k ==> lens[i] <= m
    ensures m > 0 ==> exists i :: 0 <= i < k && lens[i] == m
  {
    if k == 0 then 0 else
      var m := Longest(lens, k - 1);
      if lens[k - 1] > m then lens[k - 1] else m
  }

  /** More is taken than there is. */
  predicate Oversubscribed(lens: seq<nat>) {
    Taken(lens, MAXBITS, |lens|) > Pow2(MAXBITS)
  }

  /** Something is left over. */
  predicate Incomplete(lens: seq<nat>) {
    Taken(lens, MAXBITS, |lens|) < Pow2(MAXBITS)
  }

  method CountLengths(lens: seq<nat>, count: array<nat>)
    requires count.Length == 16 && forall i :: 0 <= i < |lens| ==> lens[i] <= MAXBITS
    modifies count
    ensures forall n :: 0 <= n <= 15 ==> count[n] == Num(lens, n, |lens|)
  {
    hide Num;
    var len := 0;
    while len <= 15
      invariant 0 <= len <= 16 && forall n :: 0 <= n < len ==> count[n] == 0
    {
      count[len] := 0;
      len := len + 1;
    }
    NothingCounted(lens);
    var sym := 0;
    while sym < |lens|
      invariant 0 <= sym <= |lens| && forall n :: 0 <= n <= 15 ==> count[n] == Num(lens, n, sym)
    {
      NumNext(lens, sym);
      count[lens[sym]] := count[lens[sym]] + 1;
      sym := sym + 1;
    }
  }

  lemma {:induction false} NothingCounted(lens: seq<nat>)
    ensures forall n {:trigger Num(lens, n, 0)} :: Num(lens, n, 0) == 0
  {
  }

  lemma {:induction false} NumPositive(lens: seq<nat>, i: nat, k: nat)
    requires i < k <= |lens|
    ensures Num(lens, lens[i], k) > 0
  {
    if i < k - 1 { NumPositive(lens, i, k - 1); }
  }

  lemma {:induction false} NumFound(lens: seq<nat>, n: nat, k: nat)
    requires k <= |lens| && Num(lens, n, k) > 0
    ensures exists i :: 0 <= i < k && lens[i] == n
  {
    if lens[k - 1] != n { NumFound(lens, n, k - 1); }
  }

  /** The longest code length, and the shortest. */
  method Extremes(lens: seq<nat>, count: array<nat>) returns (min: nat, max: nat)
    requires count.Length == 16 && forall n :: 0 <= n <= 15 ==> count[n] == Num(lens, n, |lens|)
    requires forall i :: 0 <= i < |lens| ==> lens[i] <= MAXBITS
    ensures max == Longest(lens, |lens|) <= 15
    ensures max > 0 ==>
      1 <= min <= max && Num(lens, min, |lens|) > 0 && forall n :: 1 <= n < min ==> Num(lens, n, |lens|) == 0
  {
    hide Num;
    max := 15;
    while max >= 1
      invariant 0 <= max <= 15 && forall n :: max < n <= 15 ==> Num(lens, n, |lens|) == 0
      decreases max
    {
      if count[max] != 0 { break; }
      max := max - 1;
    }
    LongestIs(lens, max);
    min := 1;
    while min < max
      invariant 1 <= min && (max > 0 ==> min <= max) && forall n :: 1 <= n < min ==> Num(lens, n, |lens|) == 0
    {
      if count[min] != 0 { break; }
      min := min + 1;
    }
  }

  lemma {:induction false} LongestIs(lens: seq<nat>, max: nat)
    requires (forall n :: max < n <= 15 ==> Num(lens, n, |lens|) == 0) && (max > 0 ==> Num(lens, max, |lens|) > 0)
    requires forall i :: 0 <= i < |lens| ==> lens[i] <= MAXBITS
    ensures Longest(lens, |lens|) == max
  {
    hide Num, Longest;
    var m := Longest(lens, |lens|);
    if m > max {
      var i :| 0 <= i < |lens| && lens[i] == m;
      NumPositive(lens, i, |lens|);
    }
    if max > m { NumFound(lens, max, |lens|); }
  }

  /** Checks for an over-subscribed or incomplete set of lengths. */
  method CheckLengths(lens: seq<nat>, count: array<nat>) returns (left: int)
    requires count.Length == 16 && forall n :: 0 <= n <= 15 ==> count[n] == Num(lens, n, |lens|)
    ensures left < 0 <==> Oversubscribed(lens)
    ensures left > 0 <==> Incomplete(lens)
  {
    hide *;
    left := 1;
    var len := 1;
    TakenNone(lens, |lens|);
    ZeroHead(0);
    PowersIs();
    while len <= 15
      invariant 1 <= len <= 16 && left >= 0 && left + Taken(lens, len - 1, |lens|) == Pow2(len - 1)
    {
      TakenStep(lens, len - 1, |lens|);
      left := 2 * left;
      Pow2Step(len - 1);
      left := left - count[len];
      if left < 0 {
        OverAt(lens, len);
        return;
      }
      len := len + 1;
    }
    SubscribedIs(lens);
  }

  lemma {:induction false} PowersIs()
    ensures Pow2(0) == 1
  {
  }

  lemma {:induction false} Pow2Step(n: nat)
    ensures Pow2(n + 1) == 2 * Pow2(n)
  {
  }

  lemma {:induction false} SubscribedIs(lens: seq<nat>)
    ensures Oversubscribed(lens) <==> Taken(lens, 15, |lens|) > Pow2(15)
    ensures Incomplete(lens) <==> Taken(lens, 15, |lens|) < Pow2(15)
  {
  }

  lemma {:induction false} OverAt(lens: seq<nat>, n: nat)
    requires n <= 15 && Taken(lens, n, |lens|) > Pow2(n)
    ensures Oversubscribed(lens) && !Incomplete(lens)
  {
    hide Pow2, Taken;
    TakenDoubles(lens, n, 15);
    ShlOfPow2(n, 15 - n);
    ShlMonotone(Taken(lens, n, |lens|), Pow2(n), 15 - n);
  }

  /** The starting ranks of each length. */
  method FindOffsets(lens: seq<nat>, count: array<nat>, offs: array<nat>)
    requires count.Length == 16 == offs.Length && offs != count && forall n :: 0 <= n <= 15 ==>
      count[n] == Num(lens, n, |lens|)
    modifies offs
    ensures forall n :: 1 <= n <= 15 ==> offs[n] == Offset(lens, n)
  {
    hide *;
    offs[1] := 0;
    OffsetNext(lens, 1);
    var len := 1;
    while len < 15
      invariant 1 <= len <= 15 && forall n :: 1 <= n <= len ==> offs[n] == Offset(lens, n)
    {
      OffsetNext(lens, len);
      offs[len + 1] := offs[len] + count[len];
      len := len + 1;
    }
  }

  /** Sorts the symbols by length, by number within each length. */
  method SortSymbols(lens: seq<nat>, offs: array<nat>, work: array<nat>)
    requires offs.Length == 16 && work.Length >= |lens| && work != offs && forall n :: 1 <= n <= 15 ==>
      offs[n] == Offset(lens, n)
    requires forall i :: 0 <= i < |lens| ==> lens[i] <= MAXBITS
    modifies offs, work
    ensures Ranked(work[..], lens, |lens|)
  {
    hide *;
    MaxIs();
    NothingCounted(lens);
    RankedNone(work[..], lens);
    var sym: nat := 0;
    while sym < |lens|
      invariant 0 <= sym <= |lens| && Ranked(work[..], lens, sym)
      invariant forall n :: 1 <= n <= 15 ==> offs[n] == Offset(lens, n) + Num(lens, n, sym)
    {
      ghost var w := work[..];
      RankedStep(w, lens, sym);
      NumNext(lens, sym);
      if lens[sym] != 0 {
        RankIs(lens, sym);
        work[offs[lens[sym]]] := sym;
        assert work[..] == w[Rank(lens, sym) := sym];
        offs[lens[sym]] := offs[lens[sym]] + 1;
      }
      sym := sym + 1;
    }
  }

  lemma {:induction false} RankIs(lens: seq<nat>, i: nat)
    requires i < |lens| && lens[i] >= 1
    ensures Rank(lens, i) == Offset(lens, lens[i]) + Num(lens, lens[i], i)
  {
  }

  lemma {:induction false} RankedNone(work: seq<nat>, lens: seq<nat>)
    ensures Ranked(work, lens, 0)
  {
  }

  /** What the main loop needs to know about the sorted list. */
  lemma {:induction false} ListReady(work: seq<nat>, lens: seq<nat>, kind: CodeType, min: nat, max: nat)
    requires Ranked(work, lens, |lens|) && (forall i :: 0 <= i < |lens| ==> lens[i] <= MAXBITS)
    requires |lens| <= (match kind case CODES => 19 case LENS => 288 case DISTS => 32)
    requires max == Longest(lens, |lens|) > 0
    requires 1 <= min <= max && Num(lens, min, |lens|) > 0 && forall n :: 1 <= n < min ==> Num(lens, n, |lens|) == 0
    requires !Oversubscribed(lens) && (Incomplete(lens) ==> kind != CODES && max == 1)
    ensures var l := Lengths(work, lens);
      Lists(work, l, lens, kind) && Allowed(l, kind) && l[0] == min && l[|l| - 1] == max
    ensures forall n :: 1 <= n <= 15 ==> Num(lens, n, |lens|) == Left(Lengths(work, lens), n, 0)
  {
    hide Num, Rank, Ranked, Unused, Kraft, Taken, Longest, Pow2;
    var l := Lengths(work, lens);
    LengthsAscend(work, lens);
    var i :| 0 <= i < |lens| && lens[i] == max;
    RankOf(work, lens, i);
    assert l[Rank(lens, i)] == max;
    NumFound(lens, min, |lens|);
    var j :| 0 <= j < |lens| && lens[j] == min;
    RankOf(work, lens, j);
    assert l[Rank(lens, j)] == min;
    assert l[|l| - 1] == lens[work[|l| - 1]];
    assert l[0] == lens[work[0]];
    NumPositive(lens, work[0], |lens|);
    forall n | 1 <= n <= 15 ensures Num(lens, n, |lens|) == Left(l, n, 0) { LeftCount(work, lens, n, 0); }
    SpaceTaken(work, lens);
    if Incomplete(lens) { OnlyOne(l); }
  }

  /** Two codes of one bit would be complete. */
  lemma {:induction false} OnlyOne(l: seq<nat>)
    requires Ascending(l) && |l| > 0 && l[|l| - 1] == 1 && Kraft(l, MAXBITS, |l|) < Pow2(MAXBITS)
    ensures l == [1]
  {
    assert l[0] == 1;
    if |l| >= 2 {
      assert l[1] == 1;
      assert Kraft(l, MAXBITS, 1) == Pow2(14) + Kraft(l, MAXBITS, 0);
      assert Kraft(l, MAXBITS, 2) == Pow2(14) + Kraft(l, MAXBITS, 1);
      SpaceGrows(l, 2, |l|);
    }
  }

  /**
   * Builds decoding tables at table[start..], with an index of bits' bits. Returns -1 for a set of lengths that no
   * allowed code has, 1 if the table space does not suffice.
   */
  method InflateTable(kind: CodeType, lens: seq<nat>, table: array<Entry>, start: nat, bits: nat, work: array<nat>)
    returns (ret: int, next: nat, bits': nat)
    requires |lens| <= (match kind case CODES => 19 case LENS => 288 case DISTS => 32)
    requires (forall i :: 0 <= i < |lens| ==> lens[i] <= MAXBITS) && 1 <= bits <= MAXBITS && work.Length >= |lens|
    requires kind == CODES ==> forall i :: 0 <= i < |lens| ==> lens[i] <= bits
    requires start + Enough(kind, bits) <= table.Length
    modifies table, work
    ensures table[..start] == old(table[..start])
    ensures ret == -1 <==> Refused(kind, lens)
    ensures ret == 1 <==>
      !Refused(kind, lens) && Longest(lens, |lens|) > 0
        && TableEntries(lens, RootBits(lens, bits)) > Enough(kind, bits)
    ensures ret == 0 || ret == -1 || (ret == 1 && kind != CODES)
    ensures ret == 0 ==>
      start <= next <= start + Enough(kind, bits) && Decodes(table[start..next], bits', kind, lens)
        && 1 <= bits' <= MAXBITS
    ensures ret == 0 && Longest(lens, |lens|) > 0 ==>
      bits' == RootBits(lens, bits) && next == start + TableEntries(lens, bits')
    ensures ret == 0 && Longest(lens, |lens|) == 0 ==> bits' == 1 && next == start + 2
  {
    hide *;
    MaxIs();
    EnoughIs(kind, bits);
    RefusedIs(kind, lens);
    var count := new nat[16];
    CountLengths(lens, count);
    var root := bits;
    var min, max := Extremes(lens, count);
    if root > max { root := max; }
    if max == 0 {
      RootSize(bits);
      table[start], table[start + 1] := Entry(64, 1, 0), Entry(64, 1, 0);
      NoSymbols(table[start..start + 2], kind, lens);
      return 0, start + 2, 1;
    }
    if root < min { root := min; }
    var left := CheckLengths(lens, count);
    if left < 0 { return -1, start, bits; }
    if left > 0 && (kind == CODES || max != 1) { NotBoth(lens); return -1, start, bits; }
    NotBoth(lens);
    var offs := new nat[16];
    FindOffsets(lens, count, offs);
    SortSymbols(lens, offs, work);
    ListReady(work[..], lens, kind, min, max);
    ghost var l := Lengths(work[..], lens);
    RoomFor(kind, root, bits, max, lens);
    RootIs(lens, bits, min, max);
    SpaceFor(work[..], lens, kind, root, bits);
    var used;
    ret, used := Build(table, start, kind, lens, work, count, root, max, l);
    if ret == 0 { CompleteDecodes(table[start..start + used], root, kind, work[..], lens); }
    next, bits' := start + used, root;
  }

  lemma {:induction false} RefusedIs(kind: CodeType, lens: seq<nat>)
    ensures Refused(kind, lens) <==>
      && Longest(lens, |lens|) > 0
      && (Oversubscribed(lens) || (Incomplete(lens) && (kind == CODES || Longest(lens, |lens|) != 1)))
  {
  }

  lemma {:induction false} RootIs(lens: seq<nat>, bits: nat, min: nat, max: nat)
    requires max == Longest(lens, |lens|) && 1 <= min <= max <= 15 && Num(lens, min, |lens|) > 0
    requires forall m :: 1 <= m < min ==> Num(lens, m, |lens|) == 0
    ensures RootBits(lens, bits) == if bits > max then max else if bits < min then min else bits
  {
    hide Num, Longest;
    ShortestIs(lens, 1, min);
  }

  lemma {:induction false} SpaceFor(work: seq<nat>, lens: seq<nat>, kind: CodeType, root: nat, bits: nat)
    requires Ranked(work, lens, |lens|) && (forall i :: 0 <= i < |lens| ==> lens[i] <= MAXBITS) && root <= MAXBITS
    ensures Space(Lengths(work, lens), root) == TableEntries(lens, root)
    ensures kind != CODES ==> Enough(kind, root) == Enough(kind, bits)
  {
    hide Num, Ranked, Unused, Lengths, Opened, SubTables;
    SameTables(work, lens, root, Pow2(root));
  }

  lemma {:induction false} NotBoth(lens: seq<nat>)
    ensures !(Oversubscribed(lens) && Incomplete(lens))
  {
  }

  lemma {:induction false} RootSize(bits: nat)
    requires bits >= 1
    ensures Pow2(bits) >= 2
  {
  }

  /** With no codes at all, every stream is invalid. */
  lemma {:induction false} NoSymbols(t: seq<Entry>, kind: CodeType, lens: seq<nat>)
    requires |t| >= 2 && t[0] == t[1] == Entry(64, 1, 0) && Longest(lens, |lens|) == 0
    ensures Decodes(t, 1, kind, lens)
  {
    hide Longest, Head;
    InvalidNoLink();
    InvalidIs();
    forall v: nat ensures Low(v, 1) <= 1 { HeadOne(v); }
  }

  lemma {:induction false} RoomFor(kind: CodeType, root: nat, bits: nat, max: nat, lens: seq<nat>)
    requires max == Longest(lens, |lens|) > 0 && (kind == CODES ==> forall i :: 0 <= i < |lens| ==> lens[i] <= bits)
    requires root <= max && (root == bits || root == max || root < max)
    requires bits >= max ==> root == max
    ensures kind == CODES ==> max <= root
    ensures Enough(kind, root) <= Enough(kind, bits)
  {
    hide Longest;
    if kind == CODES {
      var i :| 0 <= i < |lens| && lens[i] == max;
      Pow2Monotone(root, bits);
    }
  }
}
