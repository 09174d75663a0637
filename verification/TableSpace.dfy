/** The space that a two-level table needs: the root table, and a sub-table for each index that longer codes share. */
module TableSpace {
  import opened Powers
  import opened KraftSums
  import opened StreamCodes

  /** The first root bits of the streams that start with code p, or with the first of them if the code is shorter. */
  function Group(l: seq<nat>, p: nat, root: nat): nat
    requires p <= |l| && root <= MAXBITS
  {
    Shr(Kraft(l, MAXBITS, p), MAXBITS - root)
  }

  /** Code p has more than root bits and starts with h. */
  predicate InGroup(l: seq<nat>, p: nat, root: nat, h: nat)
    requires p < |l| && root <= MAXBITS
  {
    l[p] > root && Group(l, p, root) == h
  }

  /** The length of the longest among the first k codes that have more than root bits and start with h; 0 if none. */
  function LongestIn(l: seq<nat>, root: nat, h: nat, k: nat): nat
    requires k <= |l| && root <= MAXBITS
  {
    if k == 0 then 0
    else if InGroup(l, k - 1, root, h) && l[k - 1] > LongestIn(l, root, h, k - 1) then l[k - 1]
    else LongestIn(l, root, h, k - 1)
  }

  /** The entries of a sub-table for codes of up to n bits. */
  function SubSize(n: nat, root: nat): nat {
    if n <= root then 0 else Pow2(n - root)
  }

  /** The sub-tables for the first h indices, as far as one of the first k codes needs them. */
  function Opened(l: seq<nat>, root: nat, k: nat, h: nat): nat
    requires k <= |l| && root <= MAXBITS
  {
    if h == 0 then 0
    else if LongestIn(l, root, h - 1, k) == 0 then Opened(l, root, k, h - 1)
    else Opened(l, root, k, h - 1) + SubSize(LongestIn(l, root, h - 1, |l|), root)
  }

  /** The whole table. */
  function Space(l: seq<nat>, root: nat): nat
    requires root <= MAXBITS
  {
    Pow2(root) + Opened(l, root, |l|, Pow2(root))
  }

  // ----- the longest of a group

  lemma {:induction false} LongestAtLeast(l: seq<nat>, root: nat, h: nat, k: nat, p: nat)
    requires p < k <= |l| && root <= MAXBITS && InGroup(l, p, root, h)
    ensures LongestIn(l, root, h, k) >= l[p]
  {
    hide InGroup;
    if p < k - 1 { LongestAtLeast(l, root, h, k - 1, p); }
  }

  lemma {:induction false} LongestAttained(l: seq<nat>, root: nat, h: nat, k: nat) returns (p: nat)
    requires k <= |l| && root <= MAXBITS && LongestIn(l, root, h, k) > 0
    ensures p < k && InGroup(l, p, root, h) && l[p] == LongestIn(l, root, h, k)
  {
    hide InGroup;
    if InGroup(l, k - 1, root, h) && l[k - 1] > LongestIn(l, root, h, k - 1) { p := k - 1; }
      else { p := LongestAttained(l, root, h, k - 1); }
  }

  lemma {:induction false} GroupsAscend(l: seq<nat>, p: nat, q: nat, root: nat)
    requires p <= q <= |l| && root <= MAXBITS
    ensures Group(l, p, root) <= Group(l, q, root)
  {
    SpaceGrows(l, p, q);
    ShrMonotone(Kraft(l, MAXBITS, p), Kraft(l, MAXBITS, q), MAXBITS - root);
  }

  lemma {:induction false} GroupBound(l: seq<nat>, p: nat, root: nat)
    requires Ascending(l) && p < |l| && root <= MAXBITS && Kraft(l, MAXBITS, |l|) <= Pow2(MAXBITS)
    ensures Group(l, p, root) < Pow2(root)
  {
    hide Kraft, Shr, Shl, Pow2, Ascending;
    SpaceStep(l, p);
    SpaceGrows(l, p + 1, |l|);
    ShrBound(Kraft(l, MAXBITS, p), root, MAXBITS - root);
  }

  lemma {:induction false} GroupCode(l: seq<nat>, p: nat, root: nat)
    requires Ascending(l) && p < |l| && root <= l[p]
    ensures Group(l, p, root) == Shr(Code(l, p), l[p] - root)
  {
    hide Kraft, Code, Shr, Shl;
    CodeSpace(l, p);
    ShrShl(Code(l, p), MAXBITS - l[p], MAXBITS - root);
  }

  /** The streams that start with a longer code have its group as their first bits. */
  lemma {:induction false} GroupHead(l: seq<nat>, p: nat, v: nat, root: nat)
    requires Ascending(l) && p < |l| && root <= l[p] && Starts(l, p, v)
    ensures Head(v, root) == Group(l, p, root)
  {
    hide Kraft, Code, Shr, Head, Group;
    GroupCode(l, p, root);
    HeadShr(v, root, l[p]);
  }

  /** The same index means the same group. */
  lemma {:induction false} SameIndex(l: seq<nat>, p: nat, u: nat, q: nat, v: nat, root: nat)
    requires Ascending(l) && p < |l| && q < |l| && root <= l[p] && root <= l[q] && Starts(l, p, u) && Starts(l, q, v)
    ensures Low(u, root) == Low(v, root) <==> Group(l, p, root) == Group(l, q, root)
  {
    hide *;
    LengthBound(l, p);
    GroupHead(l, p, u, root);
    GroupHead(l, q, v, root);
    HeadLow(u, v, root);
  }

  lemma {:induction false} LengthBound(l: seq<nat>, p: nat)
    requires Ascending(l) && p < |l|
    ensures 1 <= l[p] <= MAXBITS
  {
  }

  // ----- opening one more sub-table

  lemma {:induction false} LongestStep(l: seq<nat>, root: nat, h: nat, k: nat)
    requires k < |l| && root <= MAXBITS
    ensures !InGroup(l, k, root, h) ==> LongestIn(l, root, h, k + 1) == LongestIn(l, root, h, k)
    ensures InGroup(l, k, root, h) ==> LongestIn(l, root, h, k + 1) >= l[k] > root
  {
  }

  /** One more code opens a sub-table exactly if it is the first of its group. */
  lemma {:induction false} OpenedStep(l: seq<nat>, root: nat, k: nat, h: nat)
    requires k < |l| && root <= MAXBITS
    ensures var g := Group(l, k, root);
      Opened(l, root, k + 1, h) == Opened(l, root, k, h)
        + if g < h && l[k] > root && LongestIn(l, root, g, k) == 0 then SubSize(LongestIn(l, root, g, |l|), root) else 0
  {
    hide LongestIn, Group, SubSize;
    if h > 0 {
      OpenedStep(l, root, k, h - 1);
      LongestStep(l, root, h - 1, k);
    }
  }

  lemma {:induction false} OpenedNone(l: seq<nat>, root: nat, h: nat)
    requires root <= MAXBITS
    ensures Opened(l, root, 0, h) == 0
  {
    if h > 0 { OpenedNone(l, root, h - 1); }
  }

  lemma {:induction false} OpenedGrows(l: seq<nat>, root: nat, j: nat, k: nat, h: nat)
    requires j <= k <= |l| && root <= MAXBITS
    ensures Opened(l, root, j, h) <= Opened(l, root, k, h)
    decreases k
  {
    hide Opened;
    if j < k {
      OpenedStep(l, root, k - 1, h);
      OpenedGrows(l, root, j, k - 1, h);
    }
  }

  /** Code p is the first of its group. */
  ghost predicate First(l: seq<nat>, p: nat, root: nat)
    requires p < |l| && root <= MAXBITS
  {
    l[p] > root && LongestIn(l, root, Group(l, p, root), p) == 0
  }

  /** A group begins at the next code if that is the first longer one, or if its group is another. */
  lemma {:induction false} FirstNext(l: seq<nat>, p: nat, root: nat)
    requires Ascending(l) && p + 1 < |l| && root <= MAXBITS
    ensures First(l, p + 1, root) <==>
      l[p + 1] > root && (l[p] <= root || Group(l, p, root) != Group(l, p + 1, root))
  {
    hide Group, LongestIn;
    var h := Group(l, p + 1, root);
    if LongestIn(l, root, h, p + 1) > 0 {
      var q := LongestAttained(l, root, h, p + 1);
      GroupsAscend(l, q, p, root);
      GroupsAscend(l, p, p + 1, root);
    } else if l[p] > root && Group(l, p, root) == h {
      LongestAtLeast(l, root, h, p + 1, p);
    }
  }

  /** Before the first longer code no sub-table is open. */
  lemma {:induction false} FirstCode(l: seq<nat>, root: nat)
    requires 0 < |l| && root <= MAXBITS && l[0] <= root
    ensures Opened(l, root, 1, Pow2(root)) == 0
  {
    hide Group, LongestIn, Opened;
    OpenedNone(l, root, Pow2(root));
    OpenedStep(l, root, 0, Pow2(root));
  }

  /** The space used once code p is being entered, and how it goes on. */
  lemma {:induction false} SpaceStepwise(l: seq<nat>, root: nat, p: nat)
    requires Ascending(l) && p + 1 < |l| && root <= MAXBITS && Kraft(l, MAXBITS, |l|) <= Pow2(MAXBITS)
    ensures var g, h := Group(l, p + 1, root), Pow2(root);
      Opened(l, root, p + 2, h) == Opened(l, root, p + 1, h)
        + if First(l, p + 1, root) then SubSize(LongestIn(l, root, g, |l|), root) else 0
    ensures Opened(l, root, p + 2, Pow2(root)) <= Opened(l, root, |l|, Pow2(root))
  {
    hide Group, LongestIn, Opened, SubSize, Kraft;
    GroupBound(l, p + 1, root);
    OpenedStep(l, root, p + 1, Pow2(root));
    OpenedGrows(l, root, p + 2, |l|, Pow2(root));
  }

  // ----- the size of a sub-table

  /** Adding one to a number changes its high bits only if the sum has no low bits. */
  lemma {:induction false} Carry(c: nat, k: nat)
    requires Shr(c + 1, k) != Shr(c, k)
    ensures Shl(Shr(c + 1, k), k) == c + 1
  {
    if k > 0 && c % 2 == 1 { Carry(c / 2, k - 1); }
  }

  lemma {:induction false} ShiftAligned(u: nat, d: nat, n: nat)
    requires n <= d
    ensures Shl(Shr(Shl(u, d), n), n) == Shl(u, d)
  {
    hide *;
    ShrShl(u, d, n);
    ShrNothing(u);
    ShlShl(u, d - n, n);
    if n == d { ShrNothing(u); ShlNothing(u); }
  }

  lemma {:induction false} ShlNothing(v: nat)
    ensures Shl(v, 0) == v
  {
  }

  lemma {:induction false} CarryAligned(c: nat, d: nat, k: nat)
    requires Shr(Shl(c + 1, d), k + d) != Shr(c, k)
    ensures Shl(Shr(Shl(c + 1, d), k + d), k + d) == Shl(c + 1, d)
  {
    hide *;
    ShrShl(c + 1, d, k + d);
    Carry(c, k);
    ShlShl(Shr(c + 1, k), k, d);
  }

  /** The first code of a group starts where the group does. */
  lemma {:induction false} FirstAligned(l: seq<nat>, p: nat, root: nat)
    requires Ascending(l) && p < |l| && root <= MAXBITS && First(l, p, root)
    ensures Kraft(l, MAXBITS, p) == Shl(Group(l, p, root), MAXBITS - root)
  {
    hide Kraft, LongestIn, Group, Shl, Shr;
    GroupCode(l, p, root);
    CodeSpace(l, p);
    var n := l[p] - root;
    if p == 0 {
      ZeroAligned(n);
    } else {
      var c, d := Code(l, p - 1), l[p] - l[p - 1];
      assert Code(l, p) == Shl(c + 1, d);
      FirstNext(l, p - 1, root);
      if l[p - 1] <= root {
        ShiftAligned(c + 1, d, n);
      } else {
        GroupCode(l, p - 1, root);
        CarryAligned(c, d, l[p - 1] - root);
      }
    }
    ShlShl(Shr(Code(l, p), n), n, MAXBITS - l[p]);
  }

  lemma {:induction false} ZeroAligned(n: nat)
    ensures Shl(Shr(0, n), n) == 0
  {
    if n > 0 { ZeroAligned(n - 1); }
  }

  /** Codes up to place e do not fill the group of code p: code e is in it too. */
  lemma {:induction false} StillIn(l: seq<nat>, p: nat, e: nat, root: nat)
    requires Ascending(l) && p <= e <= |l| && p < |l| && root <= MAXBITS && First(l, p, root)
    requires Kraft(l, MAXBITS, |l|) == Pow2(MAXBITS)
      && Kraft(l, MAXBITS, e) < Kraft(l, MAXBITS, p) + Pow2(MAXBITS - root)
    ensures e < |l| && InGroup(l, e, root, Group(l, p, root))
  {
    hide Kraft, LongestIn, Shr, Shl, Pow2;
    var h, n := Group(l, p, root), MAXBITS - root;
    FirstAligned(l, p, root);
    GroupBound(l, p, root);
    GroupsAscend(l, p, e, root);
    ShlAdd(h, 1, n);
    ShlOne(n);
    ShlOfPow2(root, n);
    ShlMonotone(h + 1, Pow2(root), n);
    var x := Kraft(l, MAXBITS, e);
    HighLow(x, n);
    ShlMonotone(Shr(x, n), h + 1, n);
    ShlMonotone(h + 1, Shr(x, n), n);
  }

  /** Codes from place e on, when those up to it fill the group of code p, are in later groups. */
  lemma {:induction false} NoLonger(l: seq<nat>, p: nat, e: nat, root: nat)
    requires Ascending(l) && p <= e <= |l| && p < |l| && root <= MAXBITS
    requires Kraft(l, MAXBITS, e) >= Kraft(l, MAXBITS, p) + Pow2(MAXBITS - root)
    ensures Group(l, e, root) > Group(l, p, root)
  {
    hide Kraft, Shr, Shl, Pow2;
    var n := MAXBITS - root;
    var x, y := Kraft(l, MAXBITS, p), Kraft(l, MAXBITS, e);
    HighLow(x, n);
    ShlAdd(Shr(x, n), 1, n);
    ShlOne(n);
    ShrMonotone(Shl(Shr(x, n) + 1, n), y, n);
    ShrShl(Shr(x, n) + 1, n, n);
    ShrNothing(Shr(x, n) + 1);
  }

  lemma {:induction false} ShrNothing(v: nat)
    ensures Shr(v, 0) == v
  {
  }

  /** The longest of a group: code w is in it, and no code of it is longer. */
  lemma {:induction false} LongestIs(l: seq<nat>, p: nat, w: nat, e: nat, root: nat)
    requires Ascending(l) && p < |l| && root <= MAXBITS && First(l, p, root)
    requires w < |l| && InGroup(l, w, root, Group(l, p, root)) && p <= e <= |l| && forall i :: p <= i < e ==>
      l[i] <= l[w]
    requires e == |l| || Group(l, e, root) > Group(l, p, root)
    ensures LongestIn(l, root, Group(l, p, root), |l|) == l[w]
  {
    hide Group, LongestIn;
    var h := Group(l, p, root);
    LongestAtLeast(l, root, h, |l|, w);
    var q := LongestAttained(l, root, h, |l|);
    if q < p {
      LongestAtLeast(l, root, h, p, q);
    } else if q >= e {
      GroupsAscend(l, e, q, root);
    }
  }
}
