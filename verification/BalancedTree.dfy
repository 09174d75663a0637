/** The trees of BZ2_hbMakeCodeLengths for weights close to each other: 2^m leaves get no code longer than m. */
module BalancedTree {
  import opened Powers
  import opened HuffmanTree

  ghost predicate IsRoot(par: seq<int>, n: nat, k: nat) {
    1 <= k <= n && k < |par| && par[k] == -1
  }

  /** The sum of 2^height over the roots up to k. */
  ghost function HeightSum(wt: seq<nat>, par: seq<int>, k: nat): nat
    requires k < |wt| && k < |par|
  {
    if k == 0 then 0 else HeightSum(wt, par, k - 1) + if par[k] == -1 then Pow2(DepthOf(wt[k])) else 0
  }

  /** No root outweighs two others. */
  ghost predicate CloseWeights(wt: seq<nat>, par: seq<int>, n: nat) {
    && n < |wt|
    && forall x: nat, y: nat, z: nat {:trigger IsRoot(par, n, x), IsRoot(par, n, y), IsRoot(par, n, z)} ::
       IsRoot(par, n, x) && IsRoot(par, n, y) && IsRoot(par, n, z) && x != y && x != z && y != z ==>
       WeightOf(wt[z]) <= WeightOf(wt[x]) + WeightOf(wt[y])
  }

  /** All roots have height h or h + 1, no heavier one a smaller height. */
  ghost predicate TwoLevels(wt: seq<nat>, par: seq<int>, n: nat, h: nat) {
    && n < |wt|
    && (forall x: nat {:trigger IsRoot(par, n, x)} :: IsRoot(par, n, x) ==> h <= DepthOf(wt[x]) <= h + 1)
    && forall x: nat, y: nat {:trigger IsRoot(par, n, x), IsRoot(par, n, y)} ::
       IsRoot(par, n, x) && IsRoot(par, n, y) && WeightOf(wt[x]) < WeightOf(wt[y]) ==>
       DepthOf(wt[x]) <= DepthOf(wt[y])
  }

  ghost predicate Balanced(wt: seq<nat>, par: seq<int>, n: nat, h: nat, m: nat) {
    && CloseWeights(wt, par, n) && TwoLevels(wt, par, n, h)
    && n < |par| && HeightSum(wt, par, n) <= Pow2(m)
  }

  ghost predicate InBalance(wt: seq<nat>, par: seq<int>, n: nat, m: nat) {
    exists h: nat :: Balanced(wt, par, n, h, m)
  }

  /** x is the lightest root and y the lightest of the others, equal weights in order of height. */
  ghost predicate NextTwo(wt: seq<nat>, par: seq<int>, n: nat, x: nat, y: nat) {
    && n < |wt| && x != y && IsRoot(par, n, x) && IsRoot(par, n, y) && wt[x] <= wt[y]
    && forall k: nat {:trigger IsRoot(par, n, k)} :: IsRoot(par, n, k) && k != x ==> wt[y] <= wt[k]
  }

  lemma {:induction false} PackedOrder(v: nat, w: nat)
    ensures v <= w ==> WeightOf(v) <= WeightOf(w)
    ensures v <= w && WeightOf(v) == WeightOf(w) ==> DepthOf(v) <= DepthOf(w)
  {
  }

  lemma {:induction false} JoinedRoots(par: seq<int>, n: nat, x: nat, y: nat, k: nat)
    requires n + 1 < |par| && IsRoot(par, n, x) && IsRoot(par, n, y)
    ensures IsRoot(Joined(par, n, x, y), n + 1, k) <==> k == n + 1 || (IsRoot(par, n, k) && k != x && k != y)
  {
  }

  lemma {:induction false} JoinClose(wt: seq<nat>, par: seq<int>, n: nat, x: nat, y: nat)
    requires CloseWeights(wt, par, n) && NextTwo(wt, par, n, x, y) && n + 1 < |wt| && n + 1 < |par|
    requires DepthOf(wt[x]) < 255 && DepthOf(wt[y]) < 255
    ensures CloseWeights(wt[n + 1 := AddWeights(wt[x], wt[y])], Joined(par, n, x, y), n + 1)
  {
    hide WeightOf, DepthOf, AddWeights, Joined;
    RootRange(par, n, x);
    RootRange(par, n, y);
    var wt', par' := wt[n + 1 := AddWeights(wt[x], wt[y])], Joined(par, n, x, y);
    forall p: nat, q: nat, r: nat | IsRoot(par', n + 1, p) && IsRoot(par', n + 1, q) && IsRoot(par', n + 1, r)
      && p != q && p != r && q != r
      ensures WeightOf(wt'[r]) <= WeightOf(wt'[p]) + WeightOf(wt'[q])
    {
      JoinedRoots(par, n, x, y, p);
      JoinedRoots(par, n, x, y, q);
      JoinedRoots(par, n, x, y, r);
      RootRange(par, n, p);
      RootRange(par, n, q);
      RootRange(par, n, r);
      CloseTriple(wt, par, n, x, y, p, q, r);
    }
  }

  lemma {:induction false} CloseTriple(wt: seq<nat>, par: seq<int>, n: nat, x: nat, y: nat, p: nat, q: nat, r: nat)
    requires CloseWeights(wt, par, n) && NextTwo(wt, par, n, x, y) && n + 1 < |wt|
    requires DepthOf(wt[x]) < 255 && DepthOf(wt[y]) < 255 && p != q && p != r && q != r
    requires forall k :: k == p || k == q || k == r ==> k == n + 1 || (IsRoot(par, n, k) && k != x && k != y)
    ensures p < |wt| && q < |wt| && r < |wt|
    ensures var wt' := wt[n + 1 := AddWeights(wt[x], wt[y])];
      WeightOf(wt'[r]) <= WeightOf(wt'[p]) + WeightOf(wt'[q])
  {
    RootRange(par, n, p);
    RootRange(par, n, q);
    RootRange(par, n, r);
    RootRange(par, n, x);
    RootRange(par, n, y);
    assert p == p && q == q && r == r;
    hide WeightOf, DepthOf, AddWeights;
    if r == n + 1 {
      PackedOrder(wt[x], wt[p]);
      PackedOrder(wt[y], wt[p]);
      PackedOrder(wt[y], wt[q]);
      PackedOrder(wt[x], wt[q]);
    }
  }

  lemma {:induction false} RootRange(par: seq<int>, n: nat, k: nat)
    requires IsRoot(par, n, k) || k == n + 1
    ensures 1 <= k <= n + 1 && (k != n + 1 || !IsRoot(par, n, k)) && (IsRoot(par, n, k) ==> k <= n)
  {
  }

  // ----- the two levels

  /** All roots but x have height h + 1. */
  ghost predicate OneBelow(wt: seq<nat>, par: seq<int>, n: nat, h: nat, x: nat) {
    && n < |wt| && n < |par| && IsRoot(par, n, x) && DepthOf(wt[x]) == h
    && forall k: nat {:trigger IsRoot(par, n, k)} :: IsRoot(par, n, k) && k != x ==> DepthOf(wt[k]) == h + 1
  }

  /** The two lightest are on one level, unless the lightest is the last one on its level. */
  lemma {:induction false} LevelsOfTwo(wt: seq<nat>, par: seq<int>, n: nat, h: nat, x: nat, y: nat)
    requires TwoLevels(wt, par, n, h) && NextTwo(wt, par, n, x, y) && n < |par|
    ensures DepthOf(wt[x]) == DepthOf(wt[y]) || OneBelow(wt, par, n, h, x)
    ensures DepthOf(wt[x]) == h + 1 ==> forall k: nat :: IsRoot(par, n, k) ==> DepthOf(wt[k]) == h + 1
  {
    hide WeightOf, DepthOf;
    PackedOrder(wt[x], wt[y]);
    forall k: nat | IsRoot(par, n, k) && k != x
      ensures DepthOf(wt[y]) == h + 1 || DepthOf(wt[x]) == h + 1 ==> DepthOf(wt[k]) == h + 1
    {
      RootRange(par, n, k);
      PackedOrder(wt[y], wt[k]);
      if WeightOf(wt[y]) < WeightOf(wt[k]) { assert DepthOf(wt[y]) <= DepthOf(wt[k]); }
      if WeightOf(wt[x]) < WeightOf(wt[y]) { assert DepthOf(wt[x]) <= DepthOf(wt[y]); }
    }
  }

  /** The level on which the lightest root stands. */
  lemma {:induction false} JoinLevels(wt: seq<nat>, par: seq<int>, n: nat, h: nat, x: nat, y: nat) returns (h': nat)
    requires CloseWeights(wt, par, n) && TwoLevels(wt, par, n, h) && NextTwo(wt, par, n, x, y)
    requires n + 1 < |wt| && n + 1 < |par| && DepthOf(wt[x]) < 255 && DepthOf(wt[y]) < 255
    ensures TwoLevels(wt[n + 1 := AddWeights(wt[x], wt[y])], Joined(par, n, x, y), n + 1, h')
  {
    hide WeightOf, DepthOf, AddWeights, Joined;
    RootRange(par, n, x);
    RootRange(par, n, y);
    LevelsOfTwo(wt, par, n, h, x, y);
    var wt', par' := wt[n + 1 := AddWeights(wt[x], wt[y])], Joined(par, n, x, y);
    h' := DepthOf(wt[y]);
    forall k: nat | IsRoot(par', n + 1, k)
      ensures h' <= DepthOf(wt'[k]) <= h' + 1
    {
      JoinedRoots(par, n, x, y, k);
      RootRange(par, n, k);
    }
    forall p: nat, q: nat | IsRoot(par', n + 1, p) && IsRoot(par', n + 1, q) && WeightOf(wt'[p]) < WeightOf(wt'[q])
      ensures DepthOf(wt'[p]) <= DepthOf(wt'[q])
    {
      JoinedRoots(par, n, x, y, p);
      JoinedRoots(par, n, x, y, q);
      RootRange(par, n, p);
      RootRange(par, n, q);
    }
  }

  // ----- the sum of 2^height stays below any power of two that it starts below

  lemma {:induction false} HeightSumJoin(wt: seq<nat>, par: seq<int>, n: nat, x: nat, y: nat, k: nat)
    requires n + 1 < |wt| && n + 1 < |par| && IsRoot(par, n, x) && IsRoot(par, n, y) && x != y && k <= n
    requires DepthOf(wt[x]) < 255 && DepthOf(wt[y]) < 255
    ensures HeightSum(wt[n + 1 := AddWeights(wt[x], wt[y])], Joined(par, n, x, y), k)
         == HeightSum(wt, par, k) - (if x <= k then Pow2(DepthOf(wt[x])) else 0)
            - (if y <= k then Pow2(DepthOf(wt[y])) else 0)
  {
    hide WeightOf, DepthOf, AddWeights, Joined, Pow2;
    if k > 0 { HeightSumJoin(wt, par, n, x, y, k - 1); }
  }

  lemma {:induction false} HeightSumJoined(wt: seq<nat>, par: seq<int>, n: nat, x: nat, y: nat)
    requires n + 1 < |wt| && n + 1 < |par| && IsRoot(par, n, x) && IsRoot(par, n, y) && x != y
    requires DepthOf(wt[x]) < 255 && DepthOf(wt[y]) < 255
    ensures HeightSum(wt[n + 1 := AddWeights(wt[x], wt[y])], Joined(par, n, x, y), n + 1)
         == HeightSum(wt, par, n) - Pow2(DepthOf(wt[x])) - Pow2(DepthOf(wt[y]))
            + Pow2(1 + Max(DepthOf(wt[x]), DepthOf(wt[y])))
  {
    hide WeightOf, DepthOf, Joined, Pow2;
    HeightSumJoin(wt, par, n, x, y, n);
  }

  /** With all roots but x on level h + 1 the sum is an odd multiple of 2^h. */
  lemma {:induction false} OddMultiple(wt: seq<nat>, par: seq<int>, n: nat, h: nat, x: nat, k: nat) returns (q: nat)
    requires OneBelow(wt, par, n, h, x) && k <= n
    ensures k < |wt| && k < |par|
    ensures HeightSum(wt, par, k) == q * Pow2(h + 1) + if x <= k then Pow2(h) else 0
  {
    hide DepthOf, Pow2;
    RootRange(par, n, x);
    assert n < |wt| && n < |par|;
    q := 0;
    if k > 0 {
      var q0 := OddMultiple(wt, par, n, h, x, k - 1);
      q := q0;
      if par[k] == -1 {
        assert IsRoot(par, n, k);
        if k != x { q := q0 + 1; }
      }
    }
  }

  lemma {:induction false} JoinSum(wt: seq<nat>, par: seq<int>, n: nat, h: nat, m: nat, x: nat, y: nat)
    requires Balanced(wt, par, n, h, m) && NextTwo(wt, par, n, x, y) && n + 1 < |wt| && n + 1 < |par|
    requires DepthOf(wt[x]) < 255 && DepthOf(wt[y]) < 255
    ensures HeightSum(wt[n + 1 := AddWeights(wt[x], wt[y])], Joined(par, n, x, y), n + 1) <= Pow2(m)
  {
    hide CloseWeights, TwoLevels, WeightOf, DepthOf, Joined, Pow2, HeightSum, AddWeights;
    LevelsOfTwo(wt, par, n, h, x, y);
    HeightSumJoin(wt, par, n, x, y, n);
    HeightSumJoined(wt, par, n, x, y);
    PowerNext(DepthOf(wt[y]));
    PowerNext(h);
    if DepthOf(wt[x]) != DepthOf(wt[y]) {
      var q := OddMultiple(wt, par, n, h, x, n);
      assert IsRoot(par, n, y);
      OddAbove(q, Pow2(h), HeightSum(wt, par, n));
      MultiplesOfPower(q, h, m);
      assert (q + 1) * Pow2(h + 1) == q * Pow2(h + 1) + Pow2(h + 1);
      PowerNext(h + 1);
    }
  }

  /** Joining the two lightest roots keeps the balance. */
  lemma {:induction false} JoinBalance(wt: seq<nat>, par: seq<int>, n: nat, m: nat, x: nat, y: nat)
    requires InBalance(wt, par, n, m) && NextTwo(wt, par, n, x, y) && n + 1 < |wt| && n + 1 < |par|
    requires DepthOf(wt[x]) < 255 && DepthOf(wt[y]) < 255
    ensures InBalance(wt[n + 1 := AddWeights(wt[x], wt[y])], Joined(par, n, x, y), n + 1, m)
  {
    hide CloseWeights, TwoLevels, WeightOf, DepthOf, Pow2, HeightSum, AddWeights, Joined;
    var h: nat :| Balanced(wt, par, n, h, m);
    JoinSum(wt, par, n, h, m, x, y);
    JoinClose(wt, par, n, x, y);
    var h' := JoinLevels(wt, par, n, h, x, y);
    assert Balanced(wt[n + 1 := AddWeights(wt[x], wt[y])], Joined(par, n, x, y), n + 1, h', m);
  }

  /** Leaves of weight 1 and 2 are balanced. */
  lemma {:induction false} LeavesBalanced(wt: seq<nat>, par: seq<int>, a: nat, m: nat)
    requires a < |wt| && a < |par| && a <= Pow2(m)
    requires forall k :: 1 <= k <= a ==> 1 <= WeightOf(wt[k]) <= 2 && DepthOf(wt[k]) == 0 && par[k] == -1
    ensures InBalance(wt, par, a, m)
  {
    hide WeightOf, DepthOf, Pow2;
    LeafHeights(wt, par, a);
    assert Balanced(wt, par, a, 0, m);
  }

  lemma {:induction false} LeafHeights(wt: seq<nat>, par: seq<int>, a: nat)
    requires a < |wt| && a < |par|
    requires forall k :: 1 <= k <= a ==> DepthOf(wt[k]) == 0 && par[k] == -1
    ensures HeightSum(wt, par, a) == a
  {
    hide DepthOf;
    if a > 0 { LeafHeights(wt, par, a - 1); }
  }

  /** The height of a last root is at most m. */
  lemma {:induction false} BalancedRoot(wt: seq<nat>, par: seq<int>, n: nat, m: nat)
    requires InBalance(wt, par, n, m) && IsRoot(par, n, n)
    ensures n < |wt| && DepthOf(wt[n]) <= m
  {
    hide DepthOf, Pow2, TwoLevels;
    var h: nat :| Balanced(wt, par, n, h, m);
    PowerNext(m);
    if DepthOf(wt[n]) > m { Pow2Monotone(m + 1, DepthOf(wt[n])); }
  }
}
