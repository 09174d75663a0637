/** The forest that BZ2_hbMakeCodeLengths joins into one tree: its weights, heights and Kraft sum. */
module HuffmanTree {
  import opened Powers
  import opened KraftSums

  // ----- sums and powers

  function Sum(s: seq<nat>, k: nat): nat
    requires k <= |s|
  {
    if k == 0 then 0 else Sum(s, k - 1) + s[k - 1]
  }

  lemma {:induction false} SumUpdate(s: seq<nat>, i: nat, v: nat, k: nat)
    requires i < |s| && k <= |s|
    ensures Sum(s[i := v], k) == Sum(s, k) + if i < k then v - s[i] else 0
  {
    if k > 0 { SumUpdate(s, i, v, k - 1); }
  }

  lemma {:induction false} SumSame(s: seq<nat>, t: seq<nat>, k: nat)
    requires k <= |s| && k <= |t| && forall i :: 0 <= i < k ==> s[i] == t[i]
    ensures Sum(s, k) == Sum(t, k)
  {
    if k > 0 { SumSame(s, t, k - 1); }
  }

  lemma {:induction false} SumAtLeast(s: seq<nat>, i: nat, k: nat)
    requires i < k <= |s|
    ensures s[i] <= Sum(s, k)
  {
    if i < k - 1 { SumAtLeast(s, i, k - 1); }
  }

  /** The least total weight of a tree of the given height: 1, 2, 3, 5, 8, ... */
  function Fib(h: nat): (f: nat)
    ensures f >= 1
  {
    if h == 0 then 1 else if h == 1 then 2 else Fib(h - 1) + Fib(h - 2)
  }

  lemma {:induction false} FibMonotone(i: nat, j: nat)
    requires i <= j
    ensures Fib(i) <= Fib(j)
    decreases j
  {
    if i < j { FibMonotone(i, j - 1); }
  }

  lemma {:induction false} FibValues()
    ensures Fib(33) > 0x80_0000
  {
    assert Fib(2) == 3 && Fib(3) == 5 && Fib(4) == 8 && Fib(5) == 13 && Fib(6) == 21 && Fib(7) == 34;
    assert Fib(8) == 55 && Fib(9) == 89 && Fib(10) == 144 && Fib(11) == 233 && Fib(12) == 377 && Fib(13) == 610;
    assert Fib(14) == 987 && Fib(15) == 1597 && Fib(16) == 2584 && Fib(17) == 4181 && Fib(18) == 6765;
    assert Fib(19) == 10946 && Fib(20) == 17711 && Fib(21) == 28657 && Fib(22) == 46368 && Fib(23) == 75025;
    assert Fib(24) == 121393 && Fib(25) == 196418 && Fib(26) == 317811 && Fib(27) == 514229 && Fib(28) == 832040;
    assert Fib(29) == 1346269 && Fib(30) == 2178309 && Fib(31) == 3524578 && Fib(32) == 5702887;
  }

  // ----- packed weights: the sum of frequencies above, the height of the tree in the low byte

  function WeightOf(z: nat): nat { z / 256 }

  function DepthOf(z: nat): nat { z % 256 }

  function Max(a: nat, b: nat): nat { if a > b then a else b }

  /** ADDWEIGHTS; the OR does not overlap because no tree gets as high as 255. */
  function AddWeights(a: nat, b: nat): (z: nat)
    requires DepthOf(a) < 255 && DepthOf(b) < 255
    ensures WeightOf(z) == WeightOf(a) + WeightOf(b)
    ensures DepthOf(z) == 1 + Max(DepthOf(a), DepthOf(b))
  {
    256 * (WeightOf(a) + WeightOf(b)) + (1 + Max(DepthOf(a), DepthOf(b)))
  }

  // ----- the forest under construction

  datatype Pair = Pair(l: nat, r: nat)

  /** A parent is an inner node above its child, or -1 for a root. */
  ghost predicate ParentsAbove(par: seq<int>, a: nat, n: nat) {
    && 1 <= a <= n < |par|
    && forall k {:trigger par[k]} :: 1 <= k <= n ==> par[k] == -1 || (k < par[k] <= n && a < par[k])
  }

  /** Inner node a+1+m has the two children kids[m]. */
  ghost predicate KidsOf(par: seq<int>, a: nat, kids: seq<Pair>) {
    && a + |kids| < |par|
    && forall m {:trigger kids[m]} :: 0 <= m < |kids| ==> var node := a + 1 + m;
         && 1 <= kids[m].l < node && 1 <= kids[m].r < node && kids[m].l != kids[m].r
         && par[kids[m].l] == node && par[kids[m].r] == node
  }

  ghost predicate IsKid(par: seq<int>, a: nat, kids: seq<Pair>, k: nat)
    requires k < |par|
  {
    var m := par[k] - a - 1;
    0 <= m < |kids| && (k == kids[m].l || k == kids[m].r)
  }

  /** The forest: nodes 1..n, of which a are leaves, each inner node with exactly its two kids. */
  ghost predicate Forest(par: seq<int>, a: nat, n: nat, kids: seq<Pair>) {
    && ParentsAbove(par, a, n) && |kids| == n - a && KidsOf(par, a, kids)
    && forall k {:trigger IsKid(par, a, kids, k)} :: 1 <= k <= n && par[k] > 0 ==> IsKid(par, a, kids, k)
  }

  /** Every node is at least as heavy as its height demands, and leaves have height 0. */
  ghost predicate Heavy(wt: seq<nat>, a: nat, n: nat) {
    && a <= n < |wt|
    && (forall k {:trigger wt[k]} :: 1 <= k <= n ==> WeightOf(wt[k]) >= Fib(DepthOf(wt[k])))
    && (forall k {:trigger wt[k]} :: 1 <= k <= a ==> DepthOf(wt[k]) == 0)
  }

  /** Heights and weights of children; no child is heavier than least. */
  ghost predicate KidsWeighted(wt: seq<nat>, a: nat, kids: seq<Pair>, least: nat) {
    && a + |kids| < |wt|
    && forall m {:trigger kids[m]} :: 0 <= m < |kids| ==> var node := a + 1 + m;
         && kids[m].l < node && kids[m].r < node
         && DepthOf(wt[node]) == 1 + Max(DepthOf(wt[kids[m].l]), DepthOf(wt[kids[m].r]))
         && WeightOf(wt[node]) == WeightOf(wt[kids[m].l]) + WeightOf(wt[kids[m].r])
         && WeightOf(wt[kids[m].l]) <= WeightOf(wt[kids[m].r]) <= least
  }

  /** Children were taken in order of weight. */
  ghost predicate KidsSorted(wt: seq<nat>, a: nat, kids: seq<Pair>) {
    && (forall m {:trigger kids[m]} :: 0 <= m < |kids| ==> kids[m].l < |wt| && kids[m].r < |wt|)
    && forall m, k {:trigger kids[m], kids[k]} :: 0 <= m < k < |kids| ==>
       WeightOf(wt[kids[m].r]) <= WeightOf(wt[kids[k].l])
  }

  /** No root is lighter than least. */
  ghost predicate RootsWeighted(wt: seq<nat>, par: seq<int>, n: nat, least: nat) {
    && n < |wt| && n < |par|
    && forall k {:trigger par[k]} :: 1 <= k <= n && par[k] == -1 ==> WeightOf(wt[k]) >= least
  }

  ghost predicate Weighted(wt: seq<nat>, par: seq<int>, a: nat, n: nat, kids: seq<Pair>, least: nat) {
    && Forest(par, a, n, kids) && Heavy(wt, a, n)
    && KidsWeighted(wt, a, kids, least) && KidsSorted(wt, a, kids) && RootsWeighted(wt, par, n, least)
  }

  /** The bag of roots. */
  ghost predicate Roots(par: seq<int>, n: nat, live: multiset<nat>)
    requires n < |par|
  {
    forall k {:trigger live[k]} :: live[k] == if 1 <= k <= n && par[k] == -1 then 1 else 0
  }

  function Joined(par: seq<int>, n: nat, x: nat, y: nat): (p: seq<int>)
    requires n + 1 < |par| && x <= n && y <= n
    ensures |p| == |par|
    ensures forall k :: 0 <= k < |p| ==> p[k] == if k == n + 1 then -1 else if k == x || k == y then n + 1 else par[k]
  {
    par[x := n + 1][y := n + 1][n + 1 := -1]
  }

  lemma {:induction false} JoinForest(par: seq<int>, a: nat, n: nat, kids: seq<Pair>, x: nat, y: nat)
    requires Forest(par, a, n, kids) && n + 1 < |par|
    requires 1 <= x <= n && 1 <= y <= n && x != y && par[x] == -1 && par[y] == -1
    ensures Forest(Joined(par, n, x, y), a, n + 1, kids + [Pair(x, y)])
  {
    hide KidsOf, Joined;
    var par', kids' := Joined(par, n, x, y), kids + [Pair(x, y)];
    JoinKidsOf(par, a, n, kids, x, y);
    forall k | 1 <= k <= n + 1 && par'[k] > 0 ensures IsKid(par', a, kids', k) {
      if k != x && k != y { assert IsKid(par, a, kids, k); }
    }
  }

  lemma {:induction false} JoinKidsOf(par: seq<int>, a: nat, n: nat, kids: seq<Pair>, x: nat, y: nat)
    requires KidsOf(par, a, kids) && n == a + |kids| && n + 1 < |par|
    requires 1 <= x <= n && 1 <= y <= n && x != y && par[x] == -1 && par[y] == -1
    ensures KidsOf(Joined(par, n, x, y), a, kids + [Pair(x, y)])
  {
    hide Joined;
    var par', kids' := Joined(par, n, x, y), kids + [Pair(x, y)];
    forall m | 0 <= m < |kids'|
      ensures var node := a + 1 + m;
        && 1 <= kids'[m].l < node && 1 <= kids'[m].r < node && kids'[m].l != kids'[m].r
        && par'[kids'[m].l] == node && par'[kids'[m].r] == node
    {
      hide KidsWeighted, RootsWeighted, Forest, WeightOf, DepthOf;
      if m < |kids| { assert kids'[m] == kids[m]; }
    }
  }

  /** A new root is at least as heavy as its height demands. */
  lemma {:induction false} JoinWeight(wt: seq<nat>, par: seq<int>, a: nat, n: nat, kids: seq<Pair>, least: nat, x: nat,
                                      y: nat)
    requires Weighted(wt, par, a, n, kids, least)
    requires 1 <= x <= n && 1 <= y <= n && par[x] == -1 && par[y] == -1
    requires DepthOf(wt[x]) >= DepthOf(wt[y])
    ensures WeightOf(wt[x]) + WeightOf(wt[y]) >= Fib(DepthOf(wt[x]) + 1)
  {
    var h := DepthOf(wt[x]);
    if h > 0 {
      assert x > a;
      TallChild(wt, a, kids, least, x);
      assert WeightOf(wt[y]) >= least;
      var c :| 1 <= c < x && DepthOf(wt[c]) == h - 1 && WeightOf(wt[c]) <= least;
      assert WeightOf(wt[x]) >= Fib(h) && WeightOf(wt[c]) >= Fib(h - 1);
    }
  }

  /** One of the children is only one lower than the node. */
  lemma {:induction false} TallChild(wt: seq<nat>, a: nat, kids: seq<Pair>, least: nat, x: nat)
    requires KidsWeighted(wt, a, kids, least) && a < x <= a + |kids|
    requires forall m :: 0 <= m < |kids| ==> kids[m].l >= 1 && kids[m].r >= 1
    ensures exists c :: 1 <= c < x && DepthOf(wt[c]) == DepthOf(wt[x]) - 1 && WeightOf(wt[c]) <= least
  {
    hide WeightOf, DepthOf;
    var p := kids[x - a - 1];
    var c := if DepthOf(wt[p.l]) >= DepthOf(wt[p.r]) then p.l else p.r;
    assert DepthOf(wt[c]) == DepthOf(wt[x]) - 1;
  }

  lemma {:induction false} JoinHeavy(wt: seq<nat>, par: seq<int>, a: nat, n: nat, kids: seq<Pair>, least: nat, x: nat,
                                     y: nat)
    requires Weighted(wt, par, a, n, kids, least) && n + 1 < |wt|
    requires 1 <= x <= n && 1 <= y <= n && par[x] == -1 && par[y] == -1
    requires DepthOf(wt[x]) < 255 && DepthOf(wt[y]) < 255
    ensures Heavy(wt[n + 1 := AddWeights(wt[x], wt[y])], a, n + 1)
  {
    hide Fib, AddWeights, WeightOf, DepthOf, Forest, KidsWeighted, RootsWeighted;
    if DepthOf(wt[x]) >= DepthOf(wt[y]) {
      JoinWeight(wt, par, a, n, kids, least, x, y);
    } else {
      JoinWeight(wt, par, a, n, kids, least, y, x);
    }
  }

  lemma {:induction false} JoinKids(wt: seq<nat>, a: nat, kids: seq<Pair>, least: nat, x: nat, y: nat)
    requires KidsWeighted(wt, a, kids, least) && a + |kids| + 1 < |wt|
    requires x <= a + |kids| && y <= a + |kids|
    requires WeightOf(wt[x]) <= WeightOf(wt[y]) && least <= WeightOf(wt[y])
    requires DepthOf(wt[x]) < 255 && DepthOf(wt[y]) < 255
    ensures KidsWeighted(wt[a + |kids| + 1 := AddWeights(wt[x], wt[y])], a, kids + [Pair(x, y)], WeightOf(wt[y]))
  {
    hide AddWeights, WeightOf, DepthOf;
    var wt', kids' := wt[a + |kids| + 1 := AddWeights(wt[x], wt[y])], kids + [Pair(x, y)];
    forall m | 0 <= m < |kids'|
      ensures var node := a + 1 + m;
        && kids'[m].l < node && kids'[m].r < node
        && DepthOf(wt'[node]) == 1 + Max(DepthOf(wt'[kids'[m].l]), DepthOf(wt'[kids'[m].r]))
        && WeightOf(wt'[node]) == WeightOf(wt'[kids'[m].l]) + WeightOf(wt'[kids'[m].r])
        && WeightOf(wt'[kids'[m].l]) <= WeightOf(wt'[kids'[m].r]) <= WeightOf(wt[y])
    {
      if m < |kids| { assert kids'[m] == kids[m]; }
    }
  }

  lemma {:induction false} JoinSorted(wt: seq<nat>, a: nat, kids: seq<Pair>, least: nat, x: nat, y: nat)
    requires KidsWeighted(wt, a, kids, least) && KidsSorted(wt, a, kids) && a + |kids| + 1 < |wt|
    requires x <= a + |kids| && y <= a + |kids|
    requires least <= WeightOf(wt[x])
    requires DepthOf(wt[x]) < 255 && DepthOf(wt[y]) < 255
    ensures KidsSorted(wt[a + |kids| + 1 := AddWeights(wt[x], wt[y])], a, kids + [Pair(x, y)])
  {
    hide AddWeights, WeightOf, DepthOf;
    var wt', kids' := wt[a + |kids| + 1 := AddWeights(wt[x], wt[y])], kids + [Pair(x, y)];
    forall m | 0 <= m < |kids'| ensures kids'[m].l < |wt'| && kids'[m].r < |wt'| {
      if m < |kids| { assert kids'[m] == kids[m]; }
    }
    forall m, k | 0 <= m < k < |kids'| ensures WeightOf(wt'[kids'[m].r]) <= WeightOf(wt'[kids'[k].l]) {
      assert kids'[m] == kids[m];
      if k < |kids| { assert kids'[k] == kids[k]; }
    }
  }

  /** Joining the two lightest roots x and y under a new node n+1 keeps everything. */
  lemma {:induction false} JoinWeighted(wt: seq<nat>, par: seq<int>, a: nat, n: nat, kids: seq<Pair>, least: nat,
                                        x: nat, y: nat)
    requires Weighted(wt, par, a, n, kids, least) && n + 1 < |par| && n + 1 < |wt|
    requires 1 <= x <= n && 1 <= y <= n && x != y && par[x] == -1 && par[y] == -1
    requires WeightOf(wt[x]) <= WeightOf(wt[y])
    requires forall k :: 1 <= k <= n && par[k] == -1 && k != x ==> WeightOf(wt[y]) <= WeightOf(wt[k])
    requires DepthOf(wt[x]) < 255 && DepthOf(wt[y]) < 255
    ensures Weighted(wt[n + 1 := AddWeights(wt[x], wt[y])], Joined(par, n, x, y),
                     a, n + 1, kids + [Pair(x, y)], WeightOf(wt[y]))
  {
    hide AddWeights, WeightOf, DepthOf, Heavy, KidsWeighted, KidsSorted;
    JoinForest(par, a, n, kids, x, y);
    JoinHeavy(wt, par, a, n, kids, least, x, y);
    assert |kids| == n - a;
    assert WeightOf(wt[y]) >= least;
    JoinKids(wt, a, kids, least, x, y);
    JoinSorted(wt, a, kids, least, x, y);
    hide Forest;
    JoinRoots(wt, par, n, least, x, y);
  }

  lemma {:induction false} JoinRoots(wt: seq<nat>, par: seq<int>, n: nat, least: nat, x: nat, y: nat)
    requires RootsWeighted(wt, par, n, least) && n + 1 < |par| && n + 1 < |wt|
    requires 1 <= x <= n && 1 <= y <= n && x != y
    requires forall k :: 1 <= k <= n && par[k] == -1 && k != x ==> WeightOf(wt[y]) <= WeightOf(wt[k])
    requires DepthOf(wt[x]) < 255 && DepthOf(wt[y]) < 255
    ensures RootsWeighted(wt[n + 1 := AddWeights(wt[x], wt[y])], Joined(par, n, x, y),
                          n + 1, WeightOf(wt[y]))
  {
    hide AddWeights, DepthOf;
  }

  // ----- the total weight of the roots never changes

  function RootSum(wt: seq<nat>, par: seq<int>, k: nat): nat
    requires k < |wt| && k < |par|
  {
    if k == 0 then 0 else RootSum(wt, par, k - 1) + if par[k] == -1 then WeightOf(wt[k]) else 0
  }

  lemma {:induction false} RootSumJoin(wt: seq<nat>, par: seq<int>, n: nat, x: nat, y: nat, k: nat)
    requires n + 1 < |wt| && n + 1 < |par| && 1 <= x <= n && 1 <= y <= n && x != y && par[x] == -1 && par[y] == -1
    requires DepthOf(wt[x]) < 255 && DepthOf(wt[y]) < 255 && k <= n
    ensures RootSum(wt[n + 1 := AddWeights(wt[x], wt[y])], Joined(par, n, x, y), k)
         == RootSum(wt, par, k) - (if x <= k then WeightOf(wt[x]) else 0) - (if y <= k then WeightOf(wt[y]) else 0)
  {
    hide WeightOf, DepthOf, AddWeights, Joined;
    if k > 0 { RootSumJoin(wt, par, n, x, y, k - 1); }
  }

  lemma {:induction false} RootSumKept(wt: seq<nat>, par: seq<int>, n: nat, x: nat, y: nat)
    requires n + 1 < |wt| && n + 1 < |par| && 1 <= x <= n && 1 <= y <= n && x != y && par[x] == -1 && par[y] == -1
    requires DepthOf(wt[x]) < 255 && DepthOf(wt[y]) < 255
    ensures RootSum(wt[n + 1 := AddWeights(wt[x], wt[y])], Joined(par, n, x, y), n + 1) == RootSum(wt, par, n)
  {
    hide WeightOf, DepthOf, AddWeights, Joined;
    RootSumJoin(wt, par, n, x, y, n);
  }

  lemma {:induction false} RootAtMost(wt: seq<nat>, par: seq<int>, x: nat, k: nat)
    requires 1 <= x <= k && k < |wt| && k < |par| && par[x] == -1
    ensures WeightOf(wt[x]) <= RootSum(wt, par, k)
  {
    hide WeightOf;
    if x < k { RootAtMost(wt, par, x, k - 1); }
  }

  /** A tree of height h needs a weight of Fib(h): with less than 2^23 to share out, none gets 33 high. */
  lemma {:induction false} HeightBound(wt: seq<nat>, a: nat, n: nat, k: nat, limit: nat)
    requires Heavy(wt, a, n) && 1 <= k <= n && WeightOf(wt[k]) <= limit
    ensures Fib(DepthOf(wt[k])) <= limit
    ensures limit < 0x80_0000 ==> DepthOf(wt[k]) < 33
  {
    hide WeightOf, DepthOf, Fib;
    FibValues();
    FibLarge(DepthOf(wt[k]), 33);
  }

  lemma {:induction false} FibLarge(h: nat, k: nat)
    ensures h >= k ==> Fib(h) >= Fib(k)
  {
    if h >= k { FibMonotone(k, h); }
  }

  // ----- depth of a node, as the code reads it off the parent links

  function Depth(par: seq<int>, a: nat, n: nat, k: nat): nat
    requires ParentsAbove(par, a, n) && 1 <= k <= n
    decreases n - k
  {
    if par[k] == -1 then 0 else 1 + Depth(par, a, n, par[k])
  }

  /** The only root is the last node. */
  ghost predicate SingleTree(par: seq<int>, a: nat, n: nat, kids: seq<Pair>) {
    Forest(par, a, n, kids) && forall k {:trigger par[k]} :: 1 <= k < n ==> par[k] != -1
  }

  lemma {:induction false} DepthHeight(wt: seq<nat>, par: seq<int>, a: nat, n: nat, kids: seq<Pair>, least: nat, k: nat)
    requires Weighted(wt, par, a, n, kids, least) && SingleTree(par, a, n, kids) && 1 <= k <= n
    ensures Depth(par, a, n, k) + DepthOf(wt[k]) <= DepthOf(wt[n])
    decreases n - k
  {
    hide DepthOf, WeightOf, Heavy, RootsWeighted, KidsOf, KidsSorted;
    if k < n {
      assert IsKid(par, a, kids, k);
      var p := par[k];
      DepthHeight(wt, par, a, n, kids, least, p);
    }
  }

  lemma {:induction false} RootHeaviest(wt: seq<nat>, par: seq<int>, a: nat, n: nat, kids: seq<Pair>, least: nat,
                                        k: nat)
    requires Weighted(wt, par, a, n, kids, least) && SingleTree(par, a, n, kids) && 1 <= k <= n
    ensures WeightOf(wt[k]) <= WeightOf(wt[n])
    decreases n - k
  {
    hide DepthOf, WeightOf, Heavy, RootsWeighted, KidsOf, KidsSorted;
    if k < n {
      assert IsKid(par, a, kids, k);
      RootHeaviest(wt, par, a, n, kids, least, par[k]);
    }
  }

  /** The parents of a lighter and a heavier node are one node, or again a lighter and a heavier one. */
  lemma {:induction false} LighterParent(wt: seq<nat>, par: seq<int>, a: nat, n: nat, kids: seq<Pair>, least: nat,
                                         i: nat, j: nat)
    requires Weighted(wt, par, a, n, kids, least) && SingleTree(par, a, n, kids) && 1 <= i < n && 1 <= j < n
    requires WeightOf(wt[i]) < WeightOf(wt[j])
    ensures par[i] == par[j] || WeightOf(wt[par[i]]) < WeightOf(wt[par[j]])
  {
    hide DepthOf, WeightOf, Heavy, RootsWeighted, KidsOf;
    assert IsKid(par, a, kids, i) && IsKid(par, a, kids, j);
    var p, q := kids[par[i] - a - 1], kids[par[j] - a - 1];
    assert WeightOf(wt[p.l]) <= WeightOf(wt[p.r]) && WeightOf(wt[q.l]) <= WeightOf(wt[q.r]);
  }

  /** A heavier node is never deeper than a lighter one. */
  lemma {:induction false} LighterIsDeeper(wt: seq<nat>, par: seq<int>, a: nat, n: nat, kids: seq<Pair>, least: nat,
                                           i: nat, j: nat)
    requires Weighted(wt, par, a, n, kids, least) && SingleTree(par, a, n, kids) && 1 <= i <= n && 1 <= j <= n
    requires WeightOf(wt[i]) < WeightOf(wt[j])
    ensures Depth(par, a, n, i) >= Depth(par, a, n, j)
    decreases n - i + n - j
  {
    hide DepthOf, WeightOf, Heavy, RootsWeighted, KidsOf, KidsSorted, KidsWeighted, IsKid;
    RootHeaviest(wt, par, a, n, kids, least, j);
    if j < n {
      LighterParent(wt, par, a, n, kids, least, i, j);
      if par[i] != par[j] { LighterIsDeeper(wt, par, a, n, kids, least, par[i], par[j]); }
    }
  }

  // ----- the Kraft sum

  /** Inner nodes above m expanded: the nodes that are cut off stand for 2^(limit - depth) each. */
  function Frontier(par: seq<int>, a: nat, n: nat, limit: nat, m: nat): (s: seq<nat>)
    requires ParentsAbove(par, a, n)
    requires forall k :: 1 <= k <= n ==> Depth(par, a, n, k) <= limit
    ensures |s| == n + 1
    ensures forall k :: 0 <= k <= n ==> (s[k] ==
      if 1 <= k <= m && (par[k] == -1 || par[k] > m) then Pow2(limit - Depth(par, a, n, k)) else 0)
  {
    seq(n + 1, k requires 0 <= k <= n =>
      if 1 <= k <= m && (par[k] == -1 || par[k] > m) then Pow2(limit - Depth(par, a, n, k)) else 0)
  }

  lemma {:induction false} DepthsWithin(par: seq<int>, a: nat, n: nat, kids: seq<Pair>, limit: nat, k: nat)
    requires Forest(par, a, n, kids) && 1 <= k <= n
    requires forall i :: 1 <= i <= a ==> Depth(par, a, n, i) <= limit
    ensures Depth(par, a, n, k) <= limit
    decreases k
  {
    if k > a {
      var p := kids[k - a - 1];
      DepthsWithin(par, a, n, kids, limit, p.l);
    }
  }

  /** Expanding node m replaces it by two nodes one deeper. */
  lemma {:induction false} FrontierStep(par: seq<int>, a: nat, n: nat, kids: seq<Pair>, limit: nat, m: nat)
    requires Forest(par, a, n, kids) && a < m <= n
    requires forall k :: 1 <= k <= n ==> Depth(par, a, n, k) <= limit
    ensures Sum(Frontier(par, a, n, limit, m - 1), n + 1) == Sum(Frontier(par, a, n, limit, m), n + 1)
  {
    var p := kids[m - a - 1];
    var s := Frontier(par, a, n, limit, m);
    assert Depth(par, a, n, p.l) == Depth(par, a, n, m) + 1 == Depth(par, a, n, p.r);
    var q := Pow2(limit - Depth(par, a, n, p.l));
    assert s[m] == 2 * q;
    var t := s[m := 0][p.l := q][p.r := q];
    FrontierEntries(par, a, n, kids, limit, m, q, t);
    SumUpdate(s, m, 0, n + 1);
    SumUpdate(s[m := 0], p.l, q, n + 1);
    SumUpdate(s[m := 0][p.l := q], p.r, q, n + 1);
  }

  lemma {:induction false} FrontierEntries(par: seq<int>, a: nat, n: nat, kids: seq<Pair>, limit: nat, m: nat, q: nat,
                                           t: seq<nat>)
    requires Forest(par, a, n, kids) && a < m <= n
    requires forall k :: 1 <= k <= n ==> Depth(par, a, n, k) <= limit
    requires var p := kids[m - a - 1];
      && q == Pow2(limit - Depth(par, a, n, p.l)) == Pow2(limit - Depth(par, a, n, p.r))
      && t == Frontier(par, a, n, limit, m)[m := 0][p.l := q][p.r := q]
    ensures t == Frontier(par, a, n, limit, m - 1)
  {
    hide Depth, Pow2;
    forall k | 0 <= k <= n ensures t[k] == Frontier(par, a, n, limit, m - 1)[k] {
      if 1 <= k && par[k] > 0 { assert IsKid(par, a, kids, k); }
    }
  }

  lemma {:induction false} FrontierConstant(par: seq<int>, a: nat, n: nat, kids: seq<Pair>, limit: nat, m: nat)
    requires Forest(par, a, n, kids) && a <= m <= n
    requires forall k :: 1 <= k <= n ==> Depth(par, a, n, k) <= limit
    ensures Sum(Frontier(par, a, n, limit, m), n + 1) == Sum(Frontier(par, a, n, limit, a), n + 1)
    decreases m
  {
    hide Forest, Depth, Frontier;
    if m > a {
      FrontierStep(par, a, n, kids, limit, m);
      FrontierConstant(par, a, n, kids, limit, m - 1);
    }
  }

  lemma {:induction false} SumZero(s: seq<nat>, i: nat, k: nat)
    requires i <= k <= |s| && forall x :: i <= x < k ==> s[x] == 0
    ensures Sum(s, k) == Sum(s, i)
    decreases k
  {
    if i < k { SumZero(s, i, k - 1); }
  }

  lemma {:induction false} KraftIsFrontier(par: seq<int>, a: nat, n: nat, limit: nat, len: seq<nat>, k: nat)
    requires ParentsAbove(par, a, n) && |len| == a && k <= a
    requires forall i :: 1 <= i <= n ==> Depth(par, a, n, i) <= limit
    requires forall i :: 0 <= i < a ==> len[i] == Depth(par, a, n, i + 1)
    ensures Sum(Frontier(par, a, n, limit, a), k + 1) == Kraft(len, limit, k)
  {
    hide Depth, Pow2;
    if k > 0 { KraftIsFrontier(par, a, n, limit, len, k - 1); }
  }

  /** The lengths read off a single tree make a complete prefix code. */
  lemma {:induction false} TreeKraft(par: seq<int>, a: nat, n: nat, kids: seq<Pair>, limit: nat, len: seq<nat>)
    requires SingleTree(par, a, n, kids) && |len| == a
    requires forall i :: 0 <= i < a ==> len[i] == Depth(par, a, n, i + 1) <= limit
    ensures Kraft(len, limit, a) == Pow2(limit)
  {
    forall k | 1 <= k <= n ensures Depth(par, a, n, k) <= limit {
      forall i | 1 <= i <= a ensures Depth(par, a, n, i) <= limit { assert len[i - 1] <= limit; }
      DepthsWithin(par, a, n, kids, limit, k);
    }
    KraftEnds(par, a, n, kids, limit, len);
  }

  lemma {:induction false} KraftEnds(par: seq<int>, a: nat, n: nat, kids: seq<Pair>, limit: nat, len: seq<nat>)
    requires SingleTree(par, a, n, kids) && |len| == a
    requires forall i :: 0 <= i < a ==> len[i] == Depth(par, a, n, i + 1) <= limit
    requires forall k :: 1 <= k <= n ==> Depth(par, a, n, k) <= limit
    ensures Kraft(len, limit, a) == Pow2(limit)
  {
    hide Depth, KidsOf, Frontier, Kraft, Pow2, Sum;
    TopFrontier(par, a, n, limit);
    LeafFrontier(par, a, n, limit);
    FrontierConstant(par, a, n, kids, limit, n);
    KraftIsFrontier(par, a, n, limit, len, a);
  }

  lemma {:induction false} TopFrontier(par: seq<int>, a: nat, n: nat, limit: nat)
    requires ParentsAbove(par, a, n)
    requires forall k :: 1 <= k < n ==> par[k] != -1
    requires forall k :: 1 <= k <= n ==> Depth(par, a, n, k) <= limit
    ensures Sum(Frontier(par, a, n, limit, n), n + 1) == Pow2(limit)
  {
    assert Depth(par, a, n, n) == 0;
    hide Depth, Pow2;
    var top := Frontier(par, a, n, limit, n);
    assert top[n] == Pow2(limit);
    forall x | 0 <= x < n ensures top[x] == 0 { }
    hide Frontier, ParentsAbove;
    SumZero(top, 0, n);
  }

  lemma {:induction false} LeafFrontier(par: seq<int>, a: nat, n: nat, limit: nat)
    requires ParentsAbove(par, a, n)
    requires forall k :: 1 <= k <= n ==> Depth(par, a, n, k) <= limit
    ensures Sum(Frontier(par, a, n, limit, a), n + 1) == Sum(Frontier(par, a, n, limit, a), a + 1)
  {
    hide Depth, Pow2, Sum;
    SumZero(Frontier(par, a, n, limit, a), a + 1, n + 1);
  }
}
