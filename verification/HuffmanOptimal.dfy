/** No prefix code is cheaper than the one that BZ2_hbMakeCodeLengths reads off its tree. */
module HuffmanOptimal {
  import opened Powers
  import opened HuffmanTree

  // ----- the forest after the nodes up to m have been made

  /** Node k was a root when the last node was m. */
  ghost predicate Live(par: seq<int>, m: nat, k: nat) {
    1 <= k <= m && k < |par| && (par[k] == -1 || par[k] > m)
  }

  /** The sum of v over these roots, as far as k. */
  ghost function LiveSum(par: seq<int>, m: nat, v: seq<nat>, k: nat): nat
    requires k < |v|
  {
    if k == 0 then 0 else LiveSum(par, m, v, k - 1) + if Live(par, m, k) then v[k] else 0
  }

  lemma {:induction false} LiveSumUpdate(par: seq<int>, m: nat, v: seq<nat>, i: nat, u: nat, k: nat)
    requires i < |v| && k < |v|
    ensures LiveSum(par, m, v[i := u], k) == LiveSum(par, m, v, k) + if Live(par, m, i) && i <= k then u - v[i] else 0
  {
    hide Live;
    LiveRange(par, m, i);
    if k > 0 { LiveSumUpdate(par, m, v, i, u, k - 1); }
  }

  lemma {:induction false} LiveRange(par: seq<int>, m: nat, k: nat)
    ensures Live(par, m, k) ==> 1 <= k <= m
  {
  }

  lemma {:induction false} LiveAtLeast(par: seq<int>, m: nat, v: seq<nat>, i: nat, k: nat)
    requires k < |v| && Live(par, m, i) && i <= k
    ensures v[i] <= LiveSum(par, m, v, k)
  {
    hide Live;
    LiveRange(par, m, i);
    if i < k { LiveAtLeast(par, m, v, i, k - 1); }
  }

  /** Nodes x and y get the parent m + 1. */
  ghost predicate Fused(par: seq<int>, m: nat, x: nat, y: nat) {
    && Live(par, m, x) && Live(par, m, y) && x != y && m + 1 < |par|
    && forall k: nat {:trigger Live(par, m, k)} {:trigger Live(par, m + 1, k)} ::
       Live(par, m + 1, k) <==> k == m + 1 || (Live(par, m, k) && k != x && k != y)
  }

  lemma {:induction false} LiveSumFused(par: seq<int>, m: nat, v: seq<nat>, x: nat, y: nat, u: nat, k: nat)
    requires Fused(par, m, x, y) && m + 1 < |v| && k <= m
    ensures LiveSum(par, m + 1, v[m + 1 := u], k)
      == LiveSum(par, m, v, k) - (if x <= k then v[x] else 0) - (if y <= k then v[y] else 0)
  {
    hide Live;
    LiveRange(par, m, x);
    LiveRange(par, m, y);
    if k > 0 { LiveSumFused(par, m, v, x, y, u, k - 1); }
  }

  lemma {:induction false} LiveSumNext(par: seq<int>, m: nat, v: seq<nat>, x: nat, y: nat, u: nat)
    requires Fused(par, m, x, y) && m + 1 < |v| && x < |v| && y < |v|
    ensures LiveSum(par, m + 1, v[m + 1 := u], m + 1) == LiveSum(par, m, v, m) - v[x] - v[y] + u
  {
    hide Live;
    LiveRange(par, m, x);
    LiveRange(par, m, y);
    LiveSumFused(par, m, v, x, y, u, m);
  }

  // ----- other depths for the same roots

  ghost function Costs(w: seq<nat>, d: seq<nat>): (v: seq<nat>)
    requires |w| == |d|
    ensures |v| == |d| && forall k :: 0 <= k < |d| ==> v[k] == w[k] * d[k]
  {
    seq(|d|, k requires 0 <= k < |d| => w[k] * d[k])
  }

  ghost function Share(limit: nat, depth: nat): nat {
    if depth <= limit then Pow2(limit - depth) else 0
  }

  ghost function Shares(d: seq<nat>, limit: nat): (v: seq<nat>)
    ensures |v| == |d| && forall k :: 0 <= k < |d| ==> v[k] == Share(limit, d[k])
  {
    seq(|d|, k requires 0 <= k < |d| => Share(limit, d[k]))
  }

  ghost function Cost(w: seq<nat>, par: seq<int>, m: nat, d: seq<nat>): nat
    requires |w| == |d| && m < |d|
  {
    LiveSum(par, m, Costs(w, d), m)
  }

  /** Codes of these lengths for the roots exist. */
  ghost predicate Feasible(par: seq<int>, m: nat, d: seq<nat>, limit: nat) {
    && m < |d|
    && (forall k: nat {:trigger Live(par, m, k)} :: Live(par, m, k) ==> d[k] <= limit)
    && LiveSum(par, m, Shares(d, limit), m) <= Pow2(limit)
  }

  lemma {:induction false} CostUpdate(w: seq<nat>, par: seq<int>, m: nat, d: seq<nat>, i: nat, u: nat)
    requires |w| == |d| && m < |d| && Live(par, m, i)
    ensures i < |d| && Cost(w, par, m, d[i := u]) == Cost(w, par, m, d) + w[i] * u - w[i] * d[i]
  {
    LiveRange(par, m, i);
    assert Costs(w, d[i := u]) == Costs(w, d)[i := w[i] * u];
    LiveSumUpdate(par, m, Costs(w, d), i, w[i] * u, m);
  }

  lemma {:induction false} SharesUpdate(par: seq<int>, m: nat, d: seq<nat>, limit: nat, i: nat, u: nat)
    requires m < |d| && Live(par, m, i)
    ensures i < |d| && LiveSum(par, m, Shares(d[i := u], limit), m)
      == LiveSum(par, m, Shares(d, limit), m) + Share(limit, u) - Share(limit, d[i])
  {
    LiveRange(par, m, i);
    hide Share;
    assert Shares(d[i := u], limit) == Shares(d, limit)[i := Share(limit, u)];
    LiveSumUpdate(par, m, Shares(d, limit), i, Share(limit, u), m);
  }

  lemma {:induction false} LimitsKept(par: seq<int>, m: nat, d: seq<nat>, limit: nat, i: nat, u: nat)
    requires Feasible(par, m, d, limit) && Live(par, m, i) && i < |d| && u <= limit
    requires LiveSum(par, m, Shares(d[i := u], limit), m) <= Pow2(limit)
    ensures Feasible(par, m, d[i := u], limit)
  {
  }

  /** Exchanging depths so that the lighter one is the deeper one costs nothing. */
  lemma {:induction false} Exchange(w: seq<nat>, par: seq<int>, m: nat, d: seq<nat>, limit: nat, i: nat, j: nat)
    requires |w| == |d| && Feasible(par, m, d, limit) && Live(par, m, i) && Live(par, m, j)
    requires i < |d| && j < |d| && w[i] <= w[j] && d[i] <= d[j]
    ensures Feasible(par, m, d[i := d[j]][j := d[i]], limit)
    ensures Cost(w, par, m, d[i := d[j]][j := d[i]]) <= Cost(w, par, m, d)
  {
    hide Share, LiveSum, Pow2;
    var e := d[i := d[j]];
    var f := e[j := d[i]];
    CostUpdate(w, par, m, d, i, d[j]);
    CostUpdate(w, par, m, e, j, d[i]);
    SharesUpdate(par, m, d, limit, i, d[j]);
    SharesUpdate(par, m, e, limit, j, d[i]);
    if i == j {
      assert f == d;
    } else {
      Rearranged(w[i], w[j], d[i], d[j]);
      forall k: nat | Live(par, m, k) ensures f[k] <= limit { }
    }
  }

  lemma {:induction false} Rearranged(p: nat, q: nat, s: nat, t: nat)
    requires p <= q && s <= t
    ensures p * t + q * s <= p * s + q * t
  {
    assert (q - p) * (t - s) >= 0;
  }

  lemma {:induction false} NoneBelow(par: seq<int>, m: nat)
    ensures forall i: nat :: i <= 0 ==> !Live(par, m, i)
  {
  }

  lemma {:induction false} Deepest(par: seq<int>, m: nat, d: seq<nat>, x: nat, k: nat) returns (z: nat)
    requires m < |d| && Live(par, m, x) && x < |d| && k <= m
    ensures Live(par, m, z) && z < |d| && d[x] <= d[z]
    ensures forall i: nat :: Live(par, m, i) && i <= k ==> d[i] <= d[z]
  {
    hide Live;
    z := x;
    if k > 0 {
      z := Deepest(par, m, d, x, k - 1);
      if Live(par, m, k) && d[k] > d[z] { z := k; }
    } else {
      NoneBelow(par, m);
    }
  }

  // ----- joining the two lightest

  /** x and y are the lightest roots, and they are joined. */
  ghost predicate LightestFused(w: seq<nat>, par: seq<int>, m: nat, x: nat, y: nat) {
    && Fused(par, m, x, y) && m + 1 < |w| && x < |w| && y < |w| && w[x] <= w[y]
    && w[m + 1] == w[x] + w[y]
    && forall k: nat {:trigger Live(par, m, k)} :: Live(par, m, k) && k != x && k < |w| ==> w[y] <= w[k]
  }

  ghost predicate Cheaper(w: seq<nat>, par: seq<int>, m: nat, d: seq<nat>, limit: nat, x: nat, y: nat, e: seq<nat>) {
    && |w| == |d| == |e| && m + 1 < |w| && x < |w| && y < |w|
    && Feasible(par, m + 1, e, limit)
    && Cost(w, par, m + 1, e) + w[x] + w[y] <= Cost(w, par, m, d)
  }

  /** Siblings on the same level are replaced by their parent one level up. */
  lemma {:induction false} JoinSiblings(w: seq<nat>, par: seq<int>, m: nat, d: seq<nat>, limit: nat, x: nat, y: nat)
    requires LightestFused(w, par, m, x, y) && |w| == |d| && Feasible(par, m, d, limit) && d[x] == d[y] >= 1
    ensures Cheaper(w, par, m, d, limit, x, y, d[m + 1 := d[x] - 1])
  {
    hide Live, LiveSum, Pow2;
    LiveRange(par, m, x);
    LiveRange(par, m, y);
    var u := d[x] - 1;
    var e := d[m + 1 := u];
    assert Costs(w, e) == Costs(w, d)[m + 1 := w[m + 1] * u];
    LiveSumNext(par, m, Costs(w, d), x, y, w[m + 1] * u);
    OneLess(w[x], w[y], u);
    assert Shares(e, limit) == Shares(d, limit)[m + 1 := Share(limit, u)];
    LiveSumNext(par, m, Shares(d, limit), x, y, Share(limit, u));
    ShareAbove(limit, u);
    forall k: nat | Live(par, m + 1, k) ensures k < |e| && e[k] <= limit {
      LiveRange(par, m + 1, k);
      assert k == m + 1 || Live(par, m, k);
    }
  }

  lemma {:induction false} OneLess(p: nat, q: nat, u: nat)
    ensures (p + q) * u + p + q == p * (u + 1) + q * (u + 1)
  {
  }

  lemma {:induction false} ShareAbove(limit: nat, u: nat)
    ensures u < limit ==> Share(limit, u) == 2 * Share(limit, u + 1)
  {
  }

  lemma {:induction false} Distribute(q: nat, r: nat, p: nat)
    ensures (q + r) * p == q * p + r * p
  {
  }

  /** All other roots are above depth d[x], so that their shares are multiples of twice its share. */
  lemma {:induction false} SharesAbove(par: seq<int>, m: nat, d: seq<nat>, limit: nat, x: nat, k: nat) returns (q: nat)
    requires k <= m < |d| && Live(par, m, x) && x < |d| && d[x] <= limit
    requires forall i: nat :: Live(par, m, i) && i != x ==> i < |d| && d[i] < d[x]
    ensures LiveSum(par, m, Shares(d, limit), k)
      == q * Pow2(limit - d[x] + 1) + if x <= k then Pow2(limit - d[x]) else 0
  {
    hide Live, Pow2;
    q := 0;
    if k > 0 {
      q := SharesAbove(par, m, d, limit, x, k - 1);
      if Live(par, m, k) && k != x {
        PowerSplits(limit - d[x] + 1, limit - d[k]);
        var p, r := Pow2(limit - d[x] + 1), Pow2(limit - d[k] - (limit - d[x] + 1));
        Distribute(q, r, p);
        q := q + r;
      }
    } else {
      LiveRange(par, m, x);
    }
  }

  /** The deepest root can move up by one if it is alone on its level. */
  lemma {:induction false} MoveUp(w: seq<nat>, par: seq<int>, m: nat, d: seq<nat>, limit: nat, x: nat, y: nat)
    requires |w| == |d| && Feasible(par, m, d, limit) && Live(par, m, x) && Live(par, m, y) && x != y
    requires x < |d| && forall i: nat :: Live(par, m, i) && i != x ==> i < |d| && d[i] < d[x]
    ensures d[x] >= 1 && Feasible(par, m, d[x := d[x] - 1], limit)
    ensures Cost(w, par, m, d[x := d[x] - 1]) <= Cost(w, par, m, d)
  {
    hide Live, Pow2, LiveSum;
    assert d[y] < d[x];
    var u, h := d[x] - 1, limit - d[x];
    CostUpdate(w, par, m, d, x, u);
    assert w[x] * u <= w[x] * d[x];
    SharesUpdate(par, m, d, limit, x, u);
    LiveRange(par, m, x);
    LiveRange(par, m, y);
    var q := SharesAbove(par, m, d, limit, x, m);
    TwoShares(par, m, d, limit, x, y);
    PowerNext(h);
    OddAbove(q, Pow2(h), LiveSum(par, m, Shares(d, limit), m));
    MultiplesOfPower(q, h, limit);
    assert (q + 1) * Pow2(h + 1) == q * Pow2(h + 1) + Pow2(h + 1);
    LimitsKept(par, m, d, limit, x, u);
  }

  lemma {:induction false} TwoShares(par: seq<int>, m: nat, d: seq<nat>, limit: nat, x: nat, y: nat)
    requires Feasible(par, m, d, limit) && Live(par, m, x) && Live(par, m, y) && x != y && x < |d| && y < |d|
    ensures LiveSum(par, m, Shares(d, limit), m) > Share(limit, d[x])
  {
    hide Live, Pow2, LiveSum;
    LiveRange(par, m, x);
    LiveRange(par, m, y);
    var v := Shares(d, limit);
    LiveSumUpdate(par, m, v, x, 0, m);
    LiveAtLeast(par, m, v[x := 0], y, m);
  }

  /** The two lightest are joined when the lightest one is deepest. */
  lemma {:induction false} JoinDeepest(w: seq<nat>, par: seq<int>, m: nat, d: seq<nat>, limit: nat, x: nat, y: nat)
    returns (e: seq<nat>)
    requires LightestFused(w, par, m, x, y) && |w| == |d| && Feasible(par, m, d, limit)
    requires forall i: nat :: Live(par, m, i) && i < |d| ==> d[i] <= d[x]
    ensures Cheaper(w, par, m, d, limit, x, y, e)
    decreases d[x]
  {
    hide Live, Pow2, LiveSum, Cost;
    InRange(par, m);
    if z: nat :| Live(par, m, z) && z < |d| && z != x && d[z] == d[x] {
      Exchange(w, par, m, d, limit, y, z);
      TwoShares(par, m, d, limit, x, z);
      var f := d[y := d[z]][z := d[y]];
      e := f[m + 1 := f[x] - 1];
      JoinSiblings(w, par, m, f, limit, x, y);
    } else {
      MoveUp(w, par, m, d, limit, x, y);
      e := JoinDeepest(w, par, m, d[x := d[x] - 1], limit, x, y);
    }
  }

  lemma {:induction false} InRange(par: seq<int>, m: nat)
    ensures forall i: nat {:trigger Live(par, m, i)} :: Live(par, m, i) ==> i <= m
  {
  }

  /** Whatever the depths of the roots are, the two lightest can be joined at a gain of their weights. */
  lemma {:induction false} JoinLightest(w: seq<nat>, par: seq<int>, m: nat, d: seq<nat>, limit: nat, x: nat, y: nat)
    returns (e: seq<nat>)
    requires LightestFused(w, par, m, x, y) && |w| == |d| && Feasible(par, m, d, limit)
    ensures Cheaper(w, par, m, d, limit, x, y, e)
  {
    hide Live, Pow2, LiveSum, Cost;
    InRange(par, m);
    var z := Deepest(par, m, d, x, m);
    Exchange(w, par, m, d, limit, x, z);
    e := JoinDeepest(w, par, m, d[x := d[z]][z := d[x]], limit, x, y);
  }

  // ----- the tree

  /** Weights and depths of all nodes of a finished tree. */
  ghost predicate TreeOf(wt: seq<nat>, par: seq<int>, a: nat, n: nat, kids: seq<Pair>, least: nat, w: seq<nat>,
                         depth: seq<nat>)
  {
    && Weighted(wt, par, a, n, kids, least) && SingleTree(par, a, n, kids) && |w| == |depth| == n + 1
    && (forall k :: 1 <= k <= n ==> w[k] == WeightOf(wt[k]))
    && forall k :: 1 <= k <= n ==> depth[k] == Depth(par, a, n, k)
  }

  lemma {:induction false} NextJoin(wt: seq<nat>, par: seq<int>, a: nat, n: nat, kids: seq<Pair>, least: nat,
                                    w: seq<nat>, depth: seq<nat>, m: nat)
    requires TreeOf(wt, par, a, n, kids, least, w, depth) && a <= m < n
    ensures LightestFused(w, par, m, kids[m - a].l, kids[m - a].r)
    ensures depth[kids[m - a].l] == depth[kids[m - a].r] == depth[m + 1] + 1
  {
    hide WeightOf, DepthOf, Heavy, RootsWeighted;
    var x, y := kids[m - a].l, kids[m - a].r;
    assert par[x] == m + 1 && par[y] == m + 1;
    forall k: nat ensures Live(par, m + 1, k) <==> k == m + 1 || (Live(par, m, k) && k != x && k != y) {
      if 1 <= k <= m && par[k] == m + 1 { assert IsKid(par, a, kids, k); }
    }
    forall k: nat | Live(par, m, k) && k != x && k < |w| ensures w[y] <= w[k] {
      if k != y {
        assert par[k] > m + 1;
        assert IsKid(par, a, kids, k);
        var p := kids[par[k] - a - 1];
        assert WeightOf(wt[y]) <= WeightOf(wt[p.l]) <= WeightOf(wt[p.r]);
      }
    }
  }

  lemma {:induction false} DepthCost(w: seq<nat>, par: seq<int>, depth: seq<nat>, m: nat, x: nat, y: nat)
    requires LightestFused(w, par, m, x, y) && |w| == |depth| && depth[x] == depth[y] == depth[m + 1] + 1
    ensures Cost(w, par, m, depth) == Cost(w, par, m + 1, depth) + w[x] + w[y]
  {
    hide Live, LiveSum;
    InRange(par, m);
    var v := Costs(w, depth);
    assert v[m + 1 := w[m + 1] * depth[m + 1]] == v;
    LiveSumNext(par, m, v, x, y, w[m + 1] * depth[m + 1]);
    OneLess(w[x], w[y], depth[m + 1]);
  }

  lemma {:induction false} NoneCounted(par: seq<int>, m: nat, v: seq<nat>, k: nat)
    requires k < |v| && forall i :: 1 <= i <= k ==> !Live(par, m, i)
    ensures LiveSum(par, m, v, k) == 0
  {
    hide Live;
    if k > 0 { NoneCounted(par, m, v, k - 1); }
  }

  lemma {:induction false} RootCost(wt: seq<nat>, par: seq<int>, a: nat, n: nat, kids: seq<Pair>, least: nat,
                                    w: seq<nat>, depth: seq<nat>)
    requires TreeOf(wt, par, a, n, kids, least, w, depth)
    ensures Cost(w, par, n, depth) == 0
  {
    hide WeightOf, DepthOf, Heavy, RootsWeighted, KidsOf, KidsWeighted, KidsSorted, IsKid;
    NoneCounted(par, n, Costs(w, depth), n - 1);
    if Live(par, n, n) { assert depth[n] == 0; }
  }

  /** No depths for the roots at any stage are cheaper than those in the finished tree. */
  lemma {:induction false} DepthsOptimal(wt: seq<nat>, par: seq<int>, a: nat, n: nat, kids: seq<Pair>, least: nat,
                                         w: seq<nat>, depth: seq<nat>, m: nat, d: seq<nat>, limit: nat)
    requires TreeOf(wt, par, a, n, kids, least, w, depth) && a <= m <= n && |d| == n + 1
    requires Feasible(par, m, d, limit)
    ensures Cost(w, par, m, depth) <= Cost(w, par, m, d)
    decreases n - m
  {
    hide TreeOf, Cost, Live, LightestFused, Feasible;
    TreeSizes(wt, par, a, n, kids, least, w, depth);
    if m < n {
      var x, y := kids[m - a].l, kids[m - a].r;
      NextJoin(wt, par, a, n, kids, least, w, depth, m);
      var e := JoinLightest(w, par, m, d, limit, x, y);
      DepthsOptimal(wt, par, a, n, kids, least, w, depth, m + 1, e, limit);
      DepthCost(w, par, depth, m, x, y);
    } else {
      RootCost(wt, par, a, n, kids, least, w, depth);
    }
  }

  lemma {:induction false} TreeSizes(wt: seq<nat>, par: seq<int>, a: nat, n: nat, kids: seq<Pair>, least: nat,
                                     w: seq<nat>, depth: seq<nat>)
    requires TreeOf(wt, par, a, n, kids, least, w, depth)
    ensures |w| == |depth| == n + 1 && |kids| == n - a
    ensures forall j :: 0 <= j < |kids| ==> kids[j].l <= a + j && kids[j].r <= a + j
  {
    hide WeightOf, DepthOf, Heavy, RootsWeighted, KidsWeighted, KidsSorted;
  }
}
