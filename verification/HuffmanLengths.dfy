/** BZ2_hbMakeCodeLengths: a length-limited prefix code from symbol frequencies. */
module HuffmanLengths {
  import opened Bytes
  import opened CodeHeap
  import opened Powers
  import opened KraftSums
  import opened HuffmanTree
  import opened BalancedTree
  import HuffmanOptimal

  // ----- the heap and the forest together

  ghost predicate Sizes(heap: seq<nat>, wt: seq<nat>, par: seq<int>, a: nat) {
    && 2 <= a <= 258 && |heap| == 260 && |wt| == 516 && |par| == 516
  }

  /** A forest with n nodes whose roots are the bag; total is shared among them. */
  ghost predicate Growing(wt: seq<nat>, par: seq<int>, a: nat, n: nat, kids: seq<Pair>, least: nat,
                          bag: multiset<nat>, total: nat)
  {
    && n < |wt| && Weighted(wt, par, a, n, kids, least)
    && Roots(par, n, bag) && RootSum(wt, par, n) == total < 0x80_0000
  }

  /** The heap holds exactly the roots. */
  ghost predicate Merging(heap: seq<nat>, wt: seq<nat>, par: seq<int>, a: nat, n: nat, h: nat,
                          kids: seq<Pair>, least: nat, total: nat)
  {
    && Sizes(heap, wt, par, a) && 1 <= h <= a && n + h == 2 * a
    && Entries(heap, wt, h) && Ordered(heap, wt, h)
    && Growing(wt, par, a, n, kids, least, Bag(heap, h), total)
  }

  /** x and then y were taken from the bag of roots. */
  ghost predicate Lightest(wt: seq<nat>, bag: multiset<nat>, x: nat, y: nat) {
    Least(wt, bag, x) && Least(wt, bag - multiset{x}, y)
  }

  lemma {:induction false} LightestRoots(wt: seq<nat>, par: seq<int>, n: nat, bag: multiset<nat>, x: nat, y: nat)
    requires n < |par| && n < |wt| && Roots(par, n, bag) && Lightest(wt, bag, x, y)
    ensures 1 <= x <= n && 1 <= y <= n && x != y && par[x] == -1 && par[y] == -1
    ensures WeightOf(wt[x]) <= WeightOf(wt[y])
    ensures forall k :: 1 <= k <= n && par[k] == -1 && k != x ==> WeightOf(wt[y]) <= WeightOf(wt[k])
  {
    assert bag[x] == 1 && bag[y] == 1;
    assert y in bag;
    forall k | 1 <= k <= n && par[k] == -1 && k != x ensures WeightOf(wt[y]) <= WeightOf(wt[k]) {
      assert bag[k] == 1;
      assert (bag - multiset{x})[k] == 1;
    }
  }

  lemma {:induction false} LightestNext(wt: seq<nat>, par: seq<int>, n: nat, bag: multiset<nat>, x: nat, y: nat)
    requires n < |par| && n < |wt| && Roots(par, n, bag) && Lightest(wt, bag, x, y)
    ensures NextTwo(wt, par, n, x, y)
  {
    assert bag[x] == 1 && bag[y] == 1;
    assert y in bag;
    forall k: nat | IsRoot(par, n, k) && k != x ensures wt[y] <= wt[k] {
      assert bag[k] == 1;
      assert (bag - multiset{x})[k] == 1;
    }
  }

  lemma {:induction false} JoinRootBag(par: seq<int>, n: nat, bag: multiset<nat>, x: nat, y: nat)
    requires n + 1 < |par| && Roots(par, n, bag)
    requires 1 <= x <= n && 1 <= y <= n && x != y && par[x] == -1 && par[y] == -1
    ensures Roots(Joined(par, n, x, y), n + 1, bag - multiset{x} - multiset{y} + multiset{n + 1})
  {
    hide Joined;
    var bag' := bag - multiset{x} - multiset{y} + multiset{n + 1};
    var par' := Joined(par, n, x, y);
    assert bag[x] == 1 && bag[y] == 1;
    forall k: nat ensures bag'[k] == if 1 <= k <= n + 1 && par'[k] == -1 then 1 else 0 {
      assert bag[k] == bag[k];
    }
  }

  /** Writing the weight of a node that is not in the heap disturbs nothing. */
  lemma {:induction false} HeapApart(g: seq<nat>, w: seq<nat>, h: nat, n: nat, v: nat)
    requires Entries(g, w, h) && Ordered(g, w, h) && 0 < n < |w| && n !in Bag(g, h)
    ensures Entries(g, w[n := v], h) && Ordered(g, w[n := v], h)
  {
    forall i | 1 <= i <= h ensures W(g, w[n := v], i) == W(g, w, i) {
      assert g[1..h + 1][i - 1] == g[i];
    }
    forall i | 2 <= i <= h ensures W(g, w[n := v], i / 2) <= W(g, w[n := v], i) {
      assert W(g, w, i / 2) <= W(g, w, i);
    }
  }

  lemma {:induction false} LowTrees(wt: seq<nat>, par: seq<int>, a: nat, n: nat, kids: seq<Pair>, least: nat, x: nat)
    requires Weighted(wt, par, a, n, kids, least) && 1 <= x <= n && par[x] == -1
    requires RootSum(wt, par, n) < 0x80_0000
    ensures DepthOf(wt[x]) < 33
  {
    hide KidsWeighted, Forest, DepthOf, WeightOf, Fib, RootSum;
    RootAtMost(wt, par, x, n);
    HeightBound(wt, a, n, x, RootSum(wt, par, n));
  }

  lemma {:induction false} MergeStart(heap: seq<nat>, wt: seq<nat>, par: seq<int>, a: nat, n: nat, h: nat,
                   kids: seq<Pair>, least: nat, total: nat, x: nat, y: nat)
    requires Merging(heap, wt, par, a, n, h, kids, least, total) && h > 1 && Lightest(wt, Bag(heap, h), x, y)
    ensures n + 1 < |wt| && n + 1 < |par| && 1 <= x <= n && 1 <= y <= n && x != y
    ensures n + 1 !in Bag(heap, h) - multiset{x} - multiset{y}
    ensures DepthOf(wt[x]) < 255 && DepthOf(wt[y]) < 255
    ensures Growing(wt[n + 1 := AddWeights(wt[x], wt[y])], Joined(par, n, x, y),
                    a, n + 1, kids + [Pair(x, y)], WeightOf(wt[y]),
                    Bag(heap, h) - multiset{x} - multiset{y} + multiset{n + 1}, total)
    ensures NextTwo(wt, par, n, x, y)
  {
    hide AddWeights, Joined, WeightOf, DepthOf, Entries, Ordered, Lightest, Heavy, KidsWeighted, RootsWeighted, Forest;
    var bag := Bag(heap, h);
    assert bag[n + 1] == 0;
    hide Bag;
    LightestRoots(wt, par, n, bag, x, y);
    LightestNext(wt, par, n, bag, x, y);
    hide NextTwo;
    LowTrees(wt, par, a, n, kids, least, x);
    LowTrees(wt, par, a, n, kids, least, y);
    JoinRootBag(par, n, bag, x, y);
    hide Roots;
    RootSumKept(wt, par, n, x, y);
    JoinWeighted(wt, par, a, n, kids, least, x, y);
  }

  /** Makes node n+1 the parent of x and y. */
  method Join(weight: array<nat>, parent: array<int>, n: nat, x: nat, y: nat)
    requires weight as object != parent && n + 1 < weight.Length && n + 1 < parent.Length && x <= n && y <= n
    requires DepthOf(weight[x]) < 255 && DepthOf(weight[y]) < 255
    modifies weight, parent
    ensures weight[..] == old(weight[..])[n + 1 := AddWeights(old(weight[x]), old(weight[y]))]
    ensures parent[..] == Joined(old(parent[..]), n, x, y)
  {
    parent[x] := n + 1;
    parent[y] := n + 1;
    weight[n + 1] := AddWeights(weight[x], weight[y]);
    parent[n + 1] := -1;
  }

  lemma {:induction false} MergingOpen(heap: seq<nat>, wt: seq<nat>, par: seq<int>, a: nat, n: nat, h: nat,
                    kids: seq<Pair>, least: nat, total: nat)
    requires Merging(heap, wt, par, a, n, h, kids, least, total)
    ensures Entries(heap, wt, h) && Ordered(heap, wt, h) && h < |heap| && a <= n && n + h == 2 * a && a >= 1
    ensures |heap| == 260 && |wt| == |par| == 516 && a <= 258
  {
  }

  lemma {:induction false} MergingClose(g: seq<nat>, heap: seq<nat>, w: seq<nat>, p: seq<int>, wt: seq<nat>,
                                        par: seq<int>, a: nat, n: nat, h: nat,
                     kids: seq<Pair>, least: nat, total: nat, kids': seq<Pair>, least': nat)
    requires Merging(g, w, p, a, n, h, kids, least, total) && h > 1
    requires |heap| == |g| && |wt| == |w| && |par| == |p|
    requires Entries(heap, wt, h - 1) && Ordered(heap, wt, h - 1)
    requires Growing(wt, par, a, n + 1, kids', least', Bag(heap, h - 1), total)
    ensures Merging(heap, wt, par, a, n + 1, h - 1, kids', least', total)
  {
  }

  method AddJoined(heap: array<nat>, weight: array<nat>, parent: array<int>, n: nat, h: nat, x: nat, y: nat)
    requires heap != weight && parent as object != heap && parent as object != weight
    requires n + 1 < weight.Length && n + 1 < parent.Length && x <= n && y <= n
    requires DepthOf(weight[x]) < 255 && DepthOf(weight[y]) < 255
    requires Entries(heap[..], weight[..], h) && Ordered(heap[..], weight[..], h) && h + 1 < heap.Length
    requires n + 1 !in Bag(heap[..], h)
    modifies heap, weight, parent
    ensures weight[..] == old(weight[..])[n + 1 := AddWeights(old(weight[x]), old(weight[y]))]
    ensures parent[..] == Joined(old(parent[..]), n, x, y)
    ensures Entries(heap[..], weight[..], h + 1) && Ordered(heap[..], weight[..], h + 1)
    ensures Bag(heap[..], h + 1) == Bag(old(heap[..]), h) + multiset{n + 1}
  {
    hide *;
    HeapApart(heap[..], weight[..], h, n + 1, AddWeights(weight[x], weight[y]));
    Join(weight, parent, n, x, y);
    Add(heap, weight, h, n + 1);
  }

  method TakeTwo(heap: array<nat>, weight: array<nat>, n: nat) returns (n1: nat, n2: nat)
    requires heap != weight && 2 <= n && Entries(heap[..], weight[..], n) && Ordered(heap[..], weight[..], n)
    modifies heap
    ensures Entries(heap[..], weight[..], n - 2) && Ordered(heap[..], weight[..], n - 2)
    ensures n < heap.Length && Lightest(weight[..], Bag(old(heap[..]), n), n1, n2)
    ensures Bag(heap[..], n - 2) == Bag(old(heap[..]), n) - multiset{n1} - multiset{n2}
  {
    hide *;
    ghost var g := heap[..];
    n1 := TakeLeast(heap, weight, n);
    n2 := TakeLeast(heap, weight, n - 1);
    TakenTwo(weight[..], Bag(g, n), n1, n2);
  }

  /** Joins the two lightest roots under a new node. */
  method MergeStep(heap: array<nat>, weight: array<nat>, parent: array<int>, a: nat, nNodes: nat, nHeap: nat,
                   ghost kids: seq<Pair>, ghost least: nat, ghost total: nat, ghost limit: nat)
    returns (ghost kids': seq<Pair>, ghost least': nat)
    requires heap != weight && parent as object != heap && parent as object != weight
    requires Merging(heap[..], weight[..], parent[..], a, nNodes, nHeap, kids, least, total) && nHeap > 1
    modifies heap, weight, parent
    ensures Merging(heap[..], weight[..], parent[..], a, nNodes + 1, nHeap - 1, kids', least', total)
    ensures a < weight.Length && weight[..a + 1] == old(weight[..a + 1])
    ensures InBalance(old(weight[..]), old(parent[..]), nNodes, limit) ==>
      InBalance(weight[..], parent[..], nNodes + 1, limit)
  {
    hide *;
    ghost var g, w, p := heap[..], weight[..], parent[..];
    MergingOpen(g, w, p, a, nNodes, nHeap, kids, least, total);
    var n1, n2 := TakeTwo(heap, weight, nHeap);
    MergeStart(g, w, p, a, nNodes, nHeap, kids, least, total, n1, n2);
    if InBalance(w, p, nNodes, limit) { JoinBalance(w, p, nNodes, limit, n1, n2); }
    kids', least' := kids + [Pair(n1, n2)], WeightOf(w[n2]);
    AddJoined(heap, weight, parent, nNodes, nHeap - 2, n1, n2);
    MergingClose(g, heap[..], w, p, weight[..], parent[..], a, nNodes, nHeap, kids, least, total, kids', least');
    assert weight[..a + 1] == w[..a + 1];
  }

  lemma {:induction false} TakenTwo(w: seq<nat>, bag: multiset<nat>, x: nat, y: nat)
    requires Least(w, bag, x) && Least(w, bag - multiset{x}, y)
    ensures Lightest(w, bag, x, y)
  {
  }

  // ----- planting the leaves

  ghost function LeafSum(wt: seq<nat>, k: nat): nat
    requires k < |wt|
  {
    if k == 0 then 0 else LeafSum(wt, k - 1) + WeightOf(wt[k])
  }

  ghost predicate Leaves(wt: seq<nat>, a: nat) {
    && a < |wt| && wt[0] == 0
    && forall k {:trigger wt[k]} :: 1 <= k <= a ==> WeightOf(wt[k]) >= 1 && DepthOf(wt[k]) == 0
  }

  /** The first i leaves are in the heap. */
  ghost predicate Planted(heap: seq<nat>, wt: seq<nat>, par: seq<int>, a: nat, i: nat) {
    && Sizes(heap, wt, par, a) && i <= a && Leaves(wt, a)
    && Entries(heap, wt, i) && Ordered(heap, wt, i)
    && (forall k :: 1 <= k <= i ==> par[k] == -1) && Roots(par, i, Bag(heap, i))
  }

  lemma {:induction false} PlantedNone(heap: seq<nat>, wt: seq<nat>, par: seq<int>, a: nat)
    requires Sizes(heap, wt, par, a) && Leaves(wt, a) && heap[0] == 0
    ensures Planted(heap, wt, par, a, 0)
  {
  }

  lemma {:induction false} PlantedOpen(heap: seq<nat>, wt: seq<nat>, par: seq<int>, a: nat, i: nat)
    requires Planted(heap, wt, par, a, i)
    ensures Entries(heap, wt, i) && Ordered(heap, wt, i) && Sizes(heap, wt, par, a)
    ensures i < |heap| && a + 2 <= |heap| && a < |wt| && a < |par|
  {
  }

  lemma {:induction false} PlantedNext(heap: seq<nat>, wt: seq<nat>, par: seq<int>, heap': seq<nat>, a: nat, i: nat)
    requires Planted(heap, wt, par, a, i) && i < a && |heap'| == |heap|
    requires Entries(heap', wt, i + 1) && Ordered(heap', wt, i + 1)
    requires Bag(heap', i + 1) == Bag(heap, i) + multiset{i + 1}
    ensures Planted(heap', wt, par[i + 1 := -1], a, i + 1)
  {
    hide Entries, Ordered, Bag, Leaves;
    var bag, bag', par' := Bag(heap, i), Bag(heap', i + 1), par[i + 1 := -1];
    forall k: nat ensures bag'[k] == if 1 <= k <= i + 1 && par'[k] == -1 then 1 else 0 {
      assert bag[k] == bag[k];
    }
  }

  lemma {:induction false} LeafRootSum(wt: seq<nat>, par: seq<int>, k: nat)
    requires k < |wt| && k < |par| && forall i :: 1 <= i <= k ==> par[i] == -1
    ensures RootSum(wt, par, k) == LeafSum(wt, k)
  {
    hide WeightOf;
    if k > 0 { LeafRootSum(wt, par, k - 1); }
  }

  lemma {:induction false} PlantedAll(heap: seq<nat>, wt: seq<nat>, par: seq<int>, a: nat)
    requires Planted(heap, wt, par, a, a) && LeafSum(wt, a) < 0x80_0000
    ensures Merging(heap, wt, par, a, a, a, [], 0, LeafSum(wt, a))
  {
    hide Entries, Ordered, Bag, Roots, RootSum, LeafSum, WeightOf, DepthOf;
    LeafRootSum(wt, par, a);
    assert forall k :: 1 <= k <= a ==> WeightOf(wt[k]) >= Fib(DepthOf(wt[k]));
  }

  method PlantLeaves(heap: array<nat>, weight: array<nat>, parent: array<int>, a: nat)
    requires heap != weight && parent as object != heap && parent as object != weight
    requires Sizes(heap[..], weight[..], parent[..], a) && Leaves(weight[..], a)
    modifies heap, weight, parent
    ensures Planted(heap[..], weight[..], parent[..], a, a)
    ensures weight[..] == old(weight[..])
  {
    ghost var w := weight[..];
    heap[0] := 0;
    weight[0] := 0;
    parent[0] := -2;
    assert weight[..] == w;
    PlantedNone(heap[..], w, parent[..], a);
    hide *;
    var i := 1;
    while i <= a
      invariant 1 <= i <= a + 1 && weight[..] == w
      invariant Planted(heap[..], w, parent[..], a, i - 1)
    {
      ghost var g, p := heap[..], parent[..];
      PlantedOpen(g, w, p, a, i - 1);
      parent[i] := -1;
      assert parent[..] == p[i := -1];
      Add(heap, weight, i - 1, i);
      PlantedNext(g, w, p, heap[..], a, i - 1);
      i := i + 1;
    }
  }

  // ----- one tree

  /** The finished tree. */
  ghost predicate Grown(wt: seq<nat>, par: seq<int>, a: nat, n: nat, kids: seq<Pair>, least: nat, total: nat) {
    && 2 <= a <= 258 && n == 2 * a - 1
    && Weighted(wt, par, a, n, kids, least) && SingleTree(par, a, n, kids)
    && DepthOf(wt[n]) < 33 && Fib(DepthOf(wt[n])) <= total
  }

  lemma {:induction false} MergedOnlyRoot(heap: seq<nat>, par: seq<int>, a: nat, n: nat, kids: seq<Pair>)
    requires 1 < |heap| && Forest(par, a, n, kids) && Roots(par, n, Bag(heap, 1))
    ensures SingleTree(par, a, n, kids)
  {
    var bag := Bag(heap, 1);
    assert heap[1..2] == [heap[1]];
    assert bag == multiset{heap[1]};
    assert par[n] == -1;
    assert bag[n] == 1;
    forall k | 1 <= k < n ensures par[k] != -1 {
      assert bag[k] == 0;
    }
  }

  lemma {:induction false} MergedTree(heap: seq<nat>, wt: seq<nat>, par: seq<int>, a: nat, n: nat, kids: seq<Pair>,
                                      least: nat, total: nat)
    requires Merging(heap, wt, par, a, n, 1, kids, least, total)
    ensures Grown(wt, par, a, n, kids, least, total)
  {
    hide Roots;
    hide Entries, Ordered, WeightOf, DepthOf, RootSum, Fib, KidsOf, IsKid, KidsWeighted, KidsSorted, Bag;
    MergedOnlyRoot(heap, par, a, n, kids);
    assert par[n] == -1;
    RootAtMost(wt, par, n, n);
    HeightBound(wt, a, n, n, total);
  }

  /** No weight is more than twice another. */
  ghost predicate Even(wt: seq<nat>, a: nat) {
    a < |wt| && forall k {:trigger wt[k]} :: 1 <= k <= a ==> WeightOf(wt[k]) <= 2
  }

  lemma {:induction false} PlantedBalance(heap: seq<nat>, wt: seq<nat>, par: seq<int>, a: nat, limit: nat)
    requires Planted(heap, wt, par, a, a) && Even(wt, a) && a <= Pow2(limit)
    ensures InBalance(wt, par, a, limit)
  {
    hide Entries, Ordered, Bag, Roots, WeightOf, DepthOf, InBalance, Pow2;
    LeavesBalanced(wt, par, a, limit);
  }

  lemma {:induction false} GrownBalance(wt: seq<nat>, par: seq<int>, a: nat, n: nat, kids: seq<Pair>, least: nat,
                                        total: nat, limit: nat)
    requires Grown(wt, par, a, n, kids, least, total) && InBalance(wt, par, n, limit)
    ensures n < |wt| && DepthOf(wt[n]) <= limit
  {
    hide WeightOf, DepthOf, InBalance, Fib, KidsOf, IsKid, Weighted;
    BalancedRoot(wt, par, n, limit);
  }

  /** One tree; of leaves of weight 1 and 2 no deeper than a balanced one. */
  method BuildTree(heap: array<nat>, weight: array<nat>, parent: array<int>, a: nat, ghost limit: nat)
    returns (nNodes: nat, ghost kids: seq<Pair>, ghost least: nat)
    requires heap != weight && parent as object != heap && parent as object != weight
    requires Sizes(heap[..], weight[..], parent[..], a) && Leaves(weight[..], a) && LeafSum(weight[..], a) < 0x80_0000
    modifies heap, weight, parent
    ensures Grown(weight[..], parent[..], a, nNodes, kids, least, LeafSum(old(weight[..]), a))
    ensures a < weight.Length && weight[..a + 1] == old(weight[..a + 1])
    ensures nNodes < weight.Length
    ensures Even(old(weight[..]), a) && a <= Pow2(limit) ==> DepthOf(weight[nNodes]) <= limit
  {
    hide *;
    ghost var w := weight[..];
    ghost var even := Even(w, a) && a <= Pow2(limit);
    PlantLeaves(heap, weight, parent, a);
    PlantedOpen(heap[..], weight[..], parent[..], a, a);
    PlantedAll(heap[..], weight[..], parent[..], a);
    if even { PlantedBalance(heap[..], weight[..], parent[..], a, limit); }
    var nHeap;
    nNodes, nHeap, kids, least := a, a, [], 0;
    ghost var total := LeafSum(w, a);
    while nHeap > 1
      invariant nHeap >= 0 && Merging(heap[..], weight[..], parent[..], a, nNodes, nHeap, kids, least, total)
      invariant a < weight.Length && weight[..a + 1] == w[..a + 1]
      invariant even ==> InBalance(weight[..], parent[..], nNodes, limit)
      decreases nHeap
    {
      kids, least := MergeStep(heap, weight, parent, a, nNodes, nHeap, kids, least, total, limit);
      nNodes, nHeap := nNodes + 1, nHeap - 1;
    }
    MergingPositive(heap[..], weight[..], parent[..], a, nNodes, nHeap, kids, least, total);
    MergedTree(heap[..], weight[..], parent[..], a, nNodes, kids, least, total);
    GrownSize(weight[..], parent[..], a, nNodes, kids, least, total);
    if even { GrownBalance(weight[..], parent[..], a, nNodes, kids, least, total, limit); }
  }

  lemma {:induction false} GrownSize(wt: seq<nat>, par: seq<int>, a: nat, n: nat, kids: seq<Pair>, least: nat,
                                     total: nat)
    requires Grown(wt, par, a, n, kids, least, total)
    ensures n < |wt|
  {
  }

  lemma {:induction false} MergingPositive(heap: seq<nat>, wt: seq<nat>, par: seq<int>, a: nat, n: nat, h: nat,
                        kids: seq<Pair>, least: nat, total: nat)
    requires Merging(heap, wt, par, a, n, h, kids, least, total)
    ensures h >= 1
  {
  }

  // ----- reading the lengths off

  lemma {:induction false} DepthStep(par: seq<int>, a: nat, n: nat, k: nat)
    requires ParentsAbove(par, a, n) && 1 <= k <= n
    ensures k < |par|
    ensures par[k] < 0 ==> Depth(par, a, n, k) == 0
    ensures par[k] >= 0 ==> k < par[k] <= n && Depth(par, a, n, k) == 1 + Depth(par, a, n, par[k])
  {
  }

  method ReadLength(parent: array<int>, ghost a: nat, ghost n: nat, i: nat) returns (j: nat)
    requires ParentsAbove(parent[..], a, n) && 1 <= i <= n
    ensures j == Depth(parent[..], a, n, i)
  {
    hide *;
    j := 0;
    var k := i;
    DepthStep(parent[..], a, n, k);
    while parent[k] >= 0
      invariant 1 <= k <= n && k < parent.Length
      invariant Depth(parent[..], a, n, i) == j + Depth(parent[..], a, n, k)
      decreases n - k
    {
      DepthStep(parent[..], a, n, k);
      k := parent[k];
      DepthStep(parent[..], a, n, k);
      j := j + 1;
    }
    DepthStep(parent[..], a, n, k);
  }

  lemma {:induction false} GrownDepth(wt: seq<nat>, par: seq<int>, a: nat, n: nat, kids: seq<Pair>, least: nat,
                                      total: nat, k: nat)
    requires Grown(wt, par, a, n, kids, least, total) && 1 <= k <= a
    ensures ParentsAbove(par, a, n) && a <= n
    ensures 1 <= Depth(par, a, n, k) < 33 && Fib(Depth(par, a, n, k)) <= total
  {
    hide Fib, WeightOf, DepthOf, RootsWeighted, KidsOf, KidsSorted, KidsWeighted, IsKid;
    assert par[k] != -1;
    DepthHeight(wt, par, a, n, kids, least, k);
    FibMonotone(Depth(par, a, n, k), DepthOf(wt[n]));
  }

  ghost predicate LengthsOf(len: seq<byte>, par: seq<int>, a: nat, n: nat, k: nat) {
    && ParentsAbove(par, a, n) && k <= a <= n && k <= |len|
    && forall i {:trigger len[i]} :: 0 <= i < k ==> len[i] == Depth(par, a, n, i + 1)
  }

  /** No symbol is deeper than the height of the tree. */
  lemma {:induction false} DepthWithin(wt: seq<nat>, par: seq<int>, a: nat, n: nat, kids: seq<Pair>, least: nat,
                                       total: nat, k: nat)
    requires Grown(wt, par, a, n, kids, least, total) && 1 <= k <= a
    ensures ParentsAbove(par, a, n) && a <= n < |wt| && Depth(par, a, n, k) <= DepthOf(wt[n])
  {
    hide Fib, WeightOf, DepthOf, RootsWeighted, KidsOf, KidsSorted, KidsWeighted, IsKid;
    DepthHeight(wt, par, a, n, kids, least, k);
  }

  lemma {:induction false} LengthsStep(len: seq<byte>, par: seq<int>, a: nat, n: nat, k: nat, j: byte)
    requires LengthsOf(len, par, a, n, k) && k < a && k < |len| && j == Depth(par, a, n, k + 1)
    ensures LengthsOf(len[k := j], par, a, n, k + 1)
  {
    hide Depth, ParentsAbove;
  }

  /** One of the first k lengths is above maxLen. */
  ghost predicate Exceeds(len: seq<byte>, maxLen: nat, k: nat) {
    exists i :: 0 <= i < k <= |len| && len[i] > maxLen
  }

  lemma {:induction false} ExceedsStep(len: seq<byte>, maxLen: nat, k: nat, j: byte)
    requires k < |len|
    ensures Exceeds(len[k := j], maxLen, k + 1) <==> Exceeds(len, maxLen, k) || j > maxLen
  {
    var len' := len[k := j];
    if Exceeds(len, maxLen, k) {
      var i :| 0 <= i < k && len[i] > maxLen;
      assert len'[i] > maxLen;
    }
    if j > maxLen { assert len'[k] > maxLen; }
  }

  method ReadLengths(len: array<byte>, parent: array<int>, a: nat, maxLen: nat,
                     ghost wt: seq<nat>, ghost n: nat, ghost kids: seq<Pair>, ghost least: nat, ghost total: nat)
    returns (tooLong: bool)
    requires Grown(wt, parent[..], a, n, kids, least, total) && len.Length == a && len as object != parent
    modifies len
    ensures LengthsOf(len[..], parent[..], a, n, a)
    ensures tooLong <==> Exceeds(len[..], maxLen, a)
  {
    ghost var par := parent[..];
    GrownDepth(wt, par, a, n, kids, least, total, 1);
    assert LengthsOf(len[..], par, a, n, 0) && !Exceeds(len[..], maxLen, 0);
    hide *;
    tooLong := false;
    var i: nat := 1;
    while i <= a
      invariant 1 <= i <= a + 1 && LengthsOf(len[..], par, a, n, i - 1)
      invariant tooLong <==> Exceeds(len[..], maxLen, i - 1)
    {
      GrownDepth(wt, par, a, n, kids, least, total, i);
      var j: byte := ReadLength(parent, a, n, i);
      LengthsStep(len[..], par, a, n, i - 1, j);
      ghost var l := len[..];
      len[i - 1] := j;
      assert len[..] == l[i - 1 := j];
      ExceedsStep(l, maxLen, i - 1, j);
      if j > maxLen { tooLong := true; }
      i := i + 1;
    }
  }

  // ----- rescaling until the code is short enough

  /** The weight of a frequency after t rounds of halving. */
  function Scaled(f: nat, t: nat): (w: nat)
    ensures w >= 1
  {
    if t == 0 then if f == 0 then 1 else f else 1 + Scaled(f, t - 1) / 2
  }

  /** The sum of the weights of the first k symbols. */
  function Total(freq: seq<nat>, t: nat, k: nat): nat
    requires k <= |freq|
  {
    if k == 0 then 0 else Total(freq, t, k - 1) + Scaled(freq[k - 1], t)
  }

  ghost predicate ScaledLeaves(wt: seq<nat>, freq: seq<nat>, t: nat, k: nat) {
    && k <= |freq| && k < |wt|
    && forall i {:trigger wt[i]} :: 1 <= i <= k ==> wt[i] == Scaled(freq[i - 1], t) * 256
  }

  lemma {:induction false} PackedLeaf(s: nat)
    ensures WeightOf(s * 256) == s && DepthOf(s * 256) == 0
  {
  }

  lemma {:induction false} ScaledSum(wt: seq<nat>, freq: seq<nat>, t: nat, k: nat)
    requires ScaledLeaves(wt, freq, t, k)
    ensures LeafSum(wt, k) == Total(freq, t, k)
  {
    if k > 0 {
      PackedLeaf(Scaled(freq[k - 1], t));
      hide WeightOf, Scaled;
      ScaledSum(wt, freq, t, k - 1);
    }
  }

  lemma {:induction false} ScaledAreLeaves(wt: seq<nat>, freq: seq<nat>, t: nat, a: nat)
    requires ScaledLeaves(wt, freq, t, a) && wt[0] == 0
    ensures Leaves(wt, a)
  {
    hide WeightOf, DepthOf;
    forall k | 1 <= k <= a ensures WeightOf(wt[k]) >= 1 && DepthOf(wt[k]) == 0 {
      PackedLeaf(Scaled(freq[k - 1], t));
    }
  }

  /** A weight that halving lowers. */
  ghost predicate CanShrink(freq: seq<nat>, t: nat, k: nat) {
    exists i {:trigger freq[i]} :: 0 <= i < k <= |freq| && Scaled(freq[i], t) >= 3
  }

  /** Halving never raises the sum; it lowers it as long as one weight is at least 3. */
  lemma {:induction false} TotalShrinks(freq: seq<nat>, t: nat, k: nat)
    requires k <= |freq|
    ensures Total(freq, t + 1, k) <= Total(freq, t, k)
    ensures CanShrink(freq, t, k) ==> Total(freq, t + 1, k) < Total(freq, t, k)
  {
    if k > 0 {
      TotalShrinks(freq, t, k - 1);
      ScaledShrinks(freq[k - 1], t);
      hide Scaled;
      assert CanShrink(freq, t, k) ==> CanShrink(freq, t, k - 1) || Scaled(freq[k - 1], t) >= 3;
    }
  }

  lemma {:induction false} ScaledShrinks(f: nat, t: nat)
    ensures Scaled(f, t + 1) <= Scaled(f, t) && (Scaled(f, t) >= 3 ==> Scaled(f, t + 1) < Scaled(f, t))
  {
  }

  /** j = weight[i] >> 8; weight[i] = (1 + j/2) << 8 for every leaf. */
  method HalveWeights(weight: array<nat>, freq: seq<nat>, ghost t: nat)
    requires ScaledLeaves(weight[..], freq, t, |freq|)
    modifies weight
    ensures ScaledLeaves(weight[..], freq, t + 1, |freq|) && weight[0] == old(weight[0])
  {
    var i := 1;
    while i <= |freq|
      invariant 1 <= i <= |freq| + 1 && weight[0] == old(weight[0])
      invariant forall k :: 1 <= k < i ==> weight[k] == Scaled(freq[k - 1], t + 1) * 256
      invariant forall k :: i <= k <= |freq| ==> weight[k] == Scaled(freq[k - 1], t) * 256
    {
      PackedLeaf(Scaled(freq[i - 1], t));
      var j := weight[i] / 256;
      j := 1 + j / 2;
      weight[i] := j * 256;
      i := i + 1;
    }
  }

  /** The bits that the first k symbols take with these lengths, for the weights after t rounds. */
  ghost function BitCost(freq: seq<nat>, t: nat, len: seq<nat>, k: nat): nat
    requires k <= |freq| && k <= |len|
  {
    if k == 0 then 0 else BitCost(freq, t, len, k - 1) + Scaled(freq[k - 1], t) * len[k - 1]
  }

  /** Prefix codes of these lengths exist. */
  ghost predicate CodesExist(len: seq<nat>, limit: nat) {
    (forall i :: 0 <= i < |len| ==> len[i] <= limit) && Kraft(len, limit, |len|) <= Pow2(limit)
  }

  /** No prefix code takes fewer bits. */
  ghost predicate Cheapest(len: seq<nat>, freq: seq<nat>, t: nat) {
    && |len| == |freq|
    && forall other: seq<nat>, limit: nat {:trigger CodesExist(other, limit)} ::
       |other| == |freq| && CodesExist(other, limit) ==>
       BitCost(freq, t, len, |freq|) <= BitCost(freq, t, other, |freq|)
  }

  /** The depths of the leaves, and zero for the inner nodes. */
  ghost function LeafDepths(len: seq<nat>, n: nat): (d: seq<nat>)
    requires |len| <= n
    ensures |d| == n + 1 && forall k :: 1 <= k <= |len| ==> d[k] == len[k - 1]
  {
    seq(n + 1, k requires 0 <= k <= n => if 1 <= k <= |len| then len[k - 1] else 0)
  }

  lemma {:induction false} LeavesLive(par: seq<int>, a: nat, n: nat, k: nat)
    requires ParentsAbove(par, a, n)
    ensures HuffmanOptimal.Live(par, a, k) <==> 1 <= k <= a
  {
  }

  lemma {:induction false} LeafCosts(wt: seq<nat>, par: seq<int>, freq: seq<nat>, t: nat, a: nat, n: nat, w: seq<nat>,
                                     d: seq<nat>, len: seq<nat>, k: nat)
    requires ParentsAbove(par, a, n) && ScaledLeaves(wt, freq, t, a) && k <= a == |len| == |freq|
    requires |w| == |d| == n + 1 && n < |wt|
    requires forall i :: 1 <= i <= a ==> w[i] == WeightOf(wt[i]) && d[i] == len[i - 1]
    ensures HuffmanOptimal.LiveSum(par, a, HuffmanOptimal.Costs(w, d), k) == BitCost(freq, t, len, k)
  {
    hide WeightOf, Scaled;
    hide HuffmanOptimal.Live;
    LeavesLive(par, a, n, k);
    if k > 0 {
      LeafCosts(wt, par, freq, t, a, n, w, d, len, k - 1);
      PackedLeaf(Scaled(freq[k - 1], t));
    }
  }

  lemma {:induction false} LeafShares(par: seq<int>, a: nat, n: nat, d: seq<nat>, len: seq<nat>, limit: nat, k: nat)
    requires ParentsAbove(par, a, n) && k <= a == |len| && |d| == n + 1
    requires forall i :: 1 <= i <= a ==> d[i] == len[i - 1]
    ensures HuffmanOptimal.LiveSum(par, a, HuffmanOptimal.Shares(d, limit), k) == Kraft(len, limit, k)
  {
    hide Pow2;
    hide HuffmanOptimal.Live;
    LeavesLive(par, a, n, k);
    if k > 0 { LeafShares(par, a, n, d, len, limit, k - 1); }
  }

  /** The tree of the two lightest, joined again and again, makes the cheapest code. */
  lemma {:induction false} TreeIsCheapest(len: seq<byte>, freq: seq<nat>, t: nat, wt: seq<nat>, par: seq<int>, a: nat,
                                          n: nat, kids: seq<Pair>, least: nat, total: nat)
    requires Grown(wt, par, a, n, kids, least, total) && LengthsOf(len, par, a, n, a) && |len| == a == |freq|
    requires ScaledLeaves(wt, freq, t, a)
    ensures Cheapest(len, freq, t)
  {
    forall other: seq<nat>, limit: nat | |other| == |freq| && CodesExist(other, limit)
      ensures BitCost(freq, t, len, |freq|) <= BitCost(freq, t, other, |freq|)
    {
      CheaperThan(len, freq, t, wt, par, a, n, kids, least, total, other, limit);
    }
  }

  lemma {:induction false} CheaperThan(len: seq<byte>, freq: seq<nat>, t: nat, wt: seq<nat>, par: seq<int>, a: nat,
                                       n: nat, kids: seq<Pair>, least: nat, total: nat, other: seq<nat>, limit: nat)
    requires Grown(wt, par, a, n, kids, least, total) && LengthsOf(len, par, a, n, a) && |len| == a == |freq|
    requires ScaledLeaves(wt, freq, t, a) && |other| == a && CodesExist(other, limit)
    ensures BitCost(freq, t, len, a) <= BitCost(freq, t, other, a)
  {
    hide Fib, Kraft, BitCost, Depth, WeightOf, DepthOf, Forest, Heavy, KidsWeighted, KidsSorted, RootsWeighted, Pow2,
      Scaled, HuffmanOptimal.LiveSum, HuffmanOptimal.Costs, HuffmanOptimal.Shares;
    hide HuffmanOptimal.Live;
    GrownSize(wt, par, a, n, kids, least, total);
    var w := seq(n + 1, k requires 0 <= k <= n => if k == 0 then 0 else WeightOf(wt[k]));
    var depth := seq(n + 1, k requires 0 <= k <= n => if k == 0 then 0 else Depth(par, a, n, k));
    var d := LeafDepths(other, n);
    LeafShares(par, a, n, d, other, limit, a);
    forall k: nat | HuffmanOptimal.Live(par, a, k) ensures k <= n && d[k] <= limit {
      LeavesLive(par, a, n, k);
    }
    assert HuffmanOptimal.Feasible(par, a, d, limit);
    HuffmanOptimal.DepthsOptimal(wt, par, a, n, kids, least, w, depth, a, d, limit);
    LeafCosts(wt, par, freq, t, a, n, w, d, other, a);
    LeafCosts(wt, par, freq, t, a, n, w, depth, len, a);
  }

  /**
   * len is a complete prefix code with at most maxLen bits, rarer symbols never shorter than more frequent ones,
   * and the cheapest of all prefix codes for the weights after t rounds.
   */
  ghost predicate GoodLengths(len: seq<byte>, freq: seq<nat>, maxLen: nat, t: nat) {
    && |len| == |freq|
    && (forall i :: 0 <= i < |len| ==> 1 <= len[i] <= maxLen)
    && Kraft(len, maxLen, |len|) == Pow2(maxLen)
    && (forall i, j :: 0 <= i < |len| && 0 <= j < |len| && Scaled(freq[i], t) < Scaled(freq[j], t) ==> len[i] >= len[j])
    && Cheapest(len, freq, t)
  }

  lemma {:induction false} TreeIsGood(len: seq<byte>, freq: seq<nat>, maxLen: nat, t: nat,
                   wt: seq<nat>, par: seq<int>, a: nat, n: nat, kids: seq<Pair>, least: nat, total: nat)
    requires Grown(wt, par, a, n, kids, least, total) && LengthsOf(len, par, a, n, a) && |len| == a == |freq|
    requires ScaledLeaves(wt, freq, t, a)
    requires !Exceeds(len, maxLen, a)
    ensures GoodLengths(len, freq, maxLen, t)
  {
    hide WeightOf, DepthOf, Heavy, RootsWeighted, KidsOf, KidsSorted, KidsWeighted, IsKid, Kraft, Depth, Pow2, Scaled,
      Cheapest;
    TreeIsCheapest(len, freq, t, wt, par, a, n, kids, least, total);
    forall i | 0 <= i < a ensures 1 <= len[i] {
      GrownDepth(wt, par, a, n, kids, least, total, i + 1);
    }
    TreeKraft(par, a, n, kids, maxLen, len);
    forall i, j | 0 <= i < a && 0 <= j < a && Scaled(freq[i], t) < Scaled(freq[j], t) ensures len[i] >= len[j] {
      assert wt[i + 1] == Scaled(freq[i], t) * 256 && wt[j + 1] == Scaled(freq[j], t) * 256;
      PackedLeaf(Scaled(freq[i], t));
      PackedLeaf(Scaled(freq[j], t));
      LighterIsDeeper(wt, par, a, n, kids, least, i + 1, j + 1);
    }
  }

  /** A length above maxLen needs a total of Fib(maxLen + 1), and a weight above 2 or too many symbols. */
  lemma {:induction false} TooLongNeeds(len: seq<byte>, freq: seq<nat>, maxLen: nat, t: nat,
                     wt: seq<nat>, par: seq<int>, a: nat, n: nat, kids: seq<Pair>, least: nat, total: nat)
    requires Grown(wt, par, a, n, kids, least, total) && LengthsOf(len, par, a, n, a)
    requires Exceeds(len, maxLen, a) && a == |freq| && ScaledLeaves(wt, freq, t, a)
    requires n < |wt| && (Even(wt, a) && a <= Pow2(maxLen) ==> DepthOf(wt[n]) <= maxLen)
    ensures total >= Fib(maxLen + 1)
    ensures a <= Pow2(maxLen) ==> CanShrink(freq, t, a)
  {
    hide Grown, Fib, Pow2, Scaled, DepthOf, CanShrink, Even;
    var i :| 0 <= i < a && len[i] > maxLen;
    GrownDepth(wt, par, a, n, kids, least, total, i + 1);
    FibMonotone(maxLen + 1, len[i]);
    DepthWithin(wt, par, a, n, kids, least, total, i + 1);
    EvenScaled(wt, freq, t, a);
  }

  lemma {:induction false} EvenScaled(wt: seq<nat>, freq: seq<nat>, t: nat, a: nat)
    requires ScaledLeaves(wt, freq, t, a)
    ensures !Even(wt, a) ==> CanShrink(freq, t, a)
  {
    hide WeightOf, Scaled;
    if !Even(wt, a) {
      var k :| 1 <= k <= a && WeightOf(wt[k]) > 2;
      PackedLeaf(Scaled(freq[k - 1], t));
    }
  }

  /** The lengths of a complete code within maxLen are those of at most 2^maxLen symbols. */
  lemma {:induction false} SymbolsFit(len: seq<byte>, freq: seq<nat>, maxLen: nat, t: nat)
    requires GoodLengths(len, freq, maxLen, t)
    ensures |freq| <= Pow2(maxLen)
  {
    hide Pow2, Scaled, Cheapest;
    EachTakesOne(len, maxLen, |len|);
  }

  lemma {:induction false} EachTakesOne(len: seq<byte>, maxLen: nat, k: nat)
    requires k <= |len| && forall i :: 0 <= i < k ==> 1 <= len[i] <= maxLen
    ensures Kraft(len, maxLen, k) >= k
  {
    if k > 0 { EachTakesOne(len, maxLen, k - 1); }
  }

  lemma {:induction false} SameLeaves(w: seq<nat>, w': seq<nat>, freq: seq<nat>, t: nat, a: nat)
    requires ScaledLeaves(w, freq, t, a) && |w'| == |w| && a < |w| && w[..a + 1] == w'[..a + 1]
    ensures ScaledLeaves(w', freq, t, a) && w'[0] == w[0]
  {
    assert w[..a + 1][0] == w'[..a + 1][0];
    forall i | 1 <= i <= a ensures w'[i] == Scaled(freq[i - 1], t) * 256 {
      assert w[..a + 1][i] == w'[..a + 1][i];
    }
  }

  method InitWeights(weight: array<nat>, freq: seq<nat>)
    requires |freq| < weight.Length
    modifies weight
    ensures ScaledLeaves(weight[..], freq, 0, |freq|) && weight[0] == 0
  {
    var i := 0;
    while i < |freq|
      invariant 0 <= i <= |freq|
      invariant forall k :: 1 <= k <= i ==> weight[k] == Scaled(freq[k - 1], 0) * 256
    {
      weight[i + 1] := (if freq[i] == 0 then 1 else freq[i]) * 256;
      i := i + 1;
    }
    weight[0] := 0;
  }

  /** One tree and the lengths read off it. */
  method TryLengths(len: array<byte>, freq: seq<nat>, maxLen: nat, heap: array<nat>, weight: array<nat>,
                    parent: array<int>, ghost t: nat)
    returns (tooLong: bool)
    requires heap != weight && parent as object != heap && parent as object != weight
    requires len as object != parent && len as object != heap && len as object != weight
    requires len.Length == |freq| && Sizes(heap[..], weight[..], parent[..], |freq|)
    requires ScaledLeaves(weight[..], freq, t, |freq|) && weight[0] == 0 && Total(freq, t, |freq|) < 0x80_0000
    modifies len, heap, weight, parent
    ensures ScaledLeaves(weight[..], freq, t, |freq|) && weight[0] == 0
    ensures if tooLong then Total(freq, t, |freq|) >= Fib(maxLen + 1) else GoodLengths(len[..], freq, maxLen, t)
    ensures tooLong ==> |freq| > Pow2(maxLen) || CanShrink(freq, t, |freq|)
    ensures |freq| > Pow2(maxLen) ==> tooLong
  {
    ghost var a, total := |freq|, Total(freq, t, |freq|);
    ghost var w := weight[..];
    hide *;
    ScaledSum(w, freq, t, a);
    ScaledAreLeaves(w, freq, t, a);
    var n, kids, least := BuildTree(heap, weight, parent, |freq|, maxLen);
    SameLeaves(w, weight[..], freq, t, a);
    ghost var par := parent[..];
    tooLong := ReadLengths(len, parent, |freq|, maxLen, weight[..], n, kids, least, total);
    if tooLong {
      SameEven(w, weight[..], a);
      TooLongNeeds(len[..], freq, maxLen, t, weight[..], par, a, n, kids, least, total);
    } else {
      TreeIsGood(len[..], freq, maxLen, t, weight[..], par, a, n, kids, least, total);
      SymbolsFit(len[..], freq, maxLen, t);
    }
  }

  lemma {:induction false} SameEven(w: seq<nat>, w': seq<nat>, a: nat)
    requires |w'| == |w| && a < |w| && w[..a + 1] == w'[..a + 1]
    ensures Even(w, a) <==> Even(w', a)
  {
    hide WeightOf;
    forall k | 1 <= k <= a ensures w[k] == w'[k] {
      assert w[..a + 1][k] == w'[..a + 1][k];
    }
  }

  lemma {:induction false} SizesAre(heap: seq<nat>, wt: seq<nat>, par: seq<int>, a: nat)
    requires 2 <= a <= 258 && |heap| == 260 && |wt| == |par| == 516
    ensures Sizes(heap, wt, par, a)
  {
  }

  /**
   * BZ2_hbMakeCodeLengths. t counts the rescalings; none happens while the total is below Fib(maxLen + 1). With
   * more than 2^maxLen symbols every tree is too high, as TryLengths says, and the loop never ends.
   */
  method MakeCodeLengths(len: array<byte>, freq: seq<nat>, maxLen: nat) returns (ghost t: nat)
    requires 2 <= |freq| == len.Length <= MAX_ALPHA_SIZE && |freq| <= Pow2(maxLen)
    requires Total(freq, 0, |freq|) < 0x80_0000
    modifies len
    ensures GoodLengths(len[..], freq, maxLen, t)
    ensures Total(freq, 0, |freq|) < Fib(maxLen + 1) ==> t == 0
  {
    var heap := new nat[MAX_ALPHA_SIZE + 2];
    var weight := new nat[MAX_ALPHA_SIZE * 2];
    var parent := new int[MAX_ALPHA_SIZE * 2];
    assert heap.Length == 260 && weight.Length == 516 && parent.Length == 516 && |freq| <= 258;
    InitWeights(weight, freq);
    hide *;
    t := 0;
    while true
      invariant ScaledLeaves(weight[..], freq, t, |freq|) && 0 < weight.Length && weight[0] == 0
      invariant Total(freq, t, |freq|) <= Total(freq, 0, |freq|)
      invariant t > 0 ==> Total(freq, 0, |freq|) >= Fib(maxLen + 1)
      modifies len, heap, weight, parent
      decreases Total(freq, t, |freq|)
    {
      SizesAre(heap[..], weight[..], parent[..], |freq|);
      var tooLong := TryLengths(len, freq, maxLen, heap, weight, parent, t);
      if !tooLong { break; }
      TotalShrinks(freq, t, |freq|);
      HalveWeights(weight, freq, t);
      t := t + 1;
    }
  }
}
