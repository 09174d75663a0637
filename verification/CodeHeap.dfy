/** The binary heap inside BZ2_hbMakeCodeLengths: entries 1..n, entry 0 a sentinel of weight 0. */
module CodeHeap {
  import opened Shuffles

  function W(g: seq<nat>, w: seq<nat>, i: int): nat {
    if 0 <= i < |g| && g[i] < |w| then w[g[i]] else 0
  }

  /** Heap order among entries 1..n, except possibly between entry x and its parent. */
  ghost predicate OrderedBut(g: seq<nat>, w: seq<nat>, n: int, x: int) {
    && n < |g|
    && forall i {:trigger W(g, w, i)} :: 2 <= i <= n && i != x ==> W(g, w, i / 2) <= W(g, w, i)
  }

  ghost predicate Ordered(g: seq<nat>, w: seq<nat>, n: int) {
    OrderedBut(g, w, n, 0)
  }

  ghost predicate Entries(g: seq<nat>, w: seq<nat>, n: int) {
    0 <= n < |g| && g[0] == 0 && |w| > 0 && w[0] == 0 && forall i {:trigger g[i]} :: 1 <= i <= n ==> g[i] < |w|
  }

  lemma {:induction false} TopIsLeast(g: seq<nat>, w: seq<nat>, n: nat, i: nat)
    requires Ordered(g, w, n) && 1 <= i <= n
    ensures W(g, w, 1) <= W(g, w, i)
    decreases i
  {
    if i > 1 {
      TopIsLeast(g, w, n, i / 2);
      assert W(g, w, i / 2) <= W(g, w, i);
    }
  }

  // ----- UPHEAP: g is the heap with the carried entry put into the hole z

  ghost predicate Rising(g: seq<nat>, w: seq<nat>, n: int, z: int) {
    && 1 <= z <= n && OrderedBut(g, w, n, z)
    && (z >= 2 ==> forall i {:trigger W(g, w, i)} :: 2 <= i <= n && i / 2 == z ==> W(g, w, z / 2) <= W(g, w, i))
  }

  lemma {:induction false} WSwap(g: seq<nat>, w: seq<nat>, i: nat, j: nat, x: int)
    requires i < |g| && j < |g|
    ensures W(Swap(g, i, j), w, x) == W(g, w, if x == i then j else if x == j then i else x)
  {
  }

  lemma {:induction false} RiseStep(g: seq<nat>, w: seq<nat>, n: nat, z: nat)
    requires Rising(g, w, n, z) && z >= 2 && W(g, w, z) < W(g, w, z / 2)
    ensures Rising(Swap(g, z, z / 2), w, n, z / 2)
  {
    var p := z / 2;
    var g' := Swap(g, z, p);
    forall x ensures W(g', w, x) == W(g, w, if x == z then p else if x == p then z else x) {
      WSwap(g, w, z, p, x);
    }
    forall i | 2 <= i <= n && i != p ensures W(g', w, i / 2) <= W(g', w, i) {
      assert W(g, w, i) == W(g, w, i);
    }
    if p >= 2 {
      forall i | 2 <= i <= n && i / 2 == p ensures W(g', w, p / 2) <= W(g', w, i) {
        assert W(g, w, p / 2) <= W(g, w, p);
        assert i != z ==> W(g, w, p) <= W(g, w, i);
      }
    }
  }

  lemma {:induction false} RiseDone(g: seq<nat>, w: seq<nat>, n: nat, z: nat)
    requires Rising(g, w, n, z) && (z >= 2 ==> W(g, w, z) >= W(g, w, z / 2))
    ensures Ordered(g, w, n)
  {
    forall i | 2 <= i <= n ensures W(g, w, i / 2) <= W(g, w, i) {
    }
  }

  // ----- DOWNHEAP

  ghost predicate Sinking(g: seq<nat>, w: seq<nat>, n: int, z: int) {
    && 1 <= z && n < |g|
    && (forall i {:trigger W(g, w, i)} :: 2 <= i <= n && i / 2 != z ==> W(g, w, i / 2) <= W(g, w, i))
    && (z >= 2 ==> forall i {:trigger W(g, w, i)} :: 2 <= i <= n && i / 2 == z ==> W(g, w, z / 2) <= W(g, w, i))
  }

  lemma {:induction false} SinkStep(g: seq<nat>, w: seq<nat>, n: nat, z: nat, y: nat)
    requires Sinking(g, w, n, z) && y <= n && 2 * z <= y <= 2 * z + 1
    requires W(g, w, y) <= W(g, w, z)
    requires forall i :: 2 <= i <= n && i / 2 == z ==> W(g, w, y) <= W(g, w, i)
    ensures Sinking(Swap(g, z, y), w, n, y)
  {
    var g' := Swap(g, z, y);
    forall x ensures W(g', w, x) == W(g, w, if x == z then y else if x == y then z else x) {
      WSwap(g, w, z, y, x);
    }
    forall i | 2 <= i <= n && i / 2 != y ensures W(g', w, i / 2) <= W(g', w, i) {
      assert W(g, w, i) == W(g, w, i);
      if i == z { assert W(g, w, z / 2) <= W(g, w, y); }
    }
    forall i | 2 <= i <= n && i / 2 == y ensures W(g', w, y / 2) <= W(g', w, i) {
      assert W(g, w, y) <= W(g, w, i);
    }
  }

  lemma {:induction false} SinkDone(g: seq<nat>, w: seq<nat>, n: nat, z: nat)
    requires Sinking(g, w, n, z)
    requires forall i :: 2 <= i <= n && i / 2 == z ==> W(g, w, z) <= W(g, w, i)
    ensures Ordered(g, w, n)
  {
    forall i | 2 <= i <= n ensures W(g, w, i / 2) <= W(g, w, i) {
    }
  }

  /** The top has been replaced by the last entry. */
  lemma {:induction false} SinkStart(g: seq<nat>, w: seq<nat>, n: nat, x: nat)
    requires Ordered(g, w, n + 1)
    ensures Sinking(g[1 := x], w, n, 1)
  {
    forall i | 2 <= i <= n && i / 2 != 1 ensures W(g[1 := x], w, i / 2) <= W(g[1 := x], w, i) {
      assert W(g, w, i / 2) <= W(g, w, i);
    }
  }

  // ----- the loops

  /** The heap f has its hole at z, tmp is in hand, and f0 is the heap before. */
  ghost predicate Carrying(f0: seq<nat>, f: seq<nat>, w: seq<nat>, n: int, z: int, tmp: nat) {
    && |f| == |f0| && 1 <= z <= n < |f| && tmp < |w|
    && Entries(f[z := tmp], w, n) && Entries(f, w, n) && Shuffled(f0, f[z := tmp], 1, n + 1)
  }

  lemma {:induction false} CarryStep(f0: seq<nat>, f: seq<nat>, w: seq<nat>, n: nat, z: nat, tmp: nat, y: nat)
    requires Carrying(f0, f, w, n, z, tmp) && 1 <= y <= n && y != z
    ensures f[y] < |w| && W(f[z := tmp], w, z) == w[tmp] && W(f[z := tmp], w, y) == w[f[y]]
    ensures Carrying(f0, f[z := f[y]], w, n, y, tmp)
    ensures f[z := f[y]][y := tmp] == Swap(f[z := tmp], z, y)
  {
    hide Entries, Swap, Shuffled, W;
    CarrySwap(f, z, y, tmp);
    CarryEntries(f, w, n, z, y, tmp);
    CarryShuffled(f0, f[z := tmp], z, y, n + 1);
  }

  lemma {:induction false} CarryShuffled(f0: seq<nat>, g: seq<nat>, z: nat, y: nat, end: nat)
    requires Shuffled(f0, g, 1, end) && 1 <= z < end <= |g| && 1 <= y < end
    ensures Shuffled(f0, Swap(g, z, y), 1, end)
  {
    hide Shuffled, Swap;
    SwapShuffles(g, z, y, 1, end);
    ShuffledTrans(f0, g, Swap(g, z, y), 1, end);
  }

  lemma {:induction false} CarrySwap(f: seq<nat>, z: nat, y: nat, tmp: nat)
    requires z < |f| && y < |f| && y != z
    ensures f[z := f[y]][y := tmp] == Swap(f[z := tmp], z, y)
  {
  }

  lemma {:induction false} CarryEntries(f: seq<nat>, w: seq<nat>, n: nat, z: nat, y: nat, tmp: nat)
    requires Entries(f, w, n) && 1 <= z <= n && 1 <= y <= n && tmp < |w|
    requires y != z
    ensures f[y] < |w| && W(f[z := tmp], w, z) == w[tmp] && W(f[z := tmp], w, y) == w[f[y]]
    ensures Entries(f[z := f[y]], w, n) && Entries(f[z := f[y]][y := tmp], w, n)
  {
  }

  lemma {:induction false} CarryStart(f: seq<nat>, w: seq<nat>, n: nat, z: nat)
    requires Entries(f, w, n) && 1 <= z <= n
    ensures f[z] < |w| && Carrying(f, f, w, n, z, f[z]) && f[z := f[z]] == f
  {
    assert f[z := f[z]] == f;
  }

  lemma {:induction false} CarryDone(f0: seq<nat>, f: seq<nat>, w: seq<nat>, n: nat, z: nat, tmp: nat)
    requires Carrying(f0, f, w, n, z, tmp)
    ensures Entries(f[z := tmp], w, n) && Shuffled(f0, f[z := tmp], 1, n + 1)
    ensures f[0] == 0 && |w| > 0 && w[0] == 0
  {
  }

  lemma {:induction false} RiseStart(g: seq<nat>, w: seq<nat>, n: nat)
    requires Ordered(g, w, n - 1) && 1 <= n < |g|
    ensures Rising(g, w, n, n)
  {
  }

  /** UPHEAP(n): the entry just appended moves up; the sentinel stops it at the root. */
  method UpHeap(heap: array<nat>, weight: array<nat>, n: nat)
    requires heap != weight && 1 <= n && Entries(heap[..], weight[..], n) && Ordered(heap[..], weight[..], n - 1)
    modifies heap
    ensures Entries(heap[..], weight[..], n) && Ordered(heap[..], weight[..], n)
    ensures Shuffled(old(heap[..]), heap[..], 1, n + 1)
  {
    hide *;
    ghost var f0, w := heap[..], weight[..];
    CarryStart(f0, w, n, n);
    RiseStart(f0, w, n);
    var zz := n;
    var tmp: nat := heap[zz];
    CarryDone(f0, heap[..], w, n, zz, tmp);
    while true
      invariant 1 <= zz <= n
      invariant Carrying(f0, heap[..], w, n, zz, tmp)
      invariant Rising(heap[..][zz := tmp], w, n, zz)
      decreases zz
    {
      ghost var f := heap[..];
      CarryDone(f0, f, w, n, zz, tmp);
      if zz >= 2 { CarryStep(f0, f, w, n, zz, tmp, zz / 2); }
      var up := heap[zz / 2];
      if weight[tmp] >= weight[up] { break; }
      RiseStep(f[zz := tmp], w, n, zz);
      heap[zz] := up;
      assert heap[..] == f[zz := up];
      zz := zz / 2;
    }
    RiseDone(heap[..][zz := tmp], w, n, zz);
    ghost var f := heap[..];
    heap[zz] := tmp;
    assert heap[..] == f[zz := tmp];
  }

  /** The child of z with the smaller weight, the left one on a tie. */
  method SmallerChild(heap: array<nat>, weight: array<nat>, n: nat, z: nat, ghost f0: seq<nat>, ghost tmp: nat)
    returns (yy: nat)
    requires 1 <= z && 2 * z <= n && Carrying(f0, heap[..], weight[..], n, z, tmp)
    ensures 2 * z <= yy <= 2 * z + 1 && yy <= n
    ensures forall i :: 2 <= i <= n && i / 2 == z ==>
      W(heap[..][z := tmp], weight[..], yy) <= W(heap[..][z := tmp], weight[..], i)
  {
    hide Carrying, Entries, W;
    yy := z * 2;
    Child(f0, heap[..], weight[..], n, z, tmp, yy);
    if yy < n {
      Child(f0, heap[..], weight[..], n, z, tmp, yy + 1);
      if weight[heap[yy + 1]] < weight[heap[yy]] { yy := yy + 1; }
    }
  }

  lemma {:induction false} Child(f0: seq<nat>, f: seq<nat>, w: seq<nat>, n: nat, z: nat, tmp: nat, y: nat)
    requires Carrying(f0, f, w, n, z, tmp) && 1 <= y <= n && y != z
    ensures n < |f| && f[y] < |w| && W(f[z := tmp], w, y) == w[f[y]]
  {
  }

  /** DOWNHEAP(1): the entry put at the root moves down below its smaller children. */
  method DownHeap(heap: array<nat>, weight: array<nat>, n: nat)
    requires heap != weight && 1 <= n && Entries(heap[..], weight[..], n) && Sinking(heap[..], weight[..], n, 1)
    modifies heap
    ensures Entries(heap[..], weight[..], n) && Ordered(heap[..], weight[..], n)
    ensures Shuffled(old(heap[..]), heap[..], 1, n + 1)
  {
    hide *;
    ghost var f0, w := heap[..], weight[..];
    CarryStart(f0, w, n, 1);
    var zz := 1;
    var tmp: nat := heap[zz];
    while true
      invariant 1 <= zz <= n
      invariant Carrying(f0, heap[..], w, n, zz, tmp)
      invariant Sinking(heap[..][zz := tmp], w, n, zz)
      decreases n - zz
    {
      ghost var f := heap[..];
      CarryDone(f0, f, w, n, zz, tmp);
      if zz * 2 > n { break; }
      var yy := SmallerChild(heap, weight, n, zz, f0, tmp);
      CarryStep(f0, f, w, n, zz, tmp, yy);
      if weight[tmp] < weight[heap[yy]] { break; }
      SinkStep(f[zz := tmp], w, n, zz, yy);
      heap[zz] := heap[yy];
      assert heap[..] == f[zz := f[yy]];
      zz := yy;
    }
    SinkDone(heap[..][zz := tmp], w, n, zz);
    ghost var f := heap[..];
    heap[zz] := tmp;
    assert heap[..] == f[zz := tmp];
  }

  // ----- taking the least entry and adding one

  /** The heap as a bag of entries. */
  ghost function Bag(g: seq<nat>, n: int): multiset<nat>
    requires 0 <= n < |g|
  {
    multiset(g[1..n + 1])
  }

  lemma {:induction false} BagMove(g: seq<nat>, n: nat)
    requires 1 <= n < |g|
    ensures Bag(g[1 := g[n]], n - 1) == Bag(g, n) - multiset{g[1]}
  {
    var h := g[1 := g[n]];
    if n == 1 {
      assert g[1..2] == [g[1]];
    } else {
      assert h[1..n] == [g[n]] + g[2..n];
      assert g[1..n + 1] == [g[1]] + g[2..n] + [g[n]];
    }
  }

  lemma {:induction false} BagShuffled(f: seq<nat>, g: seq<nat>, n: nat)
    requires n < |f| && Shuffled(f, g, 1, n + 1)
    ensures |g| == |f| && Bag(g, n) == Bag(f, n)
  {
  }

  ghost predicate Least(wt: seq<nat>, bag: multiset<nat>, x: nat) {
    && x in bag && forall k {:trigger bag[k]} :: k in bag ==> k < |wt| && x < |wt| && wt[x] <= wt[k]
  }

  lemma {:induction false} LeastOfBag(g: seq<nat>, w: seq<nat>, n: nat)
    requires 1 <= n && Entries(g, w, n) && Ordered(g, w, n)
    ensures Least(w, Bag(g, n), g[1])
  {
    assert g[1..n + 1][0] == g[1];
    forall x | x in Bag(g, n) ensures x < |w| && w[g[1]] <= w[x] {
      var i :| 0 <= i < n && g[1..n + 1][i] == x;
      assert g[i + 1] == x;
      TopIsLeast(g, w, n, i + 1);
    }
  }

  lemma {:induction false} DropLast(g: seq<nat>, w: seq<nat>, n: nat)
    requires 1 <= n && Entries(g, w, n) && Ordered(g, w, n)
    ensures g[1] < |w|
    ensures Entries(g[1 := g[n]], w, n - 1) && Ordered(g[1 := g[n]], w, 0)
    ensures n > 1 ==> Sinking(g[1 := g[n]], w, n - 1, 1)
  {
    hide Ordered, W, Sinking;
    SinkStart(g, w, n - 1, g[n]);
    assert Entries(g[1 := g[n]], w, n - 1);
    OrderedNothing(g[1 := g[n]], w);
  }

  lemma {:induction false} OrderedNothing(g: seq<nat>, w: seq<nat>)
    requires 0 < |g|
    ensures Ordered(g, w, 0)
  {
  }

  /** Takes entry 1, moves the last entry to the root and lets it sink. */
  method TakeLeast(heap: array<nat>, weight: array<nat>, n: nat) returns (least: nat)
    requires heap != weight && 1 <= n && Entries(heap[..], weight[..], n) && Ordered(heap[..], weight[..], n)
    modifies heap
    ensures Entries(heap[..], weight[..], n - 1) && Ordered(heap[..], weight[..], n - 1)
    ensures n < heap.Length && Least(weight[..], Bag(old(heap[..]), n), least)
    ensures Bag(heap[..], n - 1) == Bag(old(heap[..]), n) - multiset{least}
  {
    ghost var f := heap[..];
    assert n < heap.Length;
    hide *;
    LeastOfBag(f, weight[..], n);
    BagMove(f, n);
    DropLast(f, weight[..], n);
    least := heap[1];
    heap[1] := heap[n];
    assert heap[..] == f[1 := f[n]];
    if n > 1 {
      ghost var g := heap[..];
      DownHeap(heap, weight, n - 1);
      BagShuffled(g, heap[..], n - 1);
    }
  }

  lemma {:induction false} Append(g: seq<nat>, w: seq<nat>, n: nat, x: nat)
    requires Entries(g, w, n) && Ordered(g, w, n) && n + 1 < |g| && x < |w|
    ensures Entries(g[n + 1 := x], w, n + 1) && Ordered(g[n + 1 := x], w, n)
    ensures Bag(g[n + 1 := x], n + 1) == Bag(g, n) + multiset{x}
  {
    var h := g[n + 1 := x];
    forall i | 2 <= i <= n ensures W(h, w, i / 2) <= W(h, w, i) {
      assert W(g, w, i / 2) <= W(g, w, i);
    }
    assert h[1..n + 2] == g[1..n + 1] + [x];
  }

  /** Appends x and lets it rise. */
  method Add(heap: array<nat>, weight: array<nat>, n: nat, x: nat)
    requires heap != weight && Entries(heap[..], weight[..], n) && Ordered(heap[..], weight[..], n)
    requires n + 1 < heap.Length && x < weight.Length
    modifies heap
    ensures Entries(heap[..], weight[..], n + 1) && Ordered(heap[..], weight[..], n + 1)
    ensures Bag(heap[..], n + 1) == Bag(old(heap[..]), n) + multiset{x}
  {
    hide *;
    ghost var f := heap[..];
    Append(f, weight[..], n, x);
    heap[n + 1] := x;
    assert heap[..] == f[n + 1 := x];
    ghost var g := heap[..];
    UpHeap(heap, weight, n + 1);
    BagShuffled(g, heap[..], n + 1);
  }
}
