/** The explicit stack of a quicksort: ranges still to be sorted, everything else in order. */
module SortStack {
  import opened Shuffles
  import opened FatPartition

  /** Sorted by key from lo up to (not including) end. */
  ghost predicate SortedBy(f: seq<nat>, e: seq<nat>, lo: int, end: int) {
    forall x, y {:trigger Key(f, e, x), Key(f, e, y)} :: lo <= x < y < end ==> Key(f, e, x) <= Key(f, e, y)
  }

  datatype Range = Range(lo: nat, hi: int)

  function Size(r: Range): nat {
    if r.hi >= r.lo then r.hi - r.lo + 1 else 0
  }

  function Sum(st: seq<Range>, k: nat): nat
    decreases |st| - k
  {
    if k >= |st| then 0 else Size(st[k]) + Sum(st, k + 1)
  }

  ghost predicate Covers(r: Range, x: int, y: int) {
    r.lo <= x && y <= r.hi
  }

  /** Ranges still to sort are apart, and any other two entries are already in order. */
  ghost predicate Pending(f: seq<nat>, e: seq<nat>, st: seq<Range>, lo: int, hi: int) {
    && 0 <= lo <= hi + 1 <= |f|
    && (forall k {:trigger st[k]} :: 0 <= k < |st| ==> lo <= st[k].lo <= st[k].hi + 1 <= hi + 1)
    && (forall j, k {:trigger st[j], st[k]} :: 0 <= j < k < |st| ==> st[j].hi < st[k].lo || st[k].hi < st[j].lo)
    && (forall x, y {:trigger InOrder(f, e, st, x, y)} :: lo <= x < y <= hi ==> InOrder(f, e, st, x, y))
  }

  /** Entries x < y are in order, or some range still to sort holds both. */
  ghost predicate InOrder(f: seq<nat>, e: seq<nat>, st: seq<Range>, x: int, y: int) {
    Key(f, e, x) <= Key(f, e, y) || exists k {:trigger st[k]} :: 0 <= k < |st| && Covers(st[k], x, y)
  }

  lemma {:induction false} PendingStart(f: seq<nat>, e: seq<nat>, lo: nat, hi: int)
    requires lo <= hi + 1 <= |f|
    ensures Pending(f, e, [Range(lo, hi)], lo, hi)
  {
    var st := [Range(lo, hi)];
    forall x, y | lo <= x < y <= hi ensures InOrder(f, e, st, x, y) {
      assert Covers(st[0], x, y);
    }
  }

  lemma {:induction false} PendingDone(f: seq<nat>, e: seq<nat>, lo: int, hi: int)
    requires Pending(f, e, [], lo, hi)
    ensures SortedBy(f, e, lo, hi + 1)
  {
    forall x, y | lo <= x < y <= hi ensures Key(f, e, x) <= Key(f, e, y) {
      assert InOrder(f, e, [], x, y);
    }
  }

  /** Rearranging the top range does not disturb two entries that are not both in it. */
  lemma {:induction false} OthersKept(f: seq<nat>, f': seq<nat>, e: seq<nat>, st: seq<Range>, lo: int, hi: int, x: int,
                                      y: int)
    requires Pending(f, e, st, lo, hi) && st != []
    requires var r := st[|st|-1]; Shuffled(f, f', r.lo, r.hi + 1)
    requires lo <= x < y <= hi && !Covers(st[|st|-1], x, y)
    ensures InOrder(f', e, st[..|st|-1], x, y)
  {
    var r := st[|st|-1];
    var x' := Source(f, f', r.lo, r.hi + 1, x);
    var y' := Source(f, f', r.lo, r.hi + 1, y);
    assert InOrder(f, e, st, x', y');
    if Key(f, e, x') > Key(f, e, y') {
      var k :| 0 <= k < |st| && Covers(st[k], x', y');
      assert st[..|st|-1][k] == st[k];
    }
  }

  /** Where the entry at x came from when the range [lo, end) was rearranged. */
  lemma {:induction false} Source(f: seq<nat>, f': seq<nat>, lo: nat, end: nat, x: nat) returns (y: nat)
    requires Shuffled(f, f', lo, end) && x < |f|
    ensures |f| == |f'| && y < |f| && f'[x] == f[y]
    ensures if lo <= x < end then lo <= y < end else y == x
  {
    y := x;
    if lo <= x < end {
      y := ShuffledFrom(f, f', lo, end, x);
    } else {
      ShuffledOutside(f, f', lo, end, x);
    }
  }

  /** The top range has been sorted. */
  lemma {:induction false} PendingPop(f: seq<nat>, f': seq<nat>, e: seq<nat>, st: seq<Range>, lo: int, hi: int)
    requires Pending(f, e, st, lo, hi) && st != []
    requires var r := st[|st|-1]; Shuffled(f, f', r.lo, r.hi + 1) && SortedBy(f', e, r.lo, r.hi + 1)
    ensures Pending(f', e, st[..|st|-1], lo, hi)
  {
    var r, st' := st[|st|-1], st[..|st|-1];
    forall x, y | lo <= x < y <= hi
      ensures InOrder(f', e, st', x, y)
    {
      if !Covers(r, x, y) {
        OthersKept(f, f', e, st, lo, hi, x, y);
      } else {
        assert Key(f', e, x) <= Key(f', e, y);
      }
    }
  }

  lemma {:induction false} MoreRanges(f: seq<nat>, e: seq<nat>, st: seq<Range>, more: seq<Range>, x: int, y: int)
    requires InOrder(f, e, st, x, y)
    ensures InOrder(f, e, st + more, x, y)
  {
    if Key(f, e, x) > Key(f, e, y) {
      var k :| 0 <= k < |st| && Covers(st[k], x, y);
      assert (st + more)[k] == st[k];
    }
  }
}
