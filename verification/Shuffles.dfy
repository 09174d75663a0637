/** Rearranging a stretch of a sequence, shared by the block sorters. */
module Shuffles {

  /** b is a with its elements from lo up to (not including) end rearranged. */
  ghost predicate Shuffled<E>(a: seq<E>, b: seq<E>, lo: int, end: int) {
    && |a| == |b| && 0 <= lo <= end <= |a|
    && a[..lo] == b[..lo] && a[end..] == b[end..]
    && multiset(a[lo..end]) == multiset(b[lo..end])
  }

  function Swap<E>(a: seq<E>, i: nat, j: nat): seq<E>
    requires i < |a| && j < |a|
  {
    a[i := a[j]][j := a[i]]
  }

  lemma {:induction false} ShuffledRefl<E>(a: seq<E>, lo: nat, end: nat)
    requires lo <= end <= |a|
    ensures Shuffled(a, a, lo, end)
  {
  }

  lemma {:induction false} ShuffledTrans<E>(a: seq<E>, b: seq<E>, c: seq<E>, lo: nat, end: nat)
    requires Shuffled(a, b, lo, end) && Shuffled(b, c, lo, end)
    ensures Shuffled(a, c, lo, end)
  {
  }

  /** Rearranging an inner stretch rearranges the outer one. */
  lemma {:induction false} ShuffledWiden<E>(a: seq<E>, b: seq<E>, lo: nat, end: nat, lo': nat, end': nat)
    requires Shuffled(a, b, lo', end') && lo <= lo' <= end' <= end <= |a|
    ensures Shuffled(a, b, lo, end)
  {
    ThreeParts(a, lo, end, lo', end');
    ThreeParts(b, lo, end, lo', end');
  }

  lemma {:induction false} ThreeParts<E>(a: seq<E>, lo: nat, end: nat, lo': nat, end': nat)
    requires lo <= lo' <= end' <= end <= |a|
    ensures a[..lo] == a[..lo'][..lo] && a[end..] == a[end'..][end - end'..]
    ensures a[lo..end] == a[..lo'][lo..] + a[lo'..end'] + a[end'..][..end - end']
  {
  }

  lemma {:induction false} SwapShuffles<E>(a: seq<E>, i: nat, j: nat, lo: nat, end: nat)
    requires lo <= i < end <= |a| && lo <= j < end
    ensures Shuffled(a, Swap(a, i, j), lo, end)
  {
    var b := Swap(a, i, j);
    var s, t := a[lo..end], b[lo..end];
    assert t == s[i - lo := s[j - lo]][j - lo := s[i - lo]];
    assert a[..lo] == b[..lo] && a[end..] == b[end..];
  }

  /** Every element of the rearranged stretch was somewhere in it before. */
  lemma {:induction false} ShuffledFrom<E>(a: seq<E>, b: seq<E>, lo: nat, end: nat, x: nat) returns (y: nat)
    requires Shuffled(a, b, lo, end) && lo <= x < end
    ensures lo <= y < end && a[y] == b[x]
  {
    assert b[lo..end][x - lo] in multiset(b[lo..end]);
    assert b[x] in a[lo..end];
    var k :| 0 <= k < end - lo && a[lo..end][k] == b[x];
    y := lo + k;
  }

  lemma {:induction false} ShuffledOutside<E>(a: seq<E>, b: seq<E>, lo: nat, end: nat, x: nat)
    requires Shuffled(a, b, lo, end) && x < |a| && (x < lo || end <= x)
    ensures a[x] == b[x]
  {
    if x < lo {
      assert a[..lo][x] == b[..lo][x];
    } else {
      assert a[end..][x - end] == b[end..][x - end];
    }
  }
}
