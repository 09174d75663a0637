/** The move-to-front stage with its zero-run codes: what the encoder emits, and how the decoder takes it back. */
module MoveToFront {
  import opened Bytes
  import opened Powers
  import opened RunLength

  const RUNA := 0
  const RUNB := 1
  /** The bound of the decoder on the weight of a run symbol. */
  const RUN_LIMIT := 0x20_0000

  function MoveFront(l: seq<byte>, k: nat): (r: seq<byte>)
    requires k < |l|
    ensures |r| == |l|
    ensures forall x :: 0 <= x < |l| ==> r[x] == l[if x == 0 then k else if x <= k then x - 1 else x]
  {
    [l[k]] + l[..k] + l[k + 1..]
  }

  /** The list before the first symbol. */
  function Iota(n: nat): (l: seq<byte>)
    requires n <= 256
    ensures |l| == n && forall i :: 0 <= i < n ==> l[i] == i
  {
    seq(n, i requires 0 <= i < n => i)
  }

  // ----- run lengths in bijective base two

  function RunCode(z: nat): seq<nat> {
    if z == 0 then [] else [if (z - 1) % 2 == 1 then RUNB else RUNA] + RunCode((z - 1) / 2)
  }

  predicate IsRun(s: seq<nat>) {
    forall i :: 0 <= i < |s| ==> s[i] == RUNA || s[i] == RUNB
  }

  function RunValue(s: seq<nat>): nat
    requires IsRun(s)
  {
    if s == [] then 0 else s[0] + 1 + 2 * RunValue(s[1..])
  }

  /** Every run length is coded by exactly one list of run symbols. */
  lemma {:induction false} RunCodeBijective(z: nat, s: seq<nat>)
    requires IsRun(s)
    ensures IsRun(RunCode(z))
    ensures RunCode(z) == s <==> RunValue(s) == z
    decreases z
  {
    if z > 0 {
      var t := RunCode((z - 1) / 2);
      if s != [] {
        RunCodeBijective((z - 1) / 2, s[1..]);
        assert RunCode(z)[1..] == t;
        if RunValue(s) == z {
          assert RunCode(z) == [s[0]] + s[1..];
        }
      } else {
        RunCodeBijective((z - 1) / 2, []);
      }
    }
  }

  lemma {:induction false} RunCodeShort(z: nat)
    ensures |RunCode(z)| <= z
    ensures z > 0 ==> Pow2(|RunCode(z)|) <= 2 * z
  {
    if z > 0 { RunCodeShort((z - 1) / 2); }
  }

  // ----- what the encoder emits

  /** Where c stands in the list from position k on. */
  function PosOf(l: seq<byte>, c: byte, k: nat): (p: nat)
    requires k <= |l| && c in l[k..]
    ensures k <= p < |l| && l[p] == c
    ensures c !in l[k..p]
    decreases |l| - k
  {
    if l[k] == c then k else
      assert l[k..] == [l[k]] + l[k + 1..];
      var p := PosOf(l, c, k + 1);
      assert l[k..p] == [l[k]] + l[k + 1..p];
      p
  }

  predicate Covers(l: seq<byte>, col: seq<byte>) {
    forall i :: 0 <= i < |col| ==> col[i] in l
  }

  lemma {:induction false} MoveFrontKeeps(l: seq<byte>, k: nat, c: byte)
    requires k < |l| && c in l
    ensures c in MoveFront(l, k)
  {
    var p :| 0 <= p < |l| && l[p] == c;
    var q := if p == k then 0 else if p < k then p + 1 else p;
    assert MoveFront(l, k)[q] == c;
  }

  lemma {:induction false} CoversMove(l: seq<byte>, col: seq<byte>, k: nat)
    requires k < |l| && Covers(l, col)
    ensures Covers(MoveFront(l, k), col)
  {
    forall i | 0 <= i < |col| ensures col[i] in MoveFront(l, k) { MoveFrontKeeps(l, k, col[i]); }
  }

  /** The symbols for the entries from i on, with a run of z front entries still to be emitted. */
  function Codes(l: seq<byte>, z: nat, col: seq<byte>, i: nat): seq<nat>
    requires i <= |col| && l != [] && Covers(l, col)
    decreases |col| - i
  {
    if i == |col| then RunCode(z)
    else if col[i] == l[0] then Codes(l, z + 1, col, i + 1)
    else
      var p := PosOf(l, col[i], 0);
      CoversMove(l, col, p);
      RunCode(z) + [p + 1] + Codes(MoveFront(l, p), 0, col, i + 1)
  }

  // ----- how the decoder takes it back

  /** The list, the run in hand (es + 1 front entries, next symbol weighing n), and the column so far. */
  datatype Undo = Undo(list: seq<byte>, es: int, n: nat, out: seq<byte>)

  datatype UndoResult = Going(u: Undo) | Finished(column: seq<byte>) | Failed

  predicate Ready(u: Undo, seqToUnseq: seq<byte>) {
    |u.list| == 256 && |seqToUnseq| == 256 && u.es >= -1
  }

  /** The column with the run in hand written out. */
  function Flushed(u: Undo, seqToUnseq: seq<byte>): seq<byte>
    requires Ready(u, seqToUnseq)
  {
    u.out + Rep(seqToUnseq[u.list[0]], u.es + 1)
  }

  /** What the decoder does with one symbol; seqToUnseq takes list entries to bytes, max is the block capacity. */
  function Feed(u: Undo, sym: nat, eob: nat, seqToUnseq: seq<byte>, max: nat): (r: UndoResult)
    requires Ready(u, seqToUnseq) && eob <= 257
    ensures r.Going? ==> Ready(r.u, seqToUnseq)
  {
    if sym == eob then
      if |Flushed(u, seqToUnseq)| > max then Failed else Finished(Flushed(u, seqToUnseq))
    else if sym == RUNA || sym == RUNB then
      if u.n >= RUN_LIMIT then Failed
      else Going(u.(es := u.es + (if sym == RUNA then u.n else 2 * u.n), n := 2 * u.n))
    else if |Flushed(u, seqToUnseq)| >= max || sym > 256 then Failed
    else
      var c := u.list[sym - 1];
      Going(Undo(MoveFront(u.list, sym - 1), -1, 1, Flushed(u, seqToUnseq) + [seqToUnseq[c]]))
  }

  function FeedAll(u: Undo, syms: seq<nat>, eob: nat, seqToUnseq: seq<byte>, max: nat): (r: UndoResult)
    requires Ready(u, seqToUnseq) && eob <= 257
    ensures r.Going? ==> Ready(r.u, seqToUnseq)
    decreases |syms|
  {
    if syms == [] then Going(u)
    else
      var r := Feed(u, syms[0], eob, seqToUnseq, max);
      if r.Going? then FeedAll(r.u, syms[1..], eob, seqToUnseq, max) else r
  }

  lemma {:induction false} FeedAppend(u: Undo, a: seq<nat>, b: seq<nat>, eob: nat, seqToUnseq: seq<byte>, max: nat)
    requires Ready(u, seqToUnseq) && eob <= 257
    ensures FeedAll(u, a + b, eob, seqToUnseq, max) ==
      var r := FeedAll(u, a, eob, seqToUnseq, max); if r.Going? then FeedAll(r.u, b, eob, seqToUnseq, max) else r
    decreases |a|
  {
    if a == [] {
      assert a + b == b;
    } else {
      assert (a + b)[1..] == a[1..] + b;
      var r := Feed(u, a[0], eob, seqToUnseq, max);
      if r.Going? { FeedAppend(r.u, a[1..], b, eob, seqToUnseq, max); }
    }
  }

  /** The weight grows with every run symbol. */
  lemma {:induction false} FeedRun(u: Undo, z: nat, k: nat, eob: nat, seqToUnseq: seq<byte>, max: nat)
    requires Ready(u, seqToUnseq) && 2 <= eob <= 257 && u.n == Pow2(k)
    requires k + |RunCode(z)| <= 21
    ensures FeedAll(u, RunCode(z), eob, seqToUnseq, max) ==
      Going(u.(es := u.es + Shl(z, k), n := Pow2(k + |RunCode(z)|)))
    decreases z
  {
    if z > 0 {
      var s := RunCode(z);
      var w := (z - 1) / 2;
      assert s[1..] == RunCode(w);
      Pow2Small(k);
      var b := (z - 1) % 2;
      ShlSum(w, b, k);
      var u1 := u.(es := u.es + (if b == 0 then u.n else 2 * u.n), n := 2 * u.n);
      assert Feed(u, s[0], eob, seqToUnseq, max) == Going(u1);
      FeedRun(u1, w, k + 1, eob, seqToUnseq, max);
    } else {
      ShlZero(k);
    }
  }

  lemma {:induction false} ShlSum(w: nat, b: nat, k: nat)
    requires b < 2
    ensures Shl(2 * w + b + 1, k) == Shl(w, k + 1) + (if b == 0 then Pow2(k) else 2 * Pow2(k))
  {
    if k > 0 { ShlSum(w, b, k - 1); }
  }

  lemma {:induction false} Pow2Small(k: nat)
    requires k < 21
    ensures Pow2(k) < RUN_LIMIT
  {
    Pow2Values();
    Pow2Monotone(k, 20);
  }

  /** The decoder's list starts with the encoder's. */
  predicate Starts(l: seq<byte>, u: Undo) {
    0 < |l| <= |u.list| == 256 && u.list[..|l|] == l
  }

  lemma {:induction false} StartsMove(l: seq<byte>, u: Undo, k: nat)
    requires Starts(l, u) && k < |l|
    ensures u.list[k] == l[k] && MoveFront(u.list, k)[..|l|] == MoveFront(l, k)
  {
    assert forall x :: 0 <= x < |l| ==> u.list[x] == u.list[..|l|][x];
  }

  function Mapped(col: seq<byte>, seqToUnseq: seq<byte>, i: nat): (m: seq<byte>)
    requires i <= |col| && |seqToUnseq| == 256
    ensures |m| == |col| - i
    ensures forall x {:trigger m[x]} :: 0 <= x < |m| ==> m[x] == seqToUnseq[col[i + x]]
    decreases |col| - i
  {
    if i == |col| then [] else [seqToUnseq[col[i]]] + Mapped(col, seqToUnseq, i + 1)
  }

  /** After a run code the run is in hand. */
  lemma {:induction false} FeedPending(u: Undo, z: nat, eob: nat, seqToUnseq: seq<byte>, max: nat) returns (v: Undo)
    requires Ready(u, seqToUnseq) && u.es == -1 && u.n == 1 && 2 <= eob <= 257 && z <= max < 0x10_0000
    ensures FeedAll(u, RunCode(z), eob, seqToUnseq, max) == Going(v) && Ready(v, seqToUnseq)
    ensures v.list == u.list && v.out == u.out && v.es == z - 1
  {
    RunCodeShort(z);
    Pow2Values();
    if |RunCode(z)| > 21 { Pow2Monotone(21, |RunCode(z)|); }
    FeedRun(u, z, 0, eob, seqToUnseq, max);
    v := u.(es := u.es + Shl(z, 0), n := Pow2(|RunCode(z)|));
  }

  /** What is decoded from entry i on, behind what is there and the run of z front entries. */
  function Rest(out: seq<byte>, c: byte, z: nat, col: seq<byte>, i: nat, seqToUnseq: seq<byte>): seq<byte>
    requires |seqToUnseq| == 256 && i <= |col|
  {
    out + Rep(seqToUnseq[c], z) + Mapped(col, seqToUnseq, i)
  }

  lemma {:induction false} RestSame(out: seq<byte>, c: byte, z: nat, col: seq<byte>, i: nat, seqToUnseq: seq<byte>)
    requires |seqToUnseq| == 256 && i < |col| && col[i] == c
    ensures Rest(out, c, z + 1, col, i + 1, seqToUnseq) == Rest(out, c, z, col, i, seqToUnseq)
  {
  }

  lemma {:induction false} RestMove(out: seq<byte>, c: byte, z: nat, col: seq<byte>, i: nat, seqToUnseq: seq<byte>,
                                    d: byte)
    requires |seqToUnseq| == 256 && i < |col|
    ensures Rest(out + Rep(seqToUnseq[c], z) + [seqToUnseq[col[i]]], d, 0, col, i + 1, seqToUnseq)
         == Rest(out, c, z, col, i, seqToUnseq)
  {
  }

  lemma {:induction false} RestEnd(out: seq<byte>, c: byte, z: nat, col: seq<byte>, seqToUnseq: seq<byte>)
    requires |seqToUnseq| == 256
    ensures Rest(out, c, z, col, |col|, seqToUnseq) == out + Rep(seqToUnseq[c], z)
  {
  }

  /** Feeding the decoder what the encoder emits gives the column back. */
  lemma {:induction false} CodesDecode(u: Undo, l: seq<byte>, z: nat, col: seq<byte>, i: nat, eob: nat,
                                       seqToUnseq: seq<byte>, max: nat)
    requires Ready(u, seqToUnseq) && u.es == -1 && u.n == 1 && Starts(l, u) && |seqToUnseq| == 256
    requires l != [] && i <= |col| && Covers(l, col) && 2 <= eob == |l| + 1 <= 257
    requires |u.out| + z + |col| - i <= max < 0x10_0000
    ensures FeedAll(u, Codes(l, z, col, i) + [eob], eob, seqToUnseq, max)
         == Finished(Rest(u.out, l[0], z, col, i, seqToUnseq))
    decreases |col| - i
  {
    hide FeedAll, Feed, RunCode, Starts, MoveFront, Rep, Rest, Covers, Ready;
    if i == |col| {
      CodesDecodeEnd(u, l, z, eob, seqToUnseq, max);
      RestEnd(u.out, l[0], z, col, seqToUnseq);
    } else if col[i] == l[0] {
      CodesDecode(u, l, z + 1, col, i + 1, eob, seqToUnseq, max);
      RestSame(u.out, l[0], z, col, i, seqToUnseq);
    } else {
      CoveredAt(l, col, i);
      var p := PosOf(l, col[i], 0);
      var v := CodesDecodeMove(u, l, z, p, eob, seqToUnseq, max);
      var l' := MoveFront(l, p);
      CoversMove(l, col, p);
      var rest := Codes(l', 0, col, i + 1) + [eob];
      FeedAppend(u, RunCode(z) + [p + 1], rest, eob, seqToUnseq, max);
      assert Codes(l, z, col, i) + [eob] == (RunCode(z) + [p + 1]) + rest;
      CodesDecode(v, l', 0, col, i + 1, eob, seqToUnseq, max);
      RestMove(u.out, l[0], z, col, i, seqToUnseq, l'[0]);
    }
  }

  lemma {:induction false} CoveredAt(l: seq<byte>, col: seq<byte>, i: nat)
    requires Covers(l, col) && i < |col|
    ensures col[i] in l[0..]
  {
    assert l[0..] == l;
  }

  lemma {:induction false} CodesDecodeEnd(u: Undo, l: seq<byte>, z: nat, eob: nat, seqToUnseq: seq<byte>, max: nat)
    requires Ready(u, seqToUnseq) && u.es == -1 && u.n == 1 && Starts(l, u) && |seqToUnseq| == 256 && eob == |l| + 1
    requires |u.out| + z <= max < 0x10_0000
    ensures FeedAll(u, RunCode(z) + [eob], eob, seqToUnseq, max) == Finished(u.out + Rep(seqToUnseq[l[0]], z))
  {
    assert u.list[0] == u.list[..|l|][0];
    var v := FeedPending(u, z, eob, seqToUnseq, max);
    FeedAppend(u, RunCode(z), [eob], eob, seqToUnseq, max);
    assert FeedAll(v, [eob], eob, seqToUnseq, max) == Feed(v, eob, eob, seqToUnseq, max);
  }

  lemma {:induction false} CodesDecodeMove(u: Undo, l: seq<byte>, z: nat, p: nat, eob: nat, seqToUnseq: seq<byte>,
                                           max: nat) returns (v: Undo)
    requires Ready(u, seqToUnseq) && u.es == -1 && u.n == 1 && Starts(l, u) && |seqToUnseq| == 256 && eob == |l| + 1
    requires 0 < p < |l| && |u.out| + z < max < 0x10_0000
    ensures FeedAll(u, RunCode(z) + [p + 1], eob, seqToUnseq, max) == Going(v)
    ensures Ready(v, seqToUnseq) && v.es == -1 && v.n == 1 && Starts(MoveFront(l, p), v)
    ensures v.out == u.out + Rep(seqToUnseq[l[0]], z) + [seqToUnseq[l[p]]]
  {
    assert u.list[0] == u.list[..|l|][0];
    var w := FeedPending(u, z, eob, seqToUnseq, max);
    FeedAppend(u, RunCode(z), [p + 1], eob, seqToUnseq, max);
    StartsMove(l, u, p);
    v := Undo(MoveFront(u.list, p), -1, 1, u.out + Rep(seqToUnseq[l[0]], z) + [seqToUnseq[l[p]]]);
    assert Feed(w, p + 1, eob, seqToUnseq, max) == Going(v);
    assert [p + 1][1..] == [];
    assert FeedAll(w, [p + 1], eob, seqToUnseq, max) == FeedAll(v, [], eob, seqToUnseq, max);
  }
}
