/** The first run-length code of bzip2: up to three equal bytes stand for themselves,
    four equal bytes are followed by a count of 0..251 further ones. */
module RunLength {
  import opened Bytes

  function Rep(c: byte, n: nat): (s: seq<byte>)
    ensures |s| == n && forall i :: 0 <= i < n ==> s[i] == c
  {
    seq(n, i => c)
  }

  predicate StartsWithFour(s: seq<byte>) {
    |s| >= 4 && s[0] == s[1] == s[2] == s[3]
  }

  /** The bytes that a run-length coded sequence stands for. */
  function Expand(s: seq<byte>): seq<byte> {
    if s == [] then []
    else if StartsWithFour(s) && |s| > 4 then Rep(s[0], s[4] as int + 4) + Expand(s[5..])
    else [s[0]] + Expand(s[1..])
  }

  /** No run of four at the very end is missing its count. */
  predicate WellFormed(s: seq<byte>) {
    if s == [] then true
    else if StartsWithFour(s) then |s| > 4 && WellFormed(s[5..])
    else WellFormed(s[1..])
  }

  /** A maximal run of one, two or three bytes stands for itself. */
  lemma {:induction false} ExpandShortRun(s: seq<byte>, r: nat)
    requires 1 <= r <= 3 && r <= |s|
    requires forall i :: 0 <= i < r ==> s[i] == s[0]
    requires r == |s| || s[r] != s[0]
    ensures Expand(s) == Rep(s[0], r) + Expand(s[r..])
    ensures WellFormed(s) == WellFormed(s[r..])
  {
    if r > 1 {
      assert s[1..][r-1..] == s[r..];
      ExpandShortRun(s[1..], r - 1);
      assert [s[0]] + Rep(s[0], r - 1) == Rep(s[0], r);
    } else {
      assert [s[0]] == Rep(s[0], 1);
    }
  }

  /** Four equal bytes and their count. */
  lemma {:induction false} ExpandLongRun(s: seq<byte>)
    requires StartsWithFour(s)
    ensures |s| > 4 ==> Expand(s) == Rep(s[0], s[4] as int + 4) + Expand(s[5..])
    ensures |s| > 4 ==> WellFormed(s) == WellFormed(s[5..])
    ensures |s| == 4 ==> !WellFormed(s)
  {
  }

  /** What one (byte, run length) pair contributes to a block. */
  function PairCode(c: byte, n: nat): seq<byte>
    requires 1 <= n <= 255
  {
    if n < 4 then Rep(c, n) else Rep(c, 4) + [n - 4]
  }

  /** A run, as the encoder collects it. */
  datatype Run = Run(ch: byte, len: nat)

  /** Runs the encoder can emit in a row: a run is only followed by the same byte when it is full. */
  predicate Runs(rs: seq<Run>) {
    && (forall i :: 0 <= i < |rs| ==> 1 <= rs[i].len <= 255)
    && (forall i :: 0 <= i < |rs| - 1 ==> rs[i].ch == rs[i + 1].ch ==> rs[i].len == 255)
  }

  function Code(rs: seq<Run>): seq<byte>
    requires forall i :: 0 <= i < |rs| ==> 1 <= rs[i].len <= 255
  {
    if rs == [] then [] else PairCode(rs[0].ch, rs[0].len) + Code(rs[1..])
  }

  function Plain(rs: seq<Run>): seq<byte> {
    if rs == [] then [] else Rep(rs[0].ch, rs[0].len) + Plain(rs[1..])
  }

  lemma {:induction false} CodeHead(rs: seq<Run>)
    requires Runs(rs) && rs != []
    ensures Code(rs) != [] && Code(rs)[0] == rs[0].ch
  {
  }

  /** Expanding the code of any such list of runs gives the runs back. */
  lemma {:induction false} ExpandCode(rs: seq<Run>)
    requires Runs(rs)
    ensures Expand(Code(rs)) == Plain(rs)
    ensures WellFormed(Code(rs))
  {
    if rs != [] {
      var c, n, rest := rs[0].ch, rs[0].len, Code(rs[1..]);
      ExpandCode(rs[1..]);
      var s := Code(rs);
      if n < 4 {
        if rest != [] { CodeHead(rs[1..]); }
        assert s[n..] == rest;
        ExpandShortRun(s, n);
      } else {
        assert s[5..] == rest;
        assert s[4] == n - 4;
      }
    }
  }

  lemma {:induction false} CodeAppend(rs: seq<Run>, r: Run)
    requires forall i :: 0 <= i < |rs| ==> 1 <= rs[i].len <= 255
    requires 1 <= r.len <= 255
    ensures Code(rs + [r]) == Code(rs) + PairCode(r.ch, r.len)
    ensures Plain(rs + [r]) == Plain(rs) + Rep(r.ch, r.len)
  {
    if rs == [] {
      assert Code([r]) == PairCode(r.ch, r.len) + Code([]);
    } else {
      CodeAppend(rs[1..], r);
      assert (rs + [r])[1..] == rs[1..] + [r];
    }
  }
}
