/** Literals and copies: the tokens of the deflate format, and what they stand for. */
module Lz77 {
  import opened Bytes

  const MIN_MATCH := 3
  const MAX_MATCH := 258

  datatype Token = Literal(c: byte) | Copy(dist: nat, len: nat)

  /** Appends len bytes, one after the other, each from dist bytes back (section 3.2.3 of RFC 1951). */
  function CopyBack(out: seq<byte>, dist: nat, len: nat): (r: seq<byte>)
    ensures |r| >= |out| && r[..|out|] == out && (1 <= dist <= |out| ==> |r| == |out| + len)
  {
    if len == 0 || dist == 0 || dist > |out| then out else
      var o := CopyBack(out, dist, len - 1);
      o + [o[|o| - dist]]
  }

  function Apply(out: seq<byte>, t: Token): seq<byte> {
    match t
    case Literal(c) => out + [c]
    case Copy(dist, len) => CopyBack(out, dist, len)
  }

  /** What the first k tokens stand for. */
  function Expand(ts: seq<Token>, k: nat): seq<byte>
    requires k <= |ts|
  {
    if k == 0 then [] else Apply(Expand(ts, k - 1), ts[k - 1])
  }

  /** Every copy has an allowed length and reaches back no further than maxDist, nor beyond the start. */
  ghost predicate Legal(ts: seq<Token>, maxDist: nat) {
    forall k {:trigger ts[k]} :: 0 <= k < |ts| && ts[k].Copy? ==>
      MIN_MATCH <= ts[k].len <= MAX_MATCH && 1 <= ts[k].dist <= maxDist && ts[k].dist <= |Expand(ts, k)|
  }

  lemma {:induction false} ExpandPrefix(ts: seq<Token>, us: seq<Token>, k: nat)
    requires k <= |ts| <= |us| && us[..|ts|] == ts
    ensures Expand(us, k) == Expand(ts, k)
  {
    if k > 0 {
      ExpandPrefix(ts, us, k - 1);
      assert us[k - 1] == us[..|ts|][k - 1];
    }
  }

  /** From n on, data repeats itself, dist back, for len bytes. */
  ghost predicate Repeats(data: seq<byte>, n: int, dist: int, len: int) {
    && 1 <= dist <= n && 0 <= len && n + len <= |data|
    && forall x {:trigger data[x]} :: n <= x < n + len ==> data[x] == data[x - dist]
  }

  lemma {:induction false} CopyRepeats(data: seq<byte>, n: nat, dist: nat, len: nat)
    requires Repeats(data, n, dist, len)
    ensures CopyBack(data[..n], dist, len) == data[..n + len]
  {
    hide Legal;
    if len > 0 {
      CopyRepeats(data, n, dist, len - 1);
      var o := CopyBack(data[..n], dist, len - 1);
      assert data[n + len - 1] == data[n + len - 1 - dist] == o[|o| - dist];
      assert data[..n + len] == data[..n + len - 1] + [data[n + len - 1]];
    }
  }

  lemma {:induction false} RepeatsMore(data: seq<byte>, more: seq<byte>, n: int, dist: int, len: int)
    requires Repeats(data, n, dist, len)
    ensures Repeats(data + more, n, dist, len)
  {
  }

  /** The tokens stand for the first n bytes of data. */
  ghost predicate Codes(ts: seq<Token>, data: seq<byte>, n: int, maxDist: nat) {
    0 <= n <= |data| && Legal(ts, maxDist) && Expand(ts, |ts|) == data[..n]
  }

  lemma {:induction false} LegalAppend(ts: seq<Token>, t: Token, maxDist: nat)
    requires Legal(ts, maxDist)
    requires t.Copy? ==> MIN_MATCH <= t.len <= MAX_MATCH && 1 <= t.dist <= maxDist && t.dist <= |Expand(ts, |ts|)|
    ensures Legal(ts + [t], maxDist) && Expand(ts + [t], |ts| + 1) == Apply(Expand(ts, |ts|), t)
  {
    var us := ts + [t];
    forall k | 0 <= k < |us| && us[k].Copy?
      ensures MIN_MATCH <= us[k].len <= MAX_MATCH && 1 <= us[k].dist <= maxDist && us[k].dist <= |Expand(us, k)| {
      ExpandPrefix(ts, us, k);
      if k < |ts| { assert us[k] == ts[k]; }
    }
    ExpandPrefix(ts, us, |ts|);
  }

  lemma {:induction false} CodesLiteral(ts: seq<Token>, data: seq<byte>, n: int, maxDist: nat)
    requires Codes(ts, data, n, maxDist) && n < |data|
    ensures Codes(ts + [Literal(data[n])], data, n + 1, maxDist)
  {
    LegalAppend(ts, Literal(data[n]), maxDist);
  }

  lemma {:induction false} CodesCopy(ts: seq<Token>, data: seq<byte>, n: int, maxDist: nat, dist: nat, len: nat)
    requires Codes(ts, data, n, maxDist) && Repeats(data, n, dist, len) && MIN_MATCH <= len <= MAX_MATCH
      && dist <= maxDist
    ensures Codes(ts + [Copy(dist, len)], data, n + len, maxDist)
  {
    hide Legal, Expand, Repeats;
    RepeatsSize(data, n, dist, len);
    LegalAppend(ts, Copy(dist, len), maxDist);
    CopyRepeats(data, n, dist, len);
  }

  lemma {:induction false} RepeatsSize(data: seq<byte>, n: int, dist: int, len: int)
    requires Repeats(data, n, dist, len)
    ensures 1 <= dist <= n && n + len <= |data| && len >= 0
  {
  }

  lemma {:induction false} CodesMore(ts: seq<Token>, data: seq<byte>, more: seq<byte>, n: int, maxDist: nat)
    requires Codes(ts, data, n, maxDist)
    ensures Codes(ts, data + more, n, maxDist)
  {
    assert (data + more)[..n] == data[..n];
  }

  // ----- sym_buf: three bytes for each token

  function TokenBytes(t: Token): (s: seq<byte>)
    ensures |s| == 3
  {
    match t
    case Literal(c) => [0, 0, c]
    case Copy(dist, len) => [dist % 256, dist / 256 % 256, (if len >= 3 then len - 3 else 0) % 256]
  }

  function TokenOf(a: byte, b: byte, c: byte): Token {
    if a == 0 && b == 0 then Literal(c) else Copy(a as nat + 256 * b as nat, c as nat + 3)
  }

  /** The tokens in the first n bytes of the buffer. */
  function TokensIn(buf: seq<byte>, n: nat): (ts: seq<Token>)
    requires n <= |buf|
  {
    if n < 3 then [] else TokensIn(buf, n - 3) + [TokenOf(buf[n - 3], buf[n - 2], buf[n - 1])]
  }

  lemma {:induction false} TokensSame(buf: seq<byte>, buf': seq<byte>, n: nat)
    requires n <= |buf| && n <= |buf'| && buf[..n] == buf'[..n]
    ensures TokensIn(buf, n) == TokensIn(buf', n)
  {
    if n >= 3 {
      assert buf[..n - 3] == buf[..n][..n - 3] == buf'[..n][..n - 3] == buf'[..n - 3];
      TokensSame(buf, buf', n - 3);
      assert buf[..n][n - 3] == buf'[..n][n - 3] && buf[..n][n - 2] == buf'[..n][n - 2]
        && buf[..n][n - 1] == buf'[..n][n - 1];
    }
  }

  /** A token written behind the others is read back. */
  lemma {:induction false} TokenWritten(buf: seq<byte>, buf': seq<byte>, n: nat, t: Token)
    requires n + 3 <= |buf| == |buf'| && buf'[..n] == buf[..n] && buf'[n..n + 3] == TokenBytes(t)
    requires t.Copy? ==> 1 <= t.dist < 0x1_0000 && 3 <= t.len <= 258
    ensures TokensIn(buf', n + 3) == TokensIn(buf, n) + [t]
  {
    TokensSame(buf', buf, n);
    assert buf'[n] == buf'[n..n + 3][0] && buf'[n + 1] == buf'[n..n + 3][1] && buf'[n + 2] == buf'[n..n + 3][2];
  }
}
