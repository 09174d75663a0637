/** How long a compressed stream can get. */
module StreamSize {
  import opened Bytes
  import opened Powers
  import opened Rotations
  import opened RunLength
  import opened BitStream
  import opened CanonicalCodes
  import opened MoveToFront
  import opened MtfEncoder
  import opened DecodeMachine
  import opened WireFormat
  import opened BlockFormat
  import opened StreamFormat
  import opened Compressor

  // ----- the parts of a block

  lemma {:induction false} WordLength(u: nat, rest: seq<bit>)
    ensures |WordThen(u, rest)| == 32 + |rest|
  {
    hide BitsOf, Low, Shr;
  }

  lemma {:induction false} HeaderLength(k: nat, rest: seq<bit>)
    requires 1 <= k <= 7
    ensures |HeaderThen(k, rest)| == 8 * (7 - k) + |rest|
    decreases 7 - k
  {
    hide BitsOf, HeaderByte;
    if k < 7 { HeaderLength(k + 1, rest); }
  }

  lemma {:induction false} RowFlagsLength(inUse: seq<bool>, i: nat, rest: seq<bit>)
    requires |inUse| == 256 && i <= 16
    ensures |RowFlags(inUse, i, rest)| == 16 - i + |rest|
    decreases 16 - i
  {
    hide BitsOf, RowUsed;
    if i < 16 { RowFlagsLength(inUse, i + 1, rest); }
  }

  lemma {:induction false} ByteFlagsLength(inUse: seq<bool>, k: nat, rest: seq<bit>)
    requires |inUse| == 256 && k <= 256
    ensures |ByteFlags(inUse, k, rest)| <= 256 - k + |rest|
    decreases 256 - k
  {
    hide BitsOf, RowUsed;
    if k == 256 {
    } else if k % 16 == 0 && !RowUsed(inUse, k / 16, 0) {
      ByteFlagsLength(inUse, k + 16, rest);
    } else {
      ByteFlagsLength(inUse, k + 1, rest);
    }
  }

  lemma {:induction false} UnaryLength(j: nat, rest: seq<bit>)
    ensures |Unary(j, rest)| == j + 1 + |rest|
  {
    hide BitsOf;
    if j > 0 { UnaryLength(j - 1, rest); }
  }

  /** At most six bits for a selector. */
  lemma {:induction false} SelectorLength(m: seq<nat>, i: nat, rest: seq<bit>)
    requires i <= |m| && forall x :: 0 <= x < |m| ==> m[x] < 6
    ensures |SelectorBits(m, i, rest)| <= 6 * (|m| - i) + |rest|
    decreases |m| - i
  {
    if i < |m| {
      SelectorLength(m, i + 1, rest);
      UnaryLength(m[i], SelectorBits(m, i + 1, rest));
    }
  }

  /** Two bits for each step of the length, and one when it is reached: at most 33 a symbol. */
  lemma {:induction false} DeltasLength(row: seq<nat>, i: nat, curr: nat, rest: seq<bit>)
    requires i <= |row| && Short(row) && 1 <= curr <= ENCODER_MAX
    ensures |Deltas(row, i, curr, rest)| <= 33 * (|row| - i) + |rest|
    ensures i < |row| ==>
      |Deltas(row, i, curr, rest)| <= 2 * Distance(curr, row[i]) + 1 + 33 * (|row| - i - 1) + |rest|
    decreases |row| - i, if i < |row| then Distance(curr, row[i]) else 0
  {
    hide BitsOf;
    if i < |row| {
      if curr < row[i] {
        DeltasLength(row, i, curr + 1, rest);
      } else if curr > row[i] {
        DeltasLength(row, i, curr - 1, rest);
      } else {
        DeltasLength(row, i + 1, curr, rest);
      }
    }
  }

  ghost predicate ShortRows(len: seq<seq<nat>>) {
    forall x {:trigger len[x]} :: 0 <= x < |len| ==> 0 < |len[x]| <= MAX_ALPHA_SIZE && Short(len[x])
  }

  lemma {:induction false} TableLength(len: seq<seq<nat>>, t: nat, rest: seq<bit>)
    requires t <= |len| && ShortRows(len)
    ensures |TableBits(len, t, rest)| <= (5 + 33 * MAX_ALPHA_SIZE) * (|len| - t) + |rest|
    decreases |len| - t
  {
    hide Deltas, BitsOf;
    if t < |len| {
      TableLength(len, t + 1, rest);
      DeltasLength(len[t], 0, len[t][0], TableBits(len, t + 1, rest));
    }
  }

  lemma {:induction false} DataLength(syms: seq<nat>, selector: seq<nat>, len: seq<seq<nat>>, i: nat, rest: seq<bit>)
    requires DataFits(syms, selector, len) && i <= |syms| && ShortRows(len)
    ensures |DataBits(syms, selector, len, i, rest)| <= ENCODER_MAX * (|syms| - i) + |rest|
    decreases |syms| - i
  {
    hide BitsOf, CodesFit, CodeOf;
    if i < |syms| {
      DataLength(syms, selector, len, i + 1, rest);
      DataAt(syms, selector, len, i);
    }
  }

  /** No more symbols than bytes, apart from the end-of-block symbol. */
  lemma {:induction false} CodesLength(l: seq<byte>, z: nat, col: seq<byte>, i: nat)
    requires i <= |col| && l != [] && Covers(l, col)
    ensures |Codes(l, z, col, i)| <= z + |col| - i
    decreases |col| - i
  {
    RunCodeShort(z);
    if i < |col| {
      if col[i] == l[0] {
        CodesLength(l, z + 1, col, i + 1);
      } else {
        CoveredAt(l, col, i);
        var p := PosOf(l, col[i], 0);
        CoversMove(l, col, p);
        CodesLength(MoveFront(l, p), 0, col, i + 1);
        hide RunCode, MoveFront;
      }
    }
  }

  lemma {:induction false} SymbolsLength(col: seq<byte>, inUse: seq<bool>)
    requires InUse(col, inUse) && col != []
    ensures |Symbols(col, inUse)| <= |col| + 1
  {
    UsedGrows(inUse, col[0], 256);
    RanksCovered(col, inUse);
    CodesLength(Iota(Used(inUse, 256)), 0, Ranks(col, inUse), 0);
  }

  // ----- a block

  /** The bits of a block whose run-length code has n bytes. */
  function PieceBound(n: nat): nat {
    51600 + 18 * n
  }

  lemma {:induction false} PlanLength(syms: seq<nat>, selector: seq<nat>, len: seq<seq<nat>>)
    requires DataFits(syms, selector, len) && (forall t :: 0 <= t < |len| ==> len[t] != [])
    requires forall g :: 0 <= g < |selector| ==> selector[g] < |len|
    requires 2 <= |len| <= 6 && ShortRows(len)
    ensures |PlanBits(syms, selector, len, [])| <= 18 + 6 * |selector| + 6 * 8519 + 17 * |syms|
  {
    hide DataFits, SelectorMtf, SelectorBits, TableBits, DataBits, Lists, Groups, ShortRows;
    PlanBitsIs(syms, selector, len, []);
    var m := SelectorMtf(Groups(|len|), selector, 0, |len|);
    var data := DataBits(syms, selector, len, 0, []);
    DataLength(syms, selector, len, 0, []);
    TableLength(len, 0, data);
    SelectorLength(m, 0, TableBits(len, 0, data));
  }

  lemma {:induction false} HeadLength(head: Head, inUse: seq<bool>, syms: seq<nat>, selector: seq<nat>,
                                      len: seq<seq<nat>>)
    requires |inUse| == 256 && DataFits(syms, selector, len) && (forall t :: 0 <= t < |len| ==> len[t] != [])
    requires forall g :: 0 <= g < |selector| ==> selector[g] < |len|
    ensures |BlockBits(head, inUse, syms, selector, len, [])| <= 377 + |PlanBits(syms, selector, len, [])|
  {
    hide DataFits, PlanBits, RowFlags, ByteFlags, WordThen, HeaderThen, BitsOf;
    var plan := PlanBits(syms, selector, len, []);
    var bytes := ByteFlags(inUse, 0, plan);
    var rows := RowFlags(inUse, 0, bytes);
    var ptr := BitsOf(0, 1) + (BitsOf(head.origPtr, 24) + rows);
    HeaderLength(1, WordThen(head.crc, ptr));
    WordLength(head.crc, ptr);
    RowFlagsLength(inUse, 0, bytes);
    ByteFlagsLength(inUse, 0, plan);
  }

  lemma {:induction false} PieceShape(x: Piece, level: nat)
    requires PieceOk(x, level)
    ensures ShortRows(x.len) && |x.syms| <= |x.code| + 1 && |x.desc.selector| <= (|x.syms| + 49) / 50
      && 2 <= |x.len| <= 6
  {
    PieceFits(x, level);
    var d := x.desc;
    SymbolsLength(Column(x), d.inUse);
    hide Symbols, Short, InUse, LastColumn, SortedRotations, WellFormed, Expand;
    assert PlanFits(d.selector, x.len, Used(d.inUse, 256) + 2, |x.syms|);
    assert Used(d.inUse, 256) <= 256;
  }

  lemma {:induction false} PieceSize(x: Piece, level: nat)
    requires PieceOk(x, level)
    ensures |PieceBits(x, level)| <= PieceBound(|x.code|)
  {
    hide *;
    PieceFits(x, level);
    PieceShape(x, level);
    PieceBitsIs(x, level);
    PlanLength(x.syms, x.desc.selector, x.len);
    HeadLength(x.desc.head, x.desc.inUse, x.syms, x.desc.selector, x.len);
    PieceBoundIs(|x.code|);
  }

  lemma {:induction false} PieceBoundIs(n: nat)
    ensures PieceBound(n) == 51600 + 18 * n
  {
  }

  /** Run-length coding adds at most one byte to four. */
  lemma {:induction false} ExpandLength(s: seq<byte>)
    requires WellFormed(s)
    ensures 4 * |s| <= 5 * |Expand(s)|
    decreases |s|
  {
    if s != [] {
      ExpandLength(if StartsWithFour(s) then s[5..] else s[1..]);
    }
  }

  // ----- the whole stream

  function CodeSize(xs: seq<Piece>, k: nat): nat
    requires k <= |xs|
  {
    if k == 0 then 0 else CodeSize(xs, k - 1) + |xs[k - 1].code|
  }

  /** All blocks but the last are full. */
  ghost predicate AllFull(xs: seq<Piece>, full: nat) {
    forall i {:trigger xs[i]} :: 0 <= i < |xs| ==> |xs[i].code| >= full
  }

  ghost predicate FullButLast(xs: seq<Piece>, full: nat) {
    forall i {:trigger xs[i]} :: 0 <= i < |xs| - 1 ==> |xs[i].code| >= full
  }

  lemma {:induction false} PiecesLength(xs: seq<Piece>, level: nat, k: nat, full: nat)
    requires Pieces(xs, level) && k <= |xs| && FullButLast(xs, full)
    ensures |PiecesBits(xs, level, k)| <= 51600 * k + 18 * CodeSize(xs, k) && 4 * CodeSize(xs, k) <= 5 * |Plains(xs, k)|
    ensures k > 0 ==> (k - 1) * full <= CodeSize(xs, k)
    ensures k < |xs| ==> k * full <= CodeSize(xs, k)
  {
    hide PieceBits, Expand, WellFormed, SortedRotations, Describes, FinalCrc;
    if k > 0 {
      PiecesLength(xs, level, k - 1, full);
      PieceSize(xs[k - 1], level);
      ExpandLength(xs[k - 1].code);
      Times(k - 1, full);
      if k > 1 { Times(k - 2, full); }
    }
  }

  lemma {:induction false} Times(k: nat, full: nat)
    ensures (k + 1) * full == k * full + full
  {
  }

  /** The bits of n input bytes, at block sizes of at least full. */
  function BitsBound(n: nat, full: nat): nat
    requires full > 0
  {
    var code := 5 * n / 4;
    51600 * (code / full + 1) + 18 * code + 112
  }

  /** The bytes that the compressed form of n bytes can take. */
  function Bound(n: nat, level: nat): nat
    requires 1 <= level <= 9
  {
    BitsBound(n, BLOCK_UNIT * level - 19) / 8 + 1
  }

  lemma {:induction false} BoundIs(n: nat, level: nat)
    requires 1 <= level <= 9
    ensures Bound(n, level) == BitsBound(n, 100_000 * level - 19) / 8 + 1
  {
  }

  lemma {:induction false} BoundGrows(m: nat, n: nat, level: nat)
    requires m <= n && 1 <= level <= 9
    ensures Bound(m, level) <= Bound(n, level)
  {
    Quotients(5 * m / 4, 5 * n / 4, BLOCK_UNIT * level - 19);
  }

  lemma {:induction false} Quotients(m: nat, n: nat, full: nat)
    requires m <= n && full > 0
    ensures m / full <= n / full
  {
    Divided(m, full);
    Divided(n, full);
    Multiples(m / full, n / full, full);
  }

  lemma {:induction false} Divided(m: nat, full: nat)
    requires full > 0
    ensures m / full * full <= m < m / full * full + full
  {
  }

  lemma {:induction false} Multiples(p: nat, q: nat, full: nat)
    ensures p > q ==> p * full >= q * full + full
  {
    if p > q {
      Times(p - 1, full);
      Multiples(p - 1, q, full);
    }
  }

  lemma {:induction false} AtMost(k: nat, full: nat, code: nat)
    requires full > 0 && k * full <= code
    ensures k <= code / full
  {
    Quotients(k * full, code, full);
    assert k * full / full == k;
  }

  lemma {:induction false} TrailerSize(k: nat, rest: seq<bit>)
    requires 1 <= k <= 7
    ensures |TrailerThen(k, rest)| == 8 * (7 - k) + |rest|
    decreases 7 - k
  {
    hide BitsOf, EndByte;
    if k < 7 { TrailerSize(k + 1, rest); }
  }

  /** The blocks of a stream that has consumed n bytes. */
  lemma {:induction false} BlocksLength(xs: seq<Piece>, level: nat, full: nat, n: nat)
    requires Pieces(xs, level) && FullButLast(xs, full) && full > 0 && |Plains(xs, |xs|)| <= n
    ensures |PiecesBits(xs, level, |xs|)| + 112 <= BitsBound(n, full)
  {
    hide Pieces, FullButLast, PiecesBits, Plains;
    PiecesOpen(xs, level);
    PiecesLength(xs, level, |xs|, full);
    var code := CodeSize(xs, |xs|);
    assert code <= 5 * n / 4;
    if xs != [] { AtMost(|xs| - 1, full, code); }
    Quotients(code, 5 * n / 4, full);
  }

  lemma {:induction false} PiecesOpen(xs: seq<Piece>, level: nat)
    requires Pieces(xs, level)
    ensures 1 <= level <= 9 && forall i :: 0 <= i < |xs| ==> PieceOk(xs[i], level)
  {
  }

  lemma {:induction false} EmittedLength(produced: seq<bit>, xs: seq<Piece>, level: nat, started: bool, full: nat,
                                         n: nat)
    requires Emitted(produced, xs, level, started) && FullButLast(xs, full) && full > 0 && |Plains(xs, |xs|)| <= n
    ensures |produced| + 80 <= BitsBound(n, full)
  {
    hide FullButLast, Plains, BitsOf, PieceOk, PiecesBits;
    BlocksLength(xs, level, full, n);
    assert |MagicThen(level, [])| == 32;
  }

  lemma {:induction false} ClosedLength(produced: seq<bit>, xs: seq<Piece>, level: nat, full: nat, n: nat)
    requires Closed(produced, xs, level) && FullButLast(xs, full) && full > 0 && |Plains(xs, |xs|)| <= n
    ensures |produced| < BitsBound(n, full) + 8
  {
    hide FullButLast, Plains, BitsOf, PieceOk, PiecesBits, WordThen, TrailerThen, Combined, BitsBound;
    BlocksLength(xs, level, full, n);
    assert |MagicThen(level, [])| == 32;
    var word := WordThen(BlockCrc.Word(Combined(xs, |xs|)), []);
    TrailerSize(1, word);
    WordLength(BlockCrc.Word(Combined(xs, |xs|)), []);
  }
}
