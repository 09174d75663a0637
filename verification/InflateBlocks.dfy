/**
 * A block with its own codes in inflateBack: from the code lengths through the tables of inflate_table to its bytes.
 */
module InflateBlocks {
  import opened Bytes
  import opened Powers
  import opened StreamCodes
  import opened CodeTables
  import opened InflateTrees
  import opened InflateElements
  import opened CanonicalElements
  import opened InflateFast
  import opened InflateBack

  /** The index bits of the root tables that inflateBack asks for. */
  const LENBITS := 9
  const DISTBITS := 6

  /** inflate_table refuses the lengths, or finds no room for their tables. */
  predicate Unusable(kind: CodeType, lens: seq<nat>, bits: nat) {
    || Refused(kind, lens)
    || (Longest(lens, |lens|) > 0 && TableEntries(lens, RootBits(lens, bits)) > Enough(kind, bits))
  }

  lemma {:induction false} UnusableIs(kind: CodeType, lens: seq<nat>, bits: nat)
    ensures Unusable(kind, lens, bits) <==>
      || Refused(kind, lens)
      || (Longest(lens, |lens|) > 0 && TableEntries(lens, RootBits(lens, bits)) > Enough(kind, bits))
  {
  }

  /** The end of the CODELENS state: the tables for the code lengths received, one behind the other in codes. */
  method BuildTables(codes: array<Entry>, ll: seq<nat>, dl: seq<nat>, work: array<nat>) returns (ok: bool, c: Tables)
    requires codes.Length == ENOUGH_LENS + ENOUGH_DISTS && Sizes(ll, dl) && |ll| > 256
      && work.Length >= 288
    modifies codes, work
    ensures ok <==> ll[256] != 0 && !Unusable(LENS, ll, LENBITS) && !Unusable(DISTS, dl, DISTBITS)
    ensures ok ==> TablesOf(c, ll, dl)
  {
    hide *;
    SizesIs(ll, dl);
    UnusableIs(LENS, ll, LENBITS);
    UnusableIs(DISTS, dl, DISTBITS);
    c := Tables([], 0, [], 0);
    if ll[256] == 0 { return false, c; }
    var ret, next, lenbits := InflateTable(LENS, ll, codes, 0, 9, work);
    if ret != 0 { return false, c; }
    ghost var lencode := codes[0..next];
    var next', distbits;
    ret, next', distbits := InflateTable(DISTS, dl, codes, next, 6, work);
    if ret != 0 { return false, c; }
    assert codes[0..next] == codes[..next];
    c := Tables(codes[..next], lenbits, codes[next..next'], distbits);
    TablesBy(c, ll, dl);
    ok := true;
  }

  lemma {:induction false} SizesIs(ll: seq<nat>, dl: seq<nat>)
    requires Sizes(ll, dl)
    ensures |ll| <= 288 && |dl| <= 32 && (forall i :: 0 <= i < |ll| ==> ll[i] <= MAXBITS)
    ensures (forall i :: 0 <= i < |dl| ==> dl[i] <= MAXBITS) && MAXBITS == 15 && LENBITS == 9 && DISTBITS == 6
    ensures ENOUGH_LENS == 852 && ENOUGH_DISTS == 592
    ensures Enough(LENS, 9) == 852 && Enough(DISTS, 6) == 592
  {
  }

  lemma {:induction false} TablesBy(c: Tables, ll: seq<nat>, dl: seq<nat>)
    requires Sizes(ll, dl) && c.lenbits <= MAXBITS && c.distbits <= MAXBITS
    requires Decodes(c.lencode, c.lenbits, LENS, ll) && Decodes(c.distcode, c.distbits, DISTS, dl)
    requires !Refused(LENS, ll) && !Refused(DISTS, dl)
    ensures TablesOf(c, ll, dl)
  {
    hide Sizes, Decodes, Refused;
  }

  // ----- the block

  /** All n elements are literals and matches that can be carried out. */
  ghost predicate Unfolds(ll: seq<nat>, dl: seq<nat>, v: nat, hist: seq<byte>, limit: nat, n: nat) {
    forall k: nat {:trigger Unfold(ll, dl, v, hist, limit, k)} :: k < n ==>
      var (v', h) := Unfold(ll, dl, v, hist, limit, k);
      Leading(ll, dl, v').0.Emit? && CanApply(Leading(ll, dl, v').0.token, h, limit)
  }

  /** No match has a distance beyond the history, but not beyond twice its depth. */
  ghost predicate Undoubted(ll: seq<nat>, dl: seq<nat>, v: nat, hist: seq<byte>, limit: nat) {
    forall k: nat {:trigger Unfold(ll, dl, v, hist, limit, k)} :: Unfolds(ll, dl, v, hist, limit, k) ==>
      var (v', h) := Unfold(ll, dl, v, hist, limit, k);
      Leading(ll, dl, v').0.Emit? ==> !Doubtful(Leading(ll, dl, v').0.token, |h|, limit)
  }

  lemma {:induction false} RunsCanonical(c: Tables, ll: seq<nat>, dl: seq<nat>, v: nat, hist: seq<byte>, limit: nat,
                                         n: nat)
    requires TablesOf(c, ll, dl)
    ensures Runs(c, v, hist, limit, n) <==> Unfolds(ll, dl, v, hist, limit, n)
  {
    hide TablesOf, Next, Leading, CanApply, Run, Unfold;
    forall k: nat ensures Run(c, v, hist, limit, k) == Unfold(ll, dl, v, hist, limit, k)
      && Next(c, Run(c, v, hist, limit, k).0) == Leading(ll, dl, Unfold(ll, dl, v, hist, limit, k).0)
    {
      RunCanonical(c, ll, dl, v, hist, limit, k);
      NextCanonical(c, ll, dl, Run(c, v, hist, limit, k).0);
    }
  }

  lemma {:induction false} SoundCanonical(c: Tables, ll: seq<nat>, dl: seq<nat>, v: nat, hist: seq<byte>, limit: nat)
    requires TablesOf(c, ll, dl) && Undoubted(ll, dl, v, hist, limit)
    ensures Sound(c, v, hist, limit)
  {
    hide TablesOf, Next, Leading, Doubtful, Run, Unfold, Runs, Unfolds;
    forall k: nat | Runs(c, v, hist, limit, k)
      ensures var (v', h) := Run(c, v, hist, limit, k);
        Next(c, v').0.Emit? ==> !Doubtful(Next(c, v').0.token, |h|, limit)
    {
      RunsCanonical(c, ll, dl, v, hist, limit, k);
      RunCanonical(c, ll, dl, v, hist, limit, k);
      NextCanonical(c, ll, dl, Run(c, v, hist, limit, k).0);
    }
  }

  /**
   * The rest of a block whose code lengths are ll and dl: its elements as section 3.2 of RFC 1951 defines them, up
   * to the end of the block, and their bytes behind the history. Nothing is said of a stream with a doubtful
   * distance.
   */
  method CodedBlock(s: BackState, codes: array<Entry>, ll: seq<nat>, dl: seq<nat>, work: array<nat>,
                    ghost v0: nat, ghost hist0: seq<byte>)
    returns (built: bool, r: Outcome, ghost n: nat, ghost v: nat, ghost hist: seq<byte>)
    requires codes.Length == ENOUGH_LENS + ENOUGH_DISTS && Sizes(ll, dl) && |ll| > 256 && work.Length >= 288
    requires s.Valid(hist0) && Reads(s.hold, s.bits, s.input, s.next, v0) && s.bits < 8
    requires Undoubted(ll, dl, v0, hist0, s.window.Length)
    requires codes as object != s.window && work as object != s.window
    modifies codes, work, s`have, s`next, s`hold, s`bits, s`left, s`whave, s`written, s.window
    ensures built <==> ll[256] != 0 && !Unusable(LENS, ll, LENBITS) && !Unusable(DISTS, dl, DISTBITS)
    ensures r != MORE && (!built ==> r == DATA_ERROR)
    ensures built ==>
      && Unfolds(ll, dl, v0, hist0, s.window.Length, n) && Unfold(ll, dl, v0, hist0, s.window.Length, n) == (v, hist)
    ensures r == BLOCK_END ==>
      && Leading(ll, dl, v).0 == END_OF_BLOCK && s.Valid(hist)
      && Reads(s.hold, s.bits, s.input, s.next, Shr(v, Leading(ll, dl, v).1)) && s.bits < 8
    ensures built && r == DATA_ERROR ==>
      || Leading(ll, dl, v).0 == BAD_CODE || Leading(ll, dl, v).0 == BAD_DISTANCE
      || (Leading(ll, dl, v).0.Emit? && !CanApply(Leading(ll, dl, v).0.token, hist, s.window.Length))
  {
    hide *;
    n, v, hist := 0, v0, hist0;
    var c;
    built, c := BuildTables(codes, ll, dl, work);
    if !built { return false, DATA_ERROR, n, v, hist; }
    TablesProper(c, ll, dl);
    SoundCanonical(c, ll, dl, v0, hist0, s.window.Length);
    r, n, v, hist := s.DecodeBlock(c, v0, hist0);
    RunsCanonical(c, ll, dl, v0, hist0, s.window.Length, n);
    RunCanonical(c, ll, dl, v0, hist0, s.window.Length, n);
    NextCanonical(c, ll, dl, v);
  }
}
