/** BZ2_decompress on its arrays: decoding tables, byte map and move-to-front list, kept in step with the machine. */
module BlockDecoder {
  import opened Bytes
  import opened Powers
  import opened BitStream
  import opened RunLength
  import opened DecodeTables
  import opened MoveToFront
  import opened MtfEncoder
  import opened MtfCache
  import opened DecodeMachine
  import opened BlockFormat

  /**
   * Where BZ2_decompress stands: up to the coding tables in a state of the machine, then between the bits of a code.
   */
  datatype Label =
    | Early(state: State)
    | Symbol(desc: Desc, groupNo: nat, groupPos: nat, first: bool, zn: nat, zvec: nat)

  // ----- the map of the bytes in use

  /** The bytes in use, once they are known. */
  function MapOf(s: State): seq<bool> {
    match s
    case Selector1(_, inUse) => inUse
    case Selector2(_, inUse, _) => inUse
    case Selector3(_, inUse, _, _, _, _) => inUse
    case Coding1(desc, _) => desc.inUse
    case Coding2(desc, _, _, _) => desc.inUse
    case Coding3(desc, _, _, _) => desc.inUse
    case Mtf(desc, _, _, _, _, _, _, _) => desc.inUse
    case _ => []
  }

  /** The entries of the ranks that occur. */
  ghost predicate MapFor(m: seq<byte>, inUse: seq<bool>) {
    |m| == |inUse| == 256 && forall r {:trigger m[r]} :: 0 <= r < Used(inUse, 256) ==> m[r] == SeqToUnseq(inUse)[r]
  }

  lemma {:induction false} RankHits(inUse: seq<bool>, r: nat, k: nat) returns (v: nat)
    requires k <= |inUse| && r < Used(inUse, k)
    ensures v < k && inUse[v] && Used(inUse, v) == r
  {
    if r >= Used(inUse, k - 1) { v := k - 1; } else { v := RankHits(inUse, r, k - 1); }
  }

  lemma {:induction false} InvertsMaps(m: seq<byte>, inUse: seq<bool>)
    requires |m| == |inUse| == 256
    requires forall v :: 0 <= v < 256 && inUse[v] ==> Used(inUse, v) < 256 && m[Used(inUse, v)] == v
    ensures MapFor(m, inUse)
  {
    hide ByteOfRank;
    forall r | 0 <= r < Used(inUse, 256) ensures m[r] == SeqToUnseq(inUse)[r] {
      var v := RankHits(inUse, r, 256);
      ByteOfRankIs(inUse, v, 0);
    }
  }

  /** What the next state knows of the bytes in use, and when the first symbol comes. */
  lemma {:induction false} NextMap(s: State, v: nat)
    requires Ok(s) && !Final(s) && !s.Mtf?
    ensures var s' := Next(s, v); s'.Selector1? || MapOf(s') == [] || (MapOf(s') == MapOf(s) && |MapOf(s)| == 256)
    ensures Next(s, v).Selector1? ==> |Next(s, v).inUse| == 256 && Used(Next(s, v).inUse, 256) > 0
    ensures Next(s, v).Mtf? <==>
      s.Coding2? && v == 0 && |s.row| + 1 == Used(s.desc.inUse, 256) + 2 && |s.len| + 1 == s.desc.nGroups
  {
    hide Used, TablesOfAll, UndoSelectors, HeaderByte, EndByte, LengthsOk;
    match s
    case Mapping1(head, inUse16) =>
      if |inUse16| == 15 { SkipRowsMap(head, inUse16 + [v == 1], []); }
    case Mapping2(head, inUse16, inUse) =>
      if (|inUse| + 1) % 16 == 0 { SkipRowsMap(head, inUse16, inUse + [v == 1]); }
    case _ =>
  }

  lemma {:induction false} SkipRowsMap(head: Head, inUse16: seq<bool>, inUse: seq<bool>)
    requires |inUse16| == 16 && |inUse| % 16 == 0 && |inUse| <= 256
    ensures var s := SkipRows(head, inUse16, inUse);
      (s.DataError? || s.Selector1? || s.Mapping2?) && (s.Selector1? ==> |s.inUse| == 256 && Used(s.inUse, 256) > 0)
    decreases 256 - |inUse|
  {
    if |inUse| < 256 && !inUse16[|inUse| / 16] { SkipRowsMap(head, inUse16, inUse + Falses(16)); }
  }

  // ----- the list

  /** The first n entries are ranks below n. */
  predicate LowRanks(l: seq<byte>, n: nat) {
    |l| == 256 && n <= 256 && forall i {:trigger l[i]} :: 0 <= i < n ==> l[i] < n
  }

  lemma {:induction false} LowRanksMove(l: seq<byte>, n: nat, k: nat)
    requires LowRanks(l, n) && k < n
    ensures LowRanks(MoveFront(l, k), n)
  {
  }

  // ----- what a symbol does

  lemma {:induction false} OnSymbolIs(d: Desc, tables: seq<Tables>, groupNo: nat, groupPos: nat, u: Undo, sym: nat)
    requires |d.inUse| == 256 && Ready(u, SeqToUnseq(d.inUse))
    requires groupNo < |d.selector| && d.selector[groupNo] < |tables|
    requires sym <= Used(d.inUse, 256) + 1
    ensures var f, max, eob := Flushed(u, SeqToUnseq(d.inUse)), BLOCK_UNIT * d.head.level, Used(d.inUse, 256) + 1;
      var s := OnSymbol(d, tables, groupNo, groupPos, u, sym);
      if sym == eob then
        s == if |f| > max || d.head.origPtr >= |f| then DataError else Output(Block(d.head, f))
      else if sym <= 1 then
        s == if u.n >= RUN_LIMIT then DataError
             else Fetch(d, tables, groupNo, groupPos,
                        Undo(u.list, u.es + (if sym == 0 then u.n else 2 * u.n), 2 * u.n, u.out))
      else
        s == if |f| >= max then DataError
             else Fetch(d, tables, groupNo, groupPos,
                        Undo(MoveFront(u.list, sym - 1), -1, 1, f + [SeqToUnseq(d.inUse)[u.list[sym - 1]]]))
  {
    hide SeqToUnseq, Fetch, MoveFront;
  }

  lemma {:induction false} FlushedIs(u: Undo, m: seq<byte>)
    requires Ready(u, m)
    ensures Flushed(u, m) == u.out + Rep(m[u.list[0]], u.es + 1)
  {
  }

  /** Lengths for n symbols in every table. */
  ghost predicate FullLens(len: seq<seq<nat>>, n: nat) {
    AllSized(len, n) && forall t {:trigger len[t]} :: 0 <= t < |len| ==> LengthsOk(len[t])
  }

  ghost predicate AllSized(len: seq<seq<nat>>, n: nat) {
    n <= MAX_ALPHA_SIZE && forall t {:trigger len[t]} :: 0 <= t < |len| ==> |len[t]| == n
  }

  class Decoder {
    const reader: BitReader
    const seqToUnseq: array<byte>
    const mtf: MtfList
    var nInUse: nat
    var tables: seq<CodingTable>
    var es: int
    var N: nat
    var column: seq<byte>
    var point: Label
    ghost var lens: seq<seq<nat>>
    ghost var state: State

    /** The arrays of all coding tables are those for the lengths received. */
    ghost predicate TablesHold()
      reads this`tables, this`lens, (set t | t in tables :: t.limit), (set t | t in tables :: t.base),
        (set t | t in tables :: t.perm)
    {
      |tables| == |lens| && forall t {:trigger tables[t]} :: 0 <= t < |tables| ==>
        tables[t].Valid() && tables[t].length == lens[t]
    }

    /** The list of the move-to-front stage has its arrays to itself. */
    ghost predicate Apart()
      reads this`tables
    {
      && mtf.mtfa as object != seqToUnseq && mtf.mtfbase as object != seqToUnseq
      && forall t {:trigger t.limit} {:trigger t.base} {:trigger t.perm} :: t in tables ==>
           && t.limit as object != mtf.mtfa && t.limit as object != mtf.mtfbase && t.base as object != mtf.mtfa
           && t.base as object != mtf.mtfbase && t.perm as object != mtf.mtfa && t.perm as object != mtf.mtfbase
    }

    ghost predicate MapKept()
      reads this`nInUse, this`state, seqToUnseq
    {
      seqToUnseq.Length == 256 &&
        (MapOf(state) != [] ==> MapFor(seqToUnseq[..], MapOf(state)) && nInUse == Used(MapOf(state), 256) > 0)
    }

    /** The block so far, as the machine has it. */
    ghost predicate UndoKept(desc: Desc)
      reads this`nInUse, this`es, this`N, this`column, this`state, mtf, mtf.mtfa, mtf.mtfbase
    {
      && mtf.Valid() && LowRanks(mtf.list, nInUse) && |column| <= BLOCK_UNIT * desc.head.level
      && state.Mtf? && state.undo == Undo(mtf.list, es, N, column)
    }

    /** The arrays stand for the state of the machine. */
    ghost predicate Coupled()
      reads this, seqToUnseq, mtf, mtf.mtfa, mtf.mtfbase,
            (set t | t in tables :: t.limit), (set t | t in tables :: t.base), (set t | t in tables :: t.perm)
    {
      match point
      case Early(s) => state == s && !s.Mtf?
      case Symbol(desc, groupNo, groupPos, first, zn, zvec) =>
        && TablesHold() && UndoKept(desc)
        && AllSized(lens, nInUse + 2)
        && state == Mtf(desc, TablesOfAll(lens), groupNo, groupPos, first, zn, zvec, state.undo)
    }

    ghost predicate Valid()
      reads this, reader, seqToUnseq, mtf, mtf.mtfa, mtf.mtfbase,
            (set t | t in tables :: t.limit), (set t | t in tables :: t.base), (set t | t in tables :: t.perm)
    {
      && Ok(state) && reader.Valid() && Apart() && MapKept() && Coupled()
      && mtf.mtfa.Length == MTFA_SIZE && mtf.mtfbase.Length == 256 / MTFL_SIZE && mtf.mtfa as object != mtf.mtfbase
    }

    constructor ()
      ensures Valid() && fresh(reader) && fresh(seqToUnseq) && fresh(mtf) && fresh(mtf.mtfa) && fresh(mtf.mtfbase)
      ensures state == Magic(1) && reader.Unread() == []
    {
      reader := new BitReader();
      seqToUnseq := new byte[256];
      mtf := new MtfList();
      nInUse, tables, es, N, column := 0, [], -1, 1, [];
      lens, point, state := [], Early(Magic(1)), Magic(1);
    }

    // ----- up to the coding tables

    /** makeMaps_d. */
    method MakeMaps(used: seq<bool>)
      requires |used| == 256 && seqToUnseq.Length == 256
      modifies this`nInUse, seqToUnseq
      ensures MapFor(seqToUnseq[..], used) && nInUse == Used(used, 256)
    {
      hide MapFor;
      var inUse := new bool[256](i requires 0 <= i < 256 => used[i]);
      assert inUse[..] == used;
      nInUse := MakeMapsD(inUse, seqToUnseq);
      InvertsMaps(seqToUnseq[..], used);
    }

    /** The decoding tables of all groups. */
    method MakeTables(len: seq<seq<nat>>)
      requires forall t :: 0 <= t < |len| ==> 0 < |len[t]| <= MAX_ALPHA_SIZE && LengthsOk(len[t])
      requires mtf.mtfa as object != seqToUnseq && mtf.mtfbase as object != seqToUnseq
      modifies this`tables, this`lens
      ensures TablesHold() && lens == len && Apart()
    {
      tables, lens := [], [];
      var t: nat := 0;
      while t < |len|
        invariant t <= |len| && lens == len[..t] && TablesHold()
        invariant forall t :: t in tables ==> fresh(t.limit) && fresh(t.base) && fresh(t.perm)
      {
        var c := new CodingTable(len[t]);
        tables, lens := tables + [c], lens + [len[t]];
        t := t + 1;
      }
      assert len[..t] == len;
    }

    // ----- the symbols

    lemma {:induction false} TableIs(g: nat)
      requires TablesHold() && g < |tables|
      ensures |lens| == |tables| && tables[g].Valid() && tables[g].length == lens[g]
      ensures tables[g].minLen == TablesOf(lens[g]).minLen && 1 <= tables[g].minLen <= LONGEST_CODE
    {
      tables[g].AgreesIs();
    }

    lemma {:induction false} ShortLens(k: nat)
      requires AllSized(lens, k)
      ensures forall t :: 0 <= t < |lens| ==> |lens[t]| <= MAX_ALPHA_SIZE
      ensures |TablesOfAll(lens)| == |lens| && forall t :: 0 <= t < |lens| ==> TablesOfAll(lens)[t] == TablesOf(lens[t])
    {
    }

    /** The arrays between two bits of a code. */
    ghost predicate InPlace(d: Desc, groupNo: nat)
      reads this`tables, this`lens, this`nInUse, seqToUnseq, mtf, mtf.mtfa, mtf.mtfbase,
            (set t | t in tables :: t.limit), (set t | t in tables :: t.base), (set t | t in tables :: t.perm)
    {
      && Apart() && TablesHold() && mtf.Valid() && LowRanks(mtf.list, nInUse)
      && DescOk(d) && groupNo < |d.selector| && |tables| == d.nGroups && nInUse == Used(d.inUse, 256)
      && seqToUnseq.Length == 256 && MapFor(seqToUnseq[..], d.inUse)
      && 1 <= nInUse && AllSized(lens, nInUse + 2)
    }

    /** The block so far. */
    ghost predicate Within(d: Desc)
      reads this`column, this`es
    {
      |column| <= BLOCK_UNIT * d.head.level && es >= -1
    }

    lemma {:induction false} WithinIs(d: Desc)
      ensures Within(d) <==> |column| <= BLOCK_UNIT * d.head.level && es >= -1
    {
    }

    lemma {:induction false} InPlaceIs(d: Desc, groupNo: nat)
      requires InPlace(d, groupNo)
      ensures Apart() && TablesHold() && mtf.Valid() && LowRanks(mtf.list, nInUse) && |mtf.list| == 256
      ensures DescOk(d) && groupNo < |d.selector| && |tables| == |lens| == d.nGroups && nInUse == Used(d.inUse, 256)
      ensures d.selector[groupNo] < |tables| && (groupNo + 1 < |d.selector| ==> d.selector[groupNo + 1] < |tables|)
      ensures (forall t :: 0 <= t < |lens| ==> |lens[t]| <= MAX_ALPHA_SIZE) && |TablesOfAll(lens)| == |lens|
      ensures |lens[d.selector[groupNo]]| == nInUse + 2
      ensures es >= -1 ==> Ready(Undo(mtf.list, es, N, column), SeqToUnseq(d.inUse))
      ensures |d.inUse| == seqToUnseq.Length == 256 && seqToUnseq[mtf.list[0]] == SeqToUnseq(d.inUse)[mtf.list[0]]
    {
      ShortLens(nInUse + 2);
      assert seqToUnseq[..][mtf.list[0]] == seqToUnseq[mtf.list[0]];
    }

    /** GET_MTF_VAL up to its first GET_BITS. */
    method FetchNext(d: Desc, groupNo: nat, groupPos: nat)
      requires InPlace(d, groupNo) && Within(d)
      modifies this`point, this`state
      ensures InPlace(d, groupNo) && Within(d) && Coupled() && MapKept()
      ensures forall t :: 0 <= t < |lens| ==> |lens[t]| <= MAX_ALPHA_SIZE
      ensures groupNo < |d.selector| && d.selector[groupNo] < |lens|
      ensures state == Fetch(d, TablesOfAll(lens), groupNo, groupPos, Undo(mtf.list, es, N, column))
    {
      hide *;
      InPlaceIs(d, groupNo);
      WithinIs(d);
      state := Fetch(d, TablesOfAll(lens), groupNo, groupPos, Undo(mtf.list, es, N, column));
      if groupPos > 0 {
        TableIs(d.selector[groupNo]);
        point := Symbol(d, groupNo, groupPos - 1, true, tables[d.selector[groupNo]].minLen, 0);
      } else if groupNo + 1 >= |d.selector| {
        point := Early(DataError);
      } else {
        ConstantsIs();
        TableIs(d.selector[groupNo + 1]);
        point := Symbol(d, groupNo + 1, G_SIZE - 1, true, tables[d.selector[groupNo + 1]].minLen, 0);
      }
      FetchCoupled(d, groupNo, groupPos);
    }

    lemma {:induction false} FetchCoupled(d: Desc, groupNo: nat, groupPos: nat)
      requires InPlace(d, groupNo) && Within(d)
      requires DescOk(d) && d.selector[groupNo] < |lens|
        && (groupNo + 1 < |d.selector| ==> d.selector[groupNo + 1] < |lens|)
      requires forall t :: 0 <= t < |lens| ==> |lens[t]| <= MAX_ALPHA_SIZE
      requires state == Fetch(d, TablesOfAll(lens), groupNo, groupPos, Undo(mtf.list, es, N, column))
      requires groupPos > 0 ==>
        point == Symbol(d, groupNo, groupPos - 1, true, TablesOf(lens[d.selector[groupNo]]).minLen, 0)
      requires groupPos == 0 ==>
        point == if groupNo + 1 >= |d.selector| then Early(DataError)
                 else Symbol(d, groupNo + 1, G_SIZE - 1, true, TablesOf(lens[d.selector[groupNo + 1]]).minLen, 0)
      ensures Coupled() && MapKept()
    {
      hide TablesOf, MapFor, LowRanks;
      ShortLens(nInUse + 2);
    }

    /** The run in hand goes into the block. */
    method FlushRun(d: Desc, groupNo: nat) returns (ok: bool)
      requires InPlace(d, groupNo) && Within(d)
      modifies this`column, this`es, this`N
      ensures Ready(Undo(mtf.list, old(es), old(N), old(column)), SeqToUnseq(d.inUse)) && |d.inUse| == 256
      ensures var f := Flushed(Undo(mtf.list, old(es), old(N), old(column)), SeqToUnseq(d.inUse));
        (ok <==> |f| <= BLOCK_UNIT * d.head.level) && (ok ==> column == f)
      ensures ok ==> InPlace(d, groupNo) && Within(d) && es == -1 && N == 1
    {
      hide *;
      InPlaceIs(d, groupNo);
      WithinIs(d);
      ghost var u, m := Undo(mtf.list, es, N, column), SeqToUnseq(d.inUse);
      FlushedIs(u, m);
      var nblockMAX := BLOCK_UNIT * d.head.level;
      var uc := mtf.Front();
      uc := seqToUnseq[uc];
      es := es + 1;
      assert u.out + Rep(uc, 0) == u.out;
      while es > 0
        invariant 0 <= es <= u.es + 1 && column == u.out + Rep(uc, u.es + 1 - es) && |column| <= nblockMAX
        decreases es
      {
        if |column| >= nblockMAX { return false; }
        RepMore(u.out, uc, u.es + 1 - es);
        column := column + [uc];
        es := es - 1;
      }
      es, N := -1, 1;
      WithinIs(d);
      ok := true;
    }

    lemma {:induction false} RepMore(out: seq<byte>, c: byte, n: nat)
      ensures out + Rep(c, n) + [c] == out + Rep(c, n + 1) && |out + Rep(c, n)| == |out| + n
    {
    }

    lemma {:induction false} EntryMapped(d: Desc, groupNo: nat, nn: nat)
      requires InPlace(d, groupNo) && Within(d) && nn < nInUse
      ensures |mtf.list| == 256 && |d.inUse| == 256 && seqToUnseq.Length == 256 && nn < 256
      ensures seqToUnseq[mtf.list[nn]] == SeqToUnseq(d.inUse)[mtf.list[nn]]
    {
      assert seqToUnseq[..][mtf.list[nn]] == seqToUnseq[mtf.list[nn]];
    }

    /** Error returns. */
    method Fail()
      requires seqToUnseq.Length == 256
      modifies this`point, this`state
      ensures Coupled() && MapKept() && state == DataError
    {
      point, state := Early(DataError), DataError;
    }

    /** A move-to-front value: an entry of the list, and its byte. */
    method TakeEntry(d: Desc, groupNo: nat, nn: nat)
      requires InPlace(d, groupNo) && Within(d) && nn < nInUse && |column| < BLOCK_UNIT * d.head.level && es == -1
      modifies this`column, mtf, mtf.mtfa, mtf.mtfbase
      ensures InPlace(d, groupNo) && Within(d) && |d.inUse| == |old(mtf.list)| == 256 && nn < 256
      ensures mtf.list == MoveFront(old(mtf.list), nn)
      ensures column == old(column) + [SeqToUnseq(d.inUse)[old(mtf.list)[nn]]]
    {
      hide *;
      InPlaceIs(d, groupNo);
      InPlaceOf(d, groupNo);
      WithinIs(d);
      ApartIs();
      EntryMapped(d, groupNo, nn);
      LowRanksMove(mtf.list, nInUse, nn);
      ghost var m := seqToUnseq[..];
      var uc := mtf.Take(nn);
      assert seqToUnseq[..] == m;
      assert TablesHold();
      InPlaceAgain(d, groupNo);
      column := column + [seqToUnseq[uc]];
      WithinIs(d);
    }

    lemma {:induction false} ConstantsIs()
      ensures G_SIZE == 50 && RUNA == 0 && RUNB == 1 && BLOCK_UNIT == 100_000
    {
    }

    lemma {:induction false} ApartIs()
      requires Apart()
      ensures mtf.mtfa as object != seqToUnseq && mtf.mtfbase as object != seqToUnseq
      ensures forall t {:trigger t.limit} {:trigger t.base} {:trigger t.perm} :: t in tables ==>
           && t.limit as object != mtf.mtfa && t.limit as object != mtf.mtfbase && t.base as object != mtf.mtfa
           && t.base as object != mtf.mtfbase && t.perm as object != mtf.mtfa && t.perm as object != mtf.mtfbase
    {
    }

    lemma {:induction false} InPlaceAgain(d: Desc, groupNo: nat)
      requires Apart() && TablesHold() && mtf.Valid() && LowRanks(mtf.list, nInUse)
      requires DescOk(d) && groupNo < |d.selector| && |tables| == d.nGroups && nInUse == Used(d.inUse, 256)
      requires seqToUnseq.Length == 256 && MapFor(seqToUnseq[..], d.inUse)
      requires 1 <= nInUse && AllSized(lens, nInUse + 2)
      ensures InPlace(d, groupNo)
    {
    }

    lemma {:induction false} InPlaceOf(d: Desc, groupNo: nat)
      ensures InPlace(d, groupNo) <==>
        && Apart() && TablesHold() && mtf.Valid() && LowRanks(mtf.list, nInUse)
        && DescOk(d) && groupNo < |d.selector| && |tables| == d.nGroups && nInUse == Used(d.inUse, 256)
        && seqToUnseq.Length == 256 && MapFor(seqToUnseq[..], d.inUse)
        && 1 <= nInUse && AllSized(lens, nInUse + 2)
    {
    }

    /** A symbol has been read. */
    method TakeSymbol(d: Desc, groupNo: nat, groupPos: nat, sym: nat)
      requires InPlace(d, groupNo) && Within(d) && sym <= nInUse + 1
      modifies this`point, this`state, this`column, this`es, this`N, mtf, mtf.mtfa, mtf.mtfbase
      ensures Apart() && Coupled() && MapKept()
      ensures |d.inUse| == 256 && Ready(Undo(old(mtf.list), old(es), old(N), old(column)), SeqToUnseq(d.inUse))
      ensures groupNo < |d.selector| && d.selector[groupNo] < |lens| && forall t :: 0 <= t < |lens| ==>
        |lens[t]| <= MAX_ALPHA_SIZE
      ensures state == OnSymbol(d, TablesOfAll(lens), groupNo, groupPos,
                                Undo(old(mtf.list), old(es), old(N), old(column)), sym)
    {
      hide *;
      InPlaceIs(d, groupNo);
      WithinIs(d);
      ConstantsIs();
      ghost var u := Undo(mtf.list, es, N, column);
      OnSymbolIs(d, TablesOfAll(lens), groupNo, groupPos, u, sym);
      if sym == nInUse + 1 {
        var ok := FlushRun(d, groupNo);
        if !ok || d.head.origPtr >= |column| {
          Fail();
        } else {
          FinishBlock(d);
        }
      } else if sym <= RUNB {
        if N >= RUN_LIMIT { Fail(); return; }
        es := es + if sym == RUNA then N else 2 * N;
        N := 2 * N;
        WithinIs(d);
        FetchNext(d, groupNo, groupPos);
      } else {
        var ok := FlushRun(d, groupNo);
        if !ok || |column| >= BLOCK_UNIT * d.head.level { Fail(); return; }
        TakeEntry(d, groupNo, sym - 1);
        FetchNext(d, groupNo, groupPos);
      }
    }

    method FinishBlock(d: Desc)
      requires seqToUnseq.Length == 256
      modifies this`point, this`state
      ensures Coupled() && MapKept() && state == Output(Block(d.head, column))
    {
      point, state := Early(Output(Block(d.head, column))), Output(Block(d.head, column));
    }

    // ----- steps of the machine

    lemma {:induction false} SymbolOpen()
      requires Valid() && point.Symbol?
      ensures state.Mtf? && state.desc == point.desc && state.groupNo == point.groupNo
        && state.groupPos == point.groupPos
      ensures InPlace(point.desc, point.groupNo) && Within(point.desc)
      ensures state.undo == Undo(mtf.list, es, N, column) && |state.desc.inUse| == 256
      ensures (forall t :: 0 <= t < |lens| ==> |lens[t]| <= MAX_ALPHA_SIZE) && state.tables == TablesOfAll(lens)
    {
      hide MapFor, FullTables, TablesOf;
    }

    lemma {:induction false} SymbolLook(v: nat)
      requires Valid() && point.Symbol?
      ensures state.Mtf? && Ok(state) && !Final(state) && |state.desc.inUse| == 256
      ensures Ready(state.undo, SeqToUnseq(state.desc.inUse)) && FullTables(state.tables)
      ensures |state.tables| == |lens| && point.groupNo < |point.desc.selector|
        && point.desc.selector[point.groupNo] < |lens|
      ensures var zvec := if point.first then v else 2 * point.zvec + v;
        Next(state, v) ==
          match Look(TablesOf(lens[point.desc.selector[point.groupNo]]), point.zn, zvec)
          case Bad => DataError
          case More => Mtf(state.desc, state.tables, state.groupNo, state.groupPos, false, point.zn + 1, zvec,
                           state.undo)
          case Found(sym) => OnSymbol(state.desc, state.tables, state.groupNo, state.groupPos, state.undo, sym)
    {
      hide TablesHold, MapFor, FullTables, OnSymbol, TablesOf;
    }

    /** One more bit, or the first bits, of a code. */
    method SymbolStep(v: nat)
      requires Valid() && point.Symbol? && Ok(state) && !Final(state) && v < Pow2(Need(state))
      modifies this`point, this`state, this`column, this`es, this`N, mtf, mtf.mtfa, mtf.mtfbase
      ensures Valid() && state == Next(old(state), v)
    {
      hide *;
      NextOk(state, v);
      SymbolOpen();
      SymbolLook(v);
      InPlaceIs(point.desc, point.groupNo);
      ValidOf();
      var d, groupNo, groupPos := point.desc, point.groupNo, point.groupPos;
      var zvec := if point.first then v else 2 * point.zvec + v;
      var gSel := d.selector[groupNo];
      TableIs(gSel);
      InPlaceOf(d, groupNo);
      var r := tables[gSel].Lookup(point.zn, zvec);
      match r {
        case Bad =>
          Fail();
        case More =>
          MoreBits(point.zn + 1, zvec);
        case Found(sym) =>
          TakeSymbol(d, groupNo, groupPos, sym);
      }
      ValidOf();
    }

    method MoreBits(zn: nat, zvec: nat)
      requires Coupled() && MapKept() && point.Symbol? && state.Mtf?
      modifies this`point, this`state
      ensures Coupled() && MapKept()
      ensures state == Mtf(old(state).desc, old(state).tables, old(state).groupNo, old(state).groupPos, false, zn, zvec,
                           old(state).undo)
    {
      hide TablesHold, MapFor, TablesOfAll;
      point := point.(first := false, zn := zn, zvec := zvec);
      state := state.(fresh? := false, zn := zn, zvec := zvec);
    }

    lemma {:induction false} ValidOf()
      ensures Valid() <==>
        && Ok(state) && reader.Valid() && Apart() && MapKept() && Coupled()
        && mtf.mtfa.Length == MTFA_SIZE && mtf.mtfbase.Length == 256 / MTFL_SIZE && mtf.mtfa as object != mtf.mtfbase
    {
    }

    /** Tables, list and block for the first symbol. */
    method SetUp(d: Desc, len: seq<seq<nat>>)
      requires Valid() && DescOk(d) && |len| == d.nGroups && nInUse == Used(d.inUse, 256) > 0
      requires FullLens(len, nInUse + 2) && seqToUnseq.Length == 256 && MapFor(seqToUnseq[..], d.inUse)
      modifies this`tables, this`lens, this`es, this`N, this`column, mtf, mtf.mtfa, mtf.mtfbase
      ensures InPlace(d, 0) && Within(d) && lens == len && mtf.list == Iota(256) && es == -1 && N == 1 && column == []
    {
      hide *;
      ValidOf();
      LensShort(d, len);
      ApartIs();
      MakeTables(len);
      ApartIs();
      mtf.Init();
      es, N, column := -1, 1, [];
      WithinIs(d);
      ConstantsIs();
      FirstInPlace(d);
    }

    /** The last length of the last table: the symbols begin. */
    method BeginSymbols(d: Desc, len: seq<seq<nat>>)
      requires Valid() && DescOk(d) && |len| == d.nGroups && nInUse == Used(d.inUse, 256) > 0
      requires FullLens(len, nInUse + 2) && seqToUnseq.Length == 256 && MapFor(seqToUnseq[..], d.inUse)
      modifies this`tables, this`lens, this`es, this`N, this`column, this`point, this`state, mtf, mtf.mtfa, mtf.mtfbase
      ensures Apart() && MapKept() && Coupled() && forall t :: 0 <= t < |len| ==> |len[t]| <= MAX_ALPHA_SIZE
      ensures state == FirstSymbol(d, TablesOfAll(len))
    {
      hide *;
      SetUp(d, len);
      LensShort(d, len);
      ConstantsIs();
      var gSel := d.selector[0];
      InPlaceIs(d, 0);
      TableIs(gSel);
      point := Symbol(d, 0, G_SIZE - 1, true, tables[gSel].minLen, 0);
      state := FirstSymbol(d, TablesOfAll(len));
      FirstCoupled(d);
    }

    lemma {:induction false} LensShort(d: Desc, len: seq<seq<nat>>)
      requires DescOk(d) && |len| == d.nGroups && FullLens(len, nInUse + 2)
      ensures forall t :: 0 <= t < |len| ==> 0 < |len[t]| <= MAX_ALPHA_SIZE && LengthsOk(len[t])
      ensures AllSized(len, nInUse + 2)
      ensures d.selector != [] && d.selector[0] < |len| && |d.inUse| == 256
    {
    }

    lemma {:induction false} FirstInPlace(d: Desc)
      requires Apart() && TablesHold() && mtf.Valid() && mtf.list == Iota(256) && DescOk(d) && |lens| == d.nGroups
      requires nInUse == Used(d.inUse, 256) > 0 && seqToUnseq.Length == 256 && MapFor(seqToUnseq[..], d.inUse)
      requires FullLens(lens, nInUse + 2)
      ensures InPlace(d, 0)
    {
      hide TablesOf, MapFor;
    }

    lemma {:induction false} FirstCoupled(d: Desc)
      requires InPlace(d, 0) && Within(d) && mtf.list == Iota(256) && es == -1 && N == 1 && column == []
      requires DescOk(d) && d.selector[0] < |lens| && forall t :: 0 <= t < |lens| ==> |lens[t]| <= MAX_ALPHA_SIZE
      requires point == Symbol(d, 0, G_SIZE - 1, true, TablesOf(lens[d.selector[0]]).minLen, 0)
      requires state == FirstSymbol(d, TablesOfAll(lens))
      ensures Coupled() && MapKept()
    {
      hide TablesOf, MapFor, LowRanks;
      ShortLens(nInUse + 2);
    }

    /** What is needed of a state before the symbols. */
    lemma {:induction false} EarlyOpen(v: nat)
      requires Valid() && point.Early? && !Final(state) && v < Pow2(Need(state))
      ensures state == point.state && !state.Mtf? && Ok(Next(state, v))
      ensures state.Coding2? ==>
        && DescOk(state.desc) && nInUse == Used(state.desc.inUse, 256) > 0 && MapFor(seqToUnseq[..], state.desc.inUse)
        && |state.row| < nInUse + 2 && |state.len| < state.desc.nGroups && 1 <= state.curr
      ensures seqToUnseq.Length == 256
      ensures MapOf(state) != [] ==>
        |MapOf(state)| == 256 && MapFor(seqToUnseq[..], MapOf(state)) && nInUse == Used(MapOf(state), 256) > 0
    {
      hide Next, LengthsOk, SeqToUnseq;
      NextOk(state, v);
    }

    /** The lengths are complete. */
    lemma {:induction false} LensComplete(v: nat)
      requires Valid() && point.Early? && state.Coding2? && v == 0 && nInUse == Used(state.desc.inUse, 256)
      requires |state.row| + 1 == nInUse + 2 && |state.len| + 1 == state.desc.nGroups && 1 <= state.curr
      ensures var len := state.len + [state.row + [state.curr as nat]];
        && |len| == state.desc.nGroups
        && FullLens(len, nInUse + 2) && (forall t :: 0 <= t < |len| ==> |len[t]| <= MAX_ALPHA_SIZE)
        && Next(state, v) == FirstSymbol(state.desc, TablesOfAll(len))
    {
      hide MapFor, TablesOf, TablesOfAll, FirstSymbol;
      AddRow(state.desc, state.len, state.row, state.curr);
    }

    lemma {:induction false} EarlyClose(s: State)
      requires point == Early(state) && !state.Mtf? && seqToUnseq.Length == 256
      requires state.Selector1? ==>
        |state.inUse| == 256 && MapFor(seqToUnseq[..], state.inUse) && nInUse == Used(state.inUse, 256) > 0
      requires !state.Selector1? && MapOf(state) != [] ==>
        && MapOf(state) == MapOf(s) && |MapOf(s)| == 256
        && MapFor(seqToUnseq[..], MapOf(s)) && nInUse == Used(MapOf(s), 256) > 0
      ensures Coupled() && MapKept()
    {
      hide MapFor;
    }

    /** One value read before the symbols begin. */
    method EarlyStep(v: nat)
      requires Valid() && point.Early? && Ok(state) && !Final(state) && v < Pow2(Need(state))
      modifies this`nInUse, this`tables, this`lens, this`es, this`N, this`column, this`point, this`state, seqToUnseq,
               mtf, mtf.mtfa, mtf.mtfbase
      ensures Valid() && state == Next(old(state), v)
    {
      hide *;
      ValidOf();
      EarlyOpen(v);
      NextMap(state, v);
      var s := point.state;
      if s.Coding2? && v == 0 && |s.row| + 1 == nInUse + 2 && |s.len| + 1 == s.desc.nGroups {
        LensComplete(v);
        BeginSymbols(s.desc, s.len + [s.row + [s.curr as nat]]);
      } else {
        point := Early(Next(s, v));
        state := Next(s, v);
        if point.state.Selector1? { MakeMaps(point.state.inUse); }
        EarlyClose(s);
      }
      ValidOf();
    }

    /** What follows a GET_BITS that has read v. */
    method Step(v: nat)
      requires Valid() && Ok(state) && !Final(state) && v < Pow2(Need(state))
      modifies this, seqToUnseq, mtf, mtf.mtfa, mtf.mtfbase
      ensures Valid() && state == Next(old(state), v)
    {
      hide *;
      if point.Early? { EarlyStep(v); } else { SymbolStep(v); }
    }

    /** The bits asked for next. */
    method Wanted() returns (n: nat)
      requires Valid()
      ensures Ok(state) && n == Need(state) <= 24 && (!Final(state) ==> n >= 1)
    {
      hide TablesHold, MapFor, Next, LengthsOk, FullTables;
      match point {
        case Early(s) => n := Need(s);
        case Symbol(_, _, _, first, zn, _) => n := if first then zn else 1;
      }
    }

    predicate Stopped()
      reads this`point
    {
      point.Early? && Final(point.state)
    }

    lemma {:induction false} StoppedIs()
      requires Valid()
      ensures Stopped() <==> Final(state)
      ensures Stopped() ==> point == Early(state)
      ensures Ok(state) && reader.Valid()
    {
      hide TablesHold, MapFor, Ok;
    }

    /** On to the header of the next block. */
    method NextHeader(level: nat)
      requires Valid()
      modifies this`point, this`state
      ensures Valid() && state == BlkHdr(level, 1)
    {
      point, state := Early(BlkHdr(level, 1)), BlkHdr(level, 1);
    }

    /** GET_BITS. */
    method ReadBits(n: nat, input: seq<byte>, next: nat) returns (ok: bool, v: nat, next': nat)
      requires Valid() && reader.Valid() && n <= 24 && next <= |input|
      modifies reader
      ensures Valid() && reader.Valid() && next <= next' <= |input|
      ensures ok ==> v < Pow2(n)
      ensures ok ==>
        old(reader.Unread()) + ByteBits(input[next..]) == BitsOf(v, n) + reader.Unread() + ByteBits(input[next'..])
      ensures ok ==>
        |old(reader.Unread())| + 8 * (|input| - next) == n + |reader.Unread()| + 8 * (|input| - next')
      ensures !ok ==> next' == |input| && |reader.Unread()| < n
      ensures !ok ==> old(reader.Unread()) + ByteBits(input[next..]) == reader.Unread()
    {
      hide *;
      ValidOf();
      ghost var before := reader.Unread() + ByteBits(input[next..]);
      ok, v, next' := reader.GetBits(n, input, next);
      if ok { assert |before| == |BitsOf(v, n) + reader.Unread() + ByteBits(input[next'..])|; }
      ValidOf();
    }

    /** BZ2_decompress: goes on at the saved label until the input runs out or a block or the stream is complete. */
    method Decompress(input: seq<byte>) returns (used: nat)
      requires Valid()
      modifies this, reader, seqToUnseq, mtf, mtf.mtfa, mtf.mtfbase
      ensures Valid() && used <= |input| && Ok(old(state))
      ensures Exec(old(state), old(reader.Unread()) + ByteBits(input))
        == (state, reader.Unread() + ByteBits(input[used..]))
      ensures !Final(state) ==> used == |input| && Ok(state) && |reader.Unread()| < Need(state)
    {
      hide *;
      used := 0;
      assert input[0..] == input;
      StoppedIs();
      ghost var s0, b0 := state, reader.Unread() + ByteBits(input);
      while !Stopped()
        invariant Valid() && Ok(state) && reader.Valid() && used <= |input|
        invariant Exec(s0, b0) == Exec(state, reader.Unread() + ByteBits(input[used..]))
        modifies this, reader, seqToUnseq, mtf, mtf.mtfa, mtf.mtfbase
        decreases |reader.Unread()| + 8 * (|input| - used)
      {
        StoppedIs();
        var n := Wanted();
        var ok, v;
        ok, v, used := ReadBits(n, input, used);
        if !ok {
          NoBytes(input);
          ExecShort(state, reader.Unread());
          assert reader.Unread() + [] == reader.Unread();
          return;
        }
        BitStream.Assoc(BitsOf(v, n), reader.Unread(), ByteBits(input[used..]));
        ExecStep(state, v, reader.Unread() + ByteBits(input[used..]));
        Step(v);
        StoppedIs();
      }
      StoppedIs();
      ExecFinal(state, reader.Unread() + ByteBits(input[used..]));
    }

    lemma {:induction false} FlattenIs(chunks: seq<seq<byte>>, k: nat)
      requires k <= |chunks|
      ensures Flatten(chunks, k) == if k == 0 then [] else Flatten(chunks, k - 1) + chunks[k - 1]
    {
    }

    /** Any number of calls, each with its own piece of the input. */
    method DecompressAll(chunks: seq<seq<byte>>) returns (ghost rest: seq<bit>)
      requires Valid() && state == Magic(1) && reader.Unread() == []
      modifies this, reader, seqToUnseq, mtf, mtf.mtfa, mtf.mtfbase
      ensures Valid() && Exec(Magic(1), ByteBits(Flatten(chunks, |chunks|))) == (state, rest)
    {
      hide *;
      var i := 0;
      rest := [];
      StoppedIs();
      ExecNothing(state);
      FlattenIs(chunks, 0);
      while i < |chunks|
        invariant Valid() && 0 <= i <= |chunks|
        invariant Exec(Magic(1), ByteBits(Flatten(chunks, i))) == (state, rest)
        invariant (!Final(state) ==> rest == reader.Unread()) && Ok(state) && reader.Valid()
        modifies this, reader, seqToUnseq, mtf, mtf.mtfa, mtf.mtfbase
      {
        FlattenIs(chunks, i + 1);
        ghost var all := ByteBits(Flatten(chunks, i));
        ByteBitsConcat(Flatten(chunks, i), chunks[i]);
        ExecResumes(Magic(1), all, ByteBits(chunks[i]));
        StoppedIs();
        if Stopped() {
          rest := rest + ByteBits(chunks[i]);
          ExecFinal(state, rest);
        } else {
          var used := Decompress(chunks[i]);
          StoppedIs();
          rest := reader.Unread() + ByteBits(chunks[i][used..]);
          if !Final(state) {
            NoBytes(chunks[i]);
            assert rest == reader.Unread();
          }
        }
        i := i + 1;
      }
    }
  }
}
