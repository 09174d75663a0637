/** BZ2_hbCreateDecodeTables, and the table lookup of GET_MTF_VAL. */
module DecodeTables {
  import opened Bytes
  import opened Powers
  import opened CanonicalCodes

  const LONGEST_CODE := 20

  /** Where symbol i stands when symbols are listed by code length, then by number. */
  function Place(len: seq<nat>, i: nat): nat
    requires i < |len|
  {
    Shorter(len, len[i]) + Num(len, len[i], i)
  }

  lemma {:induction false} ShorterCounts(len: seq<nat>, n: nat)
    ensures Upto(len, n, |len|) == Shorter(len, n)
  {
    if n == 0 {
      UptoZero(len, |len|);
    } else {
      ShorterCounts(len, n - 1);
      UptoStep(len, n - 1, |len|);
    }
  }

  /** How many of the first k symbols have codes of fewer than n bits. */
  function Upto(len: seq<nat>, n: nat, k: nat): (c: nat)
    requires k <= |len|
    ensures c <= k
  {
    if k == 0 then 0 else Upto(len, n, k - 1) + if len[k - 1] < n then 1 else 0
  }

  lemma {:induction false} UptoZero(len: seq<nat>, k: nat)
    requires k <= |len|
    ensures Upto(len, 0, k) == 0
  {
    if k > 0 { UptoZero(len, k - 1); }
  }

  lemma {:induction false} UptoStep(len: seq<nat>, n: nat, k: nat)
    requires k <= |len|
    ensures Upto(len, n + 1, k) == Upto(len, n, k) + Num(len, n, k)
  {
    if k > 0 { UptoStep(len, n, k - 1); }
  }

  lemma {:induction false} PlaceInRange(len: seq<nat>, i: nat)
    requires i < |len|
    ensures Place(len, i) < |len|
  {
    var n := len[i];
    ShorterCounts(len, n);
    UptoStep(len, n, |len|);
    NumGrows(len, n, i, |len|);
  }

  lemma {:induction false} ShorterGrows(len: seq<nat>, m: nat, n: nat)
    requires m < n
    ensures Shorter(len, m) + Num(len, m, |len|) <= Shorter(len, n)
    decreases n
  {
    if m < n - 1 { ShorterGrows(len, m, n - 1); }
  }

  /** No two symbols share a place. */
  lemma {:induction false} PlacesDiffer(len: seq<nat>, i: nat, j: nat)
    requires i < |len| && j < |len| && (len[i] < len[j] || (len[i] == len[j] && i < j))
    ensures Place(len, i) < Place(len, j)
  {
    if len[i] < len[j] {
      NumGrows(len, len[i], i, |len|);
      ShorterGrows(len, len[i], len[j]);
    } else {
      NumGrows(len, len[i], i, j);
    }
  }

  // ----- the tables

  datatype Tables = Tables(limit: seq<int>, base: seq<int>, perm: seq<nat>, minLen: nat)

  ghost predicate LimitAt(t: Tables, len: seq<nat>, n: nat) {
    n < |t.limit| && t.limit[n] == First(len, n) + Num(len, n, |len|) - 1
  }

  ghost predicate BaseAt(base: seq<int>, len: seq<nat>, n: nat) {
    n < |base| && base[n] == First(len, n) - Shorter(len, n)
  }

  /** The tables belong to the lengths. */
  ghost predicate TablesFor(t: Tables, len: seq<nat>, maxLen: nat) {
    && Within(len, t.minLen, maxLen) && maxLen <= LONGEST_CODE && |len| <= MAX_ALPHA_SIZE
    && |t.limit| > LONGEST_CODE && |t.base| > LONGEST_CODE && |t.perm| == MAX_ALPHA_SIZE
    && (forall n {:trigger LimitAt(t, len, n)} :: t.minLen <= n <= maxLen ==> LimitAt(t, len, n))
    && (forall n {:trigger BaseAt(t.base, len, n)} :: t.minLen <= n <= maxLen ==> BaseAt(t.base, len, n))
    && Sorted(t.perm, len, maxLen + 1, 0)
  }

  function MinLength(len: seq<nat>, k: nat): nat
    requires k <= |len|
  {
    if k == 0 then 32 else if len[k - 1] < MinLength(len, k - 1) then len[k - 1] else MinLength(len, k - 1)
  }

  function MaxLength(len: seq<nat>, k: nat): nat
    requires k <= |len|
  {
    if k == 0 then 0 else if len[k - 1] > MaxLength(len, k - 1) then len[k - 1] else MaxLength(len, k - 1)
  }

  lemma {:induction false} LengthsWithin(len: seq<nat>, k: nat, lo: nat, hi: nat)
    requires k <= |len| && lo <= 32 && forall i :: 0 <= i < k ==> lo <= len[i] <= hi
    ensures forall i :: 0 <= i < k ==> MinLength(len, k) <= len[i] <= MaxLength(len, k)
    ensures lo <= MinLength(len, k) && MaxLength(len, k) <= hi
  {
    if k > 0 { LengthsWithin(len, k - 1, lo, hi); }
  }

  /** The loop that precedes BZ2_hbAssignCodes and BZ2_hbCreateDecodeTables. */
  method LengthRange(length: seq<nat>) returns (minLen: nat, maxLen: nat)
    ensures minLen == MinLength(length, |length|) && maxLen == MaxLength(length, |length|)
  {
    minLen, maxLen := 32, 0;
    var i := 0;
    while i < |length|
      invariant 0 <= i <= |length| && minLen == MinLength(length, i) && maxLen == MaxLength(length, i)
    {
      if length[i] > maxLen { maxLen := length[i]; }
      if length[i] < minLen { minLen := length[i]; }
      i := i + 1;
    }
  }

  /** The symbol at a place, looked for from symbol i on. */
  function SymbolAt(len: seq<nat>, x: nat, i: nat): nat
    requires i <= |len|
    decreases |len| - i
  {
    if i == |len| then 0 else if Place(len, i) == x then i else SymbolAt(len, x, i + 1)
  }

  lemma {:induction false} SymbolAtPlace(len: seq<nat>, k: nat, i: nat)
    requires i <= k < |len|
    ensures SymbolAt(len, Place(len, k), i) == k
    decreases k - i
  {
    if i < k {
      if len[i] < len[k] || (len[i] == len[k] && i < k) {
        PlacesDiffer(len, i, k);
      } else {
        PlacesDiffer(len, k, i);
      }
      SymbolAtPlace(len, k, i + 1);
    }
  }

  /** The tables for given lengths, as one value. */
  function TablesOf(len: seq<nat>): (t: Tables)
    ensures |t.limit| == |t.base| == |t.perm| == MAX_ALPHA_SIZE
  {
    var lo, hi := MinLength(len, |len|), MaxLength(len, |len|);
    Tables(seq(MAX_ALPHA_SIZE, n requires 0 <= n => if lo <= n <= hi then First(len, n) + Num(len, n, |len|) - 1
               else 0),
           seq(MAX_ALPHA_SIZE, n requires 0 <= n => if lo < n <= hi then First(len, n) - Shorter(len, n)
               else Shorter(len, n)),
           seq(MAX_ALPHA_SIZE, x requires 0 <= x => SymbolAt(len, x, 0)),
           lo)
  }

  lemma {:induction false} TablesOfFor(len: seq<nat>)
    requires 0 < |len| <= MAX_ALPHA_SIZE && forall i :: 0 <= i < |len| ==> 1 <= len[i] <= LONGEST_CODE
    ensures TablesFor(TablesOf(len), len, MaxLength(len, |len|)) && 1 <= TablesOf(len).minLen <= LONGEST_CODE
  {
    LengthsWithin(len, |len|, 1, LONGEST_CODE);
    var t, hi := TablesOf(len), MaxLength(len, |len|);
    assert MinLength(len, |len|) <= len[0] <= hi;
    NoneBelow(len, t.minLen, hi, t.minLen);
    forall i | 0 <= i < |len| ensures SortedAt(t.perm, len, i) {
      PlaceInRange(len, i);
      SymbolAtPlace(len, i, 0);
    }
  }

  // ----- looking a code up

  datatype Lookup = More | Found(sym: nat) | Bad

  /** One turn of the loop in GET_MTF_VAL: zvec holds the zn bits read so far. */
  function Look(t: Tables, zn: nat, zvec: nat): Lookup
    requires |t.limit| > LONGEST_CODE && |t.base| > LONGEST_CODE && |t.perm| == MAX_ALPHA_SIZE
  {
    if zn > LONGEST_CODE then Bad
    else if zvec <= t.limit[zn] then
      var x := zvec - t.base[zn];
      if x < 0 || x >= MAX_ALPHA_SIZE then Bad else Found(t.perm[x])
    else More
  }

  /** A longer code starts behind all shorter ones. */
  lemma {:induction false} FirstBeyond(len: seq<nat>, n: nat, m: nat)
    requires n < m
    ensures First(len, m) >= Shl(First(len, n) + Num(len, n, |len|), m - n)
    decreases m
  {
    if n < m - 1 {
      FirstBeyond(len, n, m - 1);
    } else {
      assert Shl(First(len, n) + Num(len, n, |len|), 1) == 2 * Shl(First(len, n) + Num(len, n, |len|), 0);
    }
  }

  /** The lookup goes on reading exactly until the whole code of a symbol is there, and then finds the symbol. */
  lemma {:induction false} LookFinds(t: Tables, len: seq<nat>, maxLen: nat, i: nat, n: nat)
    requires TablesFor(t, len, maxLen) && i < |len| && t.minLen <= n <= len[i]
    ensures Look(t, n, Shr(CodeOf(len, i), len[i] - n)) == if n < len[i] then More else Found(i)
  {
    var m := len[i];
    assert LimitAt(t, len, n);
    if n < m {
      var x := First(len, n) + Num(len, n, |len|);
      FirstBeyond(len, n, m);
      ShrMonotone(Shl(x, m - n), CodeOf(len, i), m - n);
      ShrShl(x, m - n, m - n);
    } else {
      assert BaseAt(t.base, len, n);
      NumGrows(len, n, i, |len|);
      PlaceInRange(len, i);
      assert CodeOf(len, i) - t.base[n] == Place(len, i);
      assert SortedAt(t.perm, len, i);
    }
  }

  // ----- BZ2_hbCreateDecodeTables

  ghost predicate SortedAt(perm: seq<nat>, len: seq<nat>, i: nat)
    requires i < |len|
  {
    Place(len, i) < |perm| && perm[Place(len, i)] == i
  }

  /** Symbols with codes of fewer than n bits, and those of n bits below k, are in place. */
  ghost predicate Sorted(perm: seq<nat>, len: seq<nat>, n: nat, k: nat) {
    forall i {:trigger SortedAt(perm, len, i)} :: 0 <= i < |len| && (len[i] < n || (len[i] == n && i < k)) ==>
      SortedAt(perm, len, i)
  }

  lemma {:induction false} SortedStep(perm: seq<nat>, len: seq<nat>, n: nat, k: nat)
    requires Sorted(perm, len, n, k) && k < |len| <= |perm|
    ensures len[k] == n ==> Place(len, k) < |perm|
    ensures len[k] == n ==> Place(len, k) == Shorter(len, n) + Num(len, n, k)
    ensures len[k] == n ==> Sorted(perm[Place(len, k) := k], len, n, k + 1)
    ensures len[k] != n ==> Sorted(perm, len, n, k + 1)
    ensures Num(len, n, k + 1) == Num(len, n, k) + if len[k] == n then 1 else 0
  {
    PlaceInRange(len, k);
    if len[k] == n {
      var p := perm[Place(len, k) := k];
      forall i | 0 <= i < |len| && (len[i] < n || (len[i] == n && i < k + 1)) ensures SortedAt(p, len, i) {
        if i != k {
          assert SortedAt(perm, len, i);
          PlacesDiffer(len, i, k);
        }
      }
    }
  }

  lemma {:induction false} SortedNext(perm: seq<nat>, len: seq<nat>, n: nat)
    requires Sorted(perm, len, n, |len|)
    ensures Sorted(perm, len, n + 1, 0) && Shorter(len, n + 1) == Shorter(len, n) + Num(len, n, |len|)
  {
  }

  lemma {:induction false} SortedStart(perm: seq<nat>, len: seq<nat>, minLen: nat, maxLen: nat)
    requires Within(len, minLen, maxLen)
    ensures Sorted(perm, len, minLen, 0) && Shorter(len, minLen) == 0
  {
    NoneBelow(len, minLen, maxLen, minLen);
  }

  /** The first loops: perm lists the symbols by code length, then by number. */
  method SortSymbols(perm: array<nat>, length: seq<nat>, minLen: nat, maxLen: nat)
    requires Within(length, minLen, maxLen) && perm.Length >= |length|
    modifies perm
    ensures Sorted(perm[..], length, maxLen + 1, 0)
  {
    SortedStart(perm[..], length, minLen, maxLen);
    assert minLen <= maxLen;
    hide *;
    var pp: nat, i: nat := 0, minLen;
    while i <= maxLen
      invariant minLen <= i <= maxLen + 1
      invariant Sorted(perm[..], length, i, 0) && pp == Shorter(length, i)
    {
      var j: nat := 0;
      NumZero(length, i);
      while j < |length|
        invariant j <= |length| && Sorted(perm[..], length, i, j)
        invariant pp == Shorter(length, i) + Num(length, i, j)
      {
        SortedStep(perm[..], length, i, j);
        if length[j] == i {
          ghost var p := perm[..];
          perm[pp] := j;
          assert perm[..] == p[pp := j];
          pp := pp + 1;
        }
        j := j + 1;
      }
      SortedNext(perm[..], length, i);
      i := i + 1;
    }
  }

  /** base[n] counts the codes of fewer than n bits. */
  method CountShorter(base: array<int>, length: seq<nat>)
    requires base.Length >= MAX_CODE_LEN && forall i :: 0 <= i < |length| ==> length[i] <= LONGEST_CODE
    modifies base
    ensures forall n :: 0 <= n < MAX_CODE_LEN ==> base[n] == Shorter(length, n)
  {
    var i := 0;
    while i < MAX_CODE_LEN
      invariant 0 <= i <= MAX_CODE_LEN && forall n :: 0 <= n < i ==> base[n] == 0
    {
      base[i] := 0;
      i := i + 1;
    }
    i := 0;
    while i < |length|
      invariant 0 <= i <= |length| && base[0] == 0
      invariant forall n :: 1 <= n < MAX_CODE_LEN ==> base[n] == Num(length, n - 1, i)
    {
      base[length[i] + 1] := base[length[i] + 1] + 1;
      i := i + 1;
    }
    SumUp(base, length);
  }

  /** The counts are added up. */
  method SumUp(base: array<int>, length: seq<nat>)
    requires base.Length >= MAX_CODE_LEN && base[0] == 0
    requires forall n :: 1 <= n < MAX_CODE_LEN ==> base[n] == Num(length, n - 1, |length|)
    modifies base
    ensures forall n :: 0 <= n < MAX_CODE_LEN ==> base[n] == Shorter(length, n)
  {
    hide Num, Shorter, First;
    ShorterZero(length);
    var i: nat := 1;
    while i < MAX_CODE_LEN
      invariant 1 <= i <= MAX_CODE_LEN
      invariant forall n :: 0 <= n < i ==> base[n] == Shorter(length, n)
      invariant forall n :: i <= n < MAX_CODE_LEN ==> base[n] == Num(length, n - 1, |length|)
    {
      NextLevel(length, i - 1);
      base[i] := base[i] + base[i - 1];
      i := i + 1;
    }
  }

  lemma {:induction false} ShorterZero(len: seq<nat>)
    ensures Shorter(len, 0) == 0
  {
  }

  lemma {:induction false} NextLevel(len: seq<nat>, n: nat)
    ensures First(len, n + 1) == 2 * (First(len, n) + Num(len, n, |len|))
    ensures Shorter(len, n + 1) == Shorter(len, n) + Num(len, n, |len|)
  {
  }

  method FillLimits(limit: array<int>, base: array<int>, length: seq<nat>, minLen: nat, maxLen: nat)
    requires limit != base && limit.Length >= MAX_CODE_LEN && base.Length >= MAX_CODE_LEN
    requires Within(length, minLen, maxLen) && maxLen <= LONGEST_CODE
    requires forall n :: 0 <= n < MAX_CODE_LEN ==> base[n] == Shorter(length, n)
    modifies limit
    ensures forall n :: minLen <= n <= maxLen ==> limit[n] == First(length, n) + Num(length, n, |length|) - 1
    ensures forall n :: 0 <= n < MAX_CODE_LEN && !(minLen <= n <= maxLen) ==> limit[n] == 0
  {
    hide First, Num, Shorter, Within;
    NoneBelow(length, minLen, maxLen, minLen);
    WithinIs(length, minLen, maxLen);
    var i := 0;
    while i < MAX_CODE_LEN
      invariant 0 <= i <= MAX_CODE_LEN && forall n :: 0 <= n < i ==> limit[n] == 0
    {
      limit[i] := 0;
      i := i + 1;
    }
    var vec := 0;
    i := minLen;
    while i <= maxLen
      invariant minLen <= i <= maxLen + 1 && vec == First(length, i)
      invariant forall n :: minLen <= n < i ==> limit[n] == First(length, n) + Num(length, n, |length|) - 1
      invariant forall n :: 0 <= n < MAX_CODE_LEN && !(minLen <= n < i) ==> limit[n] == 0
    {
      NextLevel(length, i);
      vec := vec + (base[i + 1] - base[i]);
      limit[i] := vec - 1;
      vec := 2 * vec;
      i := i + 1;
    }
  }

  method FillBases(limit: array<int>, base: array<int>, length: seq<nat>, minLen: nat, maxLen: nat)
    requires limit != base && limit.Length >= MAX_CODE_LEN && base.Length >= MAX_CODE_LEN
    requires Within(length, minLen, maxLen) && maxLen <= LONGEST_CODE
    requires forall n :: 0 <= n < MAX_CODE_LEN ==> base[n] == Shorter(length, n)
    requires forall n :: minLen <= n <= maxLen ==> limit[n] == First(length, n) + Num(length, n, |length|) - 1
    modifies base
    ensures forall n :: minLen <= n <= maxLen ==> base[n] == First(length, n) - Shorter(length, n)
    ensures forall n :: 0 <= n < MAX_CODE_LEN && !(minLen < n <= maxLen) ==> base[n] == Shorter(length, n)
  {
    hide First, Num, Shorter, Within;
    NoneBelow(length, minLen, maxLen, minLen);
    WithinIs(length, minLen, maxLen);
    var i := minLen + 1;
    while i <= maxLen
      invariant minLen + 1 <= i <= maxLen + 1
      invariant forall n :: minLen <= n < i ==> base[n] == First(length, n) - Shorter(length, n)
      invariant forall n :: 0 <= n < MAX_CODE_LEN && !(minLen < n < i) ==> base[n] == Shorter(length, n)
    {
      NextLevel(length, i - 1);
      base[i] := 2 * (limit[i - 1] + 1) - base[i];
      i := i + 1;
    }
  }

  method CreateDecodeTables(limit: array<int>, base: array<int>, perm: array<nat>, length: seq<nat>, minLen: nat,
                            maxLen: nat)
    requires limit != base && perm as object != limit && perm as object != base
    requires limit.Length == base.Length == perm.Length == MAX_ALPHA_SIZE && |length| <= MAX_ALPHA_SIZE
    requires Within(length, minLen, maxLen) && maxLen <= LONGEST_CODE
    modifies limit, base, perm
    ensures TablesFor(Tables(limit[..], base[..], perm[..], minLen), length, maxLen)
    ensures forall n :: 0 <= n < MAX_CODE_LEN && !(minLen <= n <= maxLen) ==> limit[n] == 0
    ensures forall n :: 0 <= n < MAX_CODE_LEN && !(minLen < n <= maxLen) ==> base[n] == Shorter(length, n)
  {
    SortSymbols(perm, length, minLen, maxLen);
    CountShorter(base, length);
    FillLimits(limit, base, length, minLen, maxLen);
    FillBases(limit, base, length, minLen, maxLen);
  }

  // ----- the filled arrays, against the tables as a value

  /** The entries that a lookup can reach. */
  ghost predicate Agrees(t: Tables, len: seq<nat>) {
    var u := TablesOf(len);
    && |t.limit| > LONGEST_CODE && |t.base| > LONGEST_CODE && |t.perm| == MAX_ALPHA_SIZE && |len| <= MAX_ALPHA_SIZE
    && t.minLen == u.minLen
    && (forall n {:trigger t.limit[n]} :: 0 <= n <= LONGEST_CODE ==> t.limit[n] == u.limit[n])
    && (forall n {:trigger t.base[n]} :: 0 <= n <= LONGEST_CODE ==> t.base[n] == u.base[n])
    && (forall x {:trigger t.perm[x]} :: 0 <= x < |len| ==> t.perm[x] == u.perm[x])
  }

  /** The code length of the symbol at place x, looked for up to n. */
  lemma {:induction false} LevelOfPlace(len: seq<nat>, x: nat, n: nat) returns (m: nat)
    requires x < Shorter(len, n)
    ensures m < n && Shorter(len, m) <= x < Shorter(len, m) + Num(len, m, |len|)
  {
    if x >= Shorter(len, n - 1) { m := n - 1; } else { m := LevelOfPlace(len, x, n - 1); }
  }

  lemma {:induction false} NumHits(len: seq<nat>, n: nat, c: nat, k: nat) returns (i: nat)
    requires k <= |len| && c < Num(len, n, k)
    ensures i < k && len[i] == n && Num(len, n, i) == c
  {
    if len[k - 1] == n && Num(len, n, k - 1) == c { i := k - 1; } else { i := NumHits(len, n, c, k - 1); }
  }

  lemma {:induction false} UptoAll(len: seq<nat>, n: nat, k: nat)
    requires k <= |len| && forall i :: 0 <= i < k ==> len[i] < n
    ensures Upto(len, n, k) == k
  {
    if k > 0 { UptoAll(len, n, k - 1); }
  }

  /** Every place belongs to a symbol. */
  lemma {:induction false} PlaceHits(len: seq<nat>, x: nat, maxLen: nat) returns (i: nat)
    requires x < |len| && forall i :: 0 <= i < |len| ==> len[i] <= maxLen
    ensures i < |len| && Place(len, i) == x
  {
    UptoAll(len, maxLen + 1, |len|);
    ShorterCounts(len, maxLen + 1);
    var m := LevelOfPlace(len, x, maxLen + 1);
    i := NumHits(len, m, x - Shorter(len, m), |len|);
  }

  lemma {:induction false} FilledAgrees(t: Tables, len: seq<nat>, maxLen: nat)
    requires TablesFor(t, len, maxLen) && t.minLen == MinLength(len, |len|) && maxLen == MaxLength(len, |len|)
    requires forall n {:trigger t.limit[n]} :: 0 <= n <= LONGEST_CODE && !(t.minLen <= n <= maxLen) ==> t.limit[n] == 0
    requires forall n {:trigger t.base[n]} :: 0 <= n <= LONGEST_CODE && !(t.minLen < n <= maxLen) ==>
      t.base[n] == Shorter(len, n)
    ensures Agrees(t, len)
  {
    hide First, Num, Shorter, Within, MinLength, MaxLength;
    WithinIs(len, t.minLen, maxLen);
    var u := TablesOf(len);
    forall n | 0 <= n <= LONGEST_CODE ensures t.limit[n] == u.limit[n] && t.base[n] == u.base[n] {
      if t.minLen <= n <= maxLen { assert LimitAt(t, len, n) && BaseAt(t.base, len, n); }
    }
    forall x | 0 <= x < |len| ensures t.perm[x] == u.perm[x] {
      var i := PlaceHits(len, x, maxLen);
      assert SortedAt(t.perm, len, i);
      SymbolAtPlace(len, i, 0);
    }
  }

  /** A lookup stays within the places of the symbols, whatever bits are read and however the lengths go together. */
  lemma {:induction false} LookStays(len: seq<nat>, zn: nat, zvec: nat)
    requires 0 < |len| <= MAX_ALPHA_SIZE && (forall i :: 0 <= i < |len| ==> 1 <= len[i] <= LONGEST_CODE)
      && zn <= LONGEST_CODE
    ensures var t := TablesOf(len); zvec <= t.limit[zn] ==> zvec - t.base[zn] < |len|
  {
    var t, lo, hi := TablesOf(len), MinLength(len, |len|), MaxLength(len, |len|);
    LengthsWithin(len, |len|, 1, LONGEST_CODE);
    NoneBelow(len, lo, hi, lo);
    ShorterCounts(len, zn);
    ShorterCounts(len, zn + 1);
  }

  /** The arrays as filled answer every lookup as the tables do, and with a symbol of the alphabet. */
  lemma {:induction false} LookAgrees(t: Tables, len: seq<nat>, zn: nat, zvec: nat)
    requires Agrees(t, len) && 0 < |len| <= MAX_ALPHA_SIZE && forall i :: 0 <= i < |len| ==> 1 <= len[i] <= LONGEST_CODE
    ensures Look(t, zn, zvec) == Look(TablesOf(len), zn, zvec)
    ensures Look(t, zn, zvec).Found? ==> Look(t, zn, zvec).sym < |len|
  {
    var u := TablesOf(len);
    if zn <= LONGEST_CODE {
      LookStays(len, zn, zvec);
      hide TablesOf;
      if zvec <= t.limit[zn] && 0 <= zvec - t.base[zn] {
        PermInAlphabet(len, zvec - t.base[zn]);
      }
    }
  }

  lemma {:induction false} PermInAlphabet(len: seq<nat>, x: nat)
    requires x < |len| <= MAX_ALPHA_SIZE && forall i :: 0 <= i < |len| ==> 1 <= len[i] <= LONGEST_CODE
    ensures TablesOf(len).perm[x] < |len|
  {
    var i := PlaceHits(len, x, LONGEST_CODE);
    SymbolAtPlace(len, i, 0);
  }

  /** One row of limit, base and perm, with its entry of minLens. */
  class CodingTable {
    const limit: array<int>
    const base: array<int>
    const perm: array<nat>
    const minLen: nat
    ghost const length: seq<nat>

    ghost predicate Valid()
      reads limit, base, perm
    {
      && 0 < |length| <= MAX_ALPHA_SIZE && (forall i :: 0 <= i < |length| ==> 1 <= length[i] <= LONGEST_CODE)
      && limit != base && perm as object != limit && perm as object != base
      && Agrees(Tables(limit[..], base[..], perm[..], minLen), length)
    }

    constructor (length: seq<nat>)
      requires 0 < |length| <= MAX_ALPHA_SIZE && forall i :: 0 <= i < |length| ==> 1 <= length[i] <= LONGEST_CODE
      ensures Valid() && this.length == length && fresh(limit) && fresh(base) && fresh(perm)
    {
      var minLen, maxLen := LengthRange(length);
      var limit, base, perm := new int[MAX_ALPHA_SIZE], new int[MAX_ALPHA_SIZE], new nat[MAX_ALPHA_SIZE];
      LengthsWithin(length, |length|, 1, LONGEST_CODE);
      CreateDecodeTables(limit, base, perm, length, minLen, maxLen);
      FilledAgrees(Tables(limit[..], base[..], perm[..], minLen), length, maxLen);
      this.length, this.limit, this.base, this.perm, this.minLen := length, limit, base, perm, minLen;
    }

    /** The lookup of GET_MTF_VAL in the arrays. */
    method Lookup(zn: nat, zvec: nat) returns (r: Lookup)
      requires Valid()
      ensures r == Look(TablesOf(length), zn, zvec) && (r.Found? ==> r.sym < |length|)
    {
      hide Agrees, TablesOf;
      AgreesIs();
      LookAgrees(Tables(limit[..], base[..], perm[..], minLen), length, zn, zvec);
      if zn > LONGEST_CODE { return Bad; }
      if zvec <= limit[zn] {
        if zvec - base[zn] < 0 || zvec - base[zn] >= MAX_ALPHA_SIZE { return Bad; }
        return Found(perm[zvec - base[zn]]);
      }
      return More;
    }

    lemma {:induction false} AgreesIs()
      requires Valid()
      ensures limit.Length > LONGEST_CODE && base.Length > LONGEST_CODE && perm.Length == MAX_ALPHA_SIZE
      ensures minLen == TablesOf(length).minLen && 1 <= minLen <= LONGEST_CODE
    {
      TablesOfFor(length);
    }
  }
}
