/** From a collected block to its symbols and tables: BZ2_blockSort, generateMTFValues, and the choice of tables. */
module BlockCompressor {
  import opened Bytes
  import opened Rotations
  import opened MtfEncoder
  import opened DecodeMachine
  import opened BlockFormat
  import opened SendMtf
  import TableChoice
  import FallbackSort
  import MainSort

  /** BZ2_blockSort: a sorted order of the rotations, and where the block itself stands in it. */
  method BlockSort(block: array<byte>, nblock: nat, workFactor: int) returns (ptr: array<nat>, origPtr: nat)
    requires 0 < nblock <= 900_000 && nblock + N_OVERSHOOT <= block.Length
    modifies block
    ensures block[..nblock] == old(block[..nblock]) && fresh(ptr) && ptr.Length == nblock
    ensures SortedRotations(block[..nblock], ptr[..]) && origPtr < nblock && ptr[origPtr] == 0
    ensures Uniform(block[..nblock]) ==> origPtr == if nblock < 10000 then nblock - 1 else 0
  {
    hide SortedRotations;
    ptr := new nat[nblock];
    ghost var b := block[..nblock];
    if nblock < 10000 {
      Fallback(ptr, block, nblock);
    } else {
      OvershootIs();
      var quadrant := new u16[nblock + 34];
      var ftab := new nat[65537];
      var wfact := if workFactor < 1 then 1 else if workFactor > 100 then 100 else workFactor;
      var budget := nblock * ((wfact - 1) / 3);
      budget := MainSort.Sort(ptr, block, quadrant, ftab, nblock, budget);
      if budget < 0 { Fallback(ptr, block, nblock); }
    }
    SortedPermutation(block[..nblock], ptr[..]);
    origPtr := FindOrigin(ptr);
  }

  method Fallback(ptr: array<nat>, block: array<byte>, nblock: nat)
    requires 0 < nblock == ptr.Length <= block.Length && nblock <= 900_000 && ptr as object != block
    modifies ptr, block
    ensures block[..nblock] == old(block[..nblock]) && SortedRotations(block[..nblock], ptr[..])
    ensures Uniform(block[..nblock]) ==> ptr[..] == CountingDown(nblock)
  {
    hide SortedRotations;
    var eclass := new nat[nblock];
    var bhtab := new bv32[nblock / 32 + 3];
    ghost var b := block[..nblock];
    FallbackSort.Sort(ptr, eclass, bhtab, block, nblock);
    assert block[..nblock] == b;
  }

  lemma {:induction false} OvershootIs()
    ensures N_OVERSHOOT == 34
  {
  }

  lemma {:induction false} SortedPermutation(b: seq<byte>, p: seq<nat>)
    requires |b| > 0 && SortedRotations(b, p)
    ensures IsPermutation(p)
  {
  }

  method FindOrigin(ptr: array<nat>) returns (origPtr: nat)
    requires IsPermutation(ptr[..]) && ptr.Length > 0
    ensures origPtr < ptr.Length && ptr[origPtr] == 0
  {
    PermutationHits(ptr[..], 0);
    var i := 0;
    while ptr[i] != 0
      invariant 0 <= i < ptr.Length && exists x :: i <= x < ptr.Length && ptr[x] == 0
      decreases ptr.Length - i
    {
      i := i + 1;
    }
    origPtr := i;
  }

  /** The memory of ptr, seen as the 16-bit words that mtfv shares it with. */
  method AsWords(ptr: array<nat>) returns (mem: array<u16>)
    requires forall i :: 0 <= i < ptr.Length ==> ptr[i] < ptr.Length
    requires ptr.Length < 0x1_0000_0000
    ensures fresh(mem) && Holds(mem[..], ptr[..]) && mem.Length == 2 * ptr.Length
  {
    mem := new u16[2 * ptr.Length];
    var i := 0;
    while i < ptr.Length
      invariant 0 <= i <= ptr.Length
      invariant forall k {:trigger ptr[k]} :: 0 <= k < i ==>
        mem[2 * k] as int + 0x1_0000 * mem[2 * k + 1] as int == ptr[k]
    {
      mem[2 * i] := ptr[i] % 0x1_0000;
      mem[2 * i + 1] := ptr[i] / 0x1_0000;
      i := i + 1;
    }
    forall k | 0 <= k < ptr.Length ensures PtrAt(mem[..], k) == ptr[..][k] { assert ptr[k] == ptr[k]; }
  }

  /** Sorts the block, and chooses symbols and tables for it. */
  method CodeBlock(block: array<byte>, nblock: nat, inUse: array<bool>, workFactor: int, ghost crc: nat,
                   ghost level: nat)
    returns (origPtr: nat, mtfv: array<u16>, nMTF: nat, selector: seq<nat>, len: seq<seq<nat>>, ghost order: seq<nat>,
             ghost syms: seq<nat>)
    requires 0 < nblock && nblock + N_OVERSHOOT <= block.Length && inUse.Length == 256 && block as object != inUse
    requires InUse(block[..nblock], inUse[..]) && nblock <= BLOCK_UNIT * level && level <= 9
    modifies block
    ensures block[..nblock] == old(block[..nblock]) && fresh(mtfv) && SortedRotations(block[..nblock], order)
    ensures |order| == nblock && origPtr < nblock && order[origPtr] == 0 && forall i :: 0 <= i < |order| ==>
      order[i] < nblock
    ensures CarriesSymbols(mtfv[..], syms) && nMTF == |syms|
    ensures Describes(Desc(Head(level, crc, origPtr), inUse[..], |len|, selector), selector, len, syms,
                      LastColumn(block[..nblock], order))
  {
    var ptr;
    ptr, origPtr := BlockSort(block, nblock, workFactor);
    order := ptr[..];
    assert forall i :: 0 <= i < |order| ==> order[i] < |order|;
    assert forall i :: 0 <= i < ptr.Length ==> ptr[i] == order[i];
    mtfv := AsWords(ptr);
    nMTF, selector, len := CodeSorted(block, nblock, inUse, mtfv, order);
    ghost var col := LastColumn(block[..nblock], order);
    syms := Symbols(col, inUse[..]);
  }

  method CodeSorted(block: array<byte>, nblock: nat, inUse: array<bool>, mem: array<u16>, ghost order: seq<nat>)
    returns (nMTF: nat, selector: seq<nat>, len: seq<seq<nat>>)
    requires nblock == |order| > 0 && nblock <= block.Length && nblock <= 900000 && inUse.Length == 256
      && block as object != mem
    requires InUse(block[..nblock], inUse[..]) && Holds(mem[..], order)
    modifies mem
    ensures InUse(LastColumn(block[..nblock], order), inUse[..])
    ensures var syms := Symbols(LastColumn(block[..nblock], order), inUse[..]);
      nMTF == |syms| && CarriesSymbols(mem[..], syms) && PlanFits(selector, len, Used(inUse[..], 256) + 2, nMTF)
  {
    var unseqToSeq := new byte[256];
    var mtfFreq := new nat[258];
    var nInUse;
    nInUse, nMTF := GenerateMtfValues(mem, block, nblock, inUse, unseqToSeq, mtfFreq, order);
    ghost var col := LastColumn(block[..nblock], order);
    ghost var syms := Symbols(col, inUse[..]);
    SymbolsBelow(col, inUse[..]);
    hide Symbols, InUse, Holds, PlanFits, Used, Freq;
    var mtfv := mem[..nMTF];
    assert forall x :: 0 <= x < |mtfv| ==> mtfv[x] == syms[x];
    ghost var first, starts;
    selector, len, first, starts := TableChoice.ChooseTables(mtfv, mtfFreq[..], nInUse + 2);
  }
}
