/** Step 3 of mainSort: the ranks inside a finished big bucket become quadrants. */
module QuadrantUpdate {
  import opened Bytes
  import opened Powers
  import opened Rotations
  import opened MainCompare
  import MainSimpleSort

  lemma {:induction false} ShrHalves(v: nat, n: nat)
    ensures Shr(v, n + 1) == Shr(v, n) / 2
  {
    if n > 0 { ShrHalves(v / 2, n - 1); }
  }

  /** Different rotations, in order, that start with c. */
  ghost predicate BigBucket(f: seq<nat>, b: seq<byte>, c: byte, base: nat, size: nat) {
    && |b| > N_OVERSHOOT && base + size <= |f| && MainSimpleSort.InOrder(f, b, base, base + size)
    && (forall p {:trigger f[p]} :: base <= p < base + size ==> f[p] < |b| && b[f[p]] == c)
    && (forall p, q {:trigger f[p], f[q]} :: base <= p < q < base + size ==> f[p] != f[q])
    && (forall x {:trigger b[x]} :: 0 <= x < |b| && b[x] == c ==>
        exists p {:trigger f[p]} :: base <= p < base + size && f[p] == x)
  }

  /** The entries from rank j up have their quadrants. */
  ghost predicate Marked(quad: seq<u16>, q0: seq<u16>, f: seq<nat>, b: seq<byte>, c: byte, base: nat, size: nat,
                         shifts: nat, j: int) {
    && |b| > N_OVERSHOOT && |quad| == |q0| >= |b| + N_OVERSHOOT && 0 <= j <= size && base + size <= |f|
    && (forall p {:trigger f[p]} :: base + j <= p < base + size ==> f[p] < |b| && quad[f[p]] == Shr(p - base, shifts))
    && (forall x {:trigger quad[x]} :: 0 <= x < |b| && b[x] != c ==> quad[x] == q0[x])
    && (forall x {:trigger quad[x]} :: |b| <= x < |b| + N_OVERSHOOT ==> quad[x] == quad[x - |b|])
  }

  function Mark(quad: seq<u16>, n: nat, x: nat, v: u16): seq<u16>
    requires x < n && n + N_OVERSHOOT <= |quad|
  {
    if x < N_OVERSHOOT then quad[x := v][x + n := v] else quad[x := v]
  }

  lemma {:induction false} MarkStart(quad: seq<u16>, f: seq<nat>, b: seq<byte>, c: byte, base: nat, size: nat,
                                     shifts: nat)
    requires Quadrants(quad, b) && BigBucket(f, b, c, base, size)
    ensures Marked(quad, quad, f, b, c, base, size, shifts, size)
  {
  }

  lemma {:induction false} MarkStep(quad: seq<u16>, q0: seq<u16>, f: seq<nat>, b: seq<byte>, c: byte, base: nat,
                                    size: nat, shifts: nat, j: nat, v: u16)
    requires Marked(quad, q0, f, b, c, base, size, shifts, j + 1) && BigBucket(f, b, c, base, size)
      && v == Shr(j, shifts)
    ensures base + j < |f| && f[base + j] < |b| && |b| + N_OVERSHOOT <= |quad|
    ensures Marked(Mark(quad, |b|, f[base + j], v), q0, f, b, c, base, size, shifts, j)
  {
    hide Shr, MainSimpleSort.InOrder;
    var x := f[base + j];
    var quad' := Mark(quad, |b|, x, v);
    forall p | base + j <= p < base + size ensures f[p] < |b| && quad'[f[p]] == Shr(p - base, shifts) {
      if p > base + j { assert f[p] != f[base + j]; }
    }
  }

  lemma {:induction false} MarkDone(quad: seq<u16>, q0: seq<u16>, f: seq<nat>, b: seq<byte>, c: byte, base: nat,
                                    size: nat, shifts: nat)
    requires Marked(quad, q0, f, b, c, base, size, shifts, 0) && BigBucket(f, b, c, base, size) && Quadrants(q0, b)
    ensures Quadrants(quad, b)
  {
    hide Shr, Cmp;
    forall x, y | 0 <= x < |b| && 0 <= y < |b| && b[x] == b[y] && quad[x] < quad[y] ensures Cmp(b, x, y, |b|) <= 0 {
      if b[x] == c {
        var p :| base <= p < base + size && f[p] == x;
        var q :| base <= q < base + size && f[q] == y;
        if q <= p { ShrMonotone(q - base, p - base, shifts); }
        assert MainSimpleSort.Order(f, b, p, q) <= 0;
      } else {
        assert quad[x] == q0[x] && quad[y] == q0[y];
      }
    }
  }

  lemma {:induction false} MarkedSize(quad: seq<u16>, q0: seq<u16>, f: seq<nat>, b: seq<byte>, c: byte, base: nat,
                                      size: nat, shifts: nat, j: int)
    requires Marked(quad, q0, f, b, c, base, size, shifts, j)
    ensures |quad| >= |b| + 34 > 68 && base + size <= |f|
  {
  }

  lemma {:induction false} MarkIs(quad: seq<u16>, n: nat, x: nat, v: u16)
    requires x < n && n + 34 <= |quad|
    ensures N_OVERSHOOT == 34 && Mark(quad, n, x, v) == if x < 34 then quad[x := v][x + n := v] else quad[x := v]
  {
  }

  /** How far ranks must be shifted to fit 16 bits. */
  method Shifts(size: nat) returns (shifts: nat)
    ensures Shr(size, shifts) <= 65534
  {
    hide Shr;
    shifts := 0;
    ShrNone(size);
    ghost var rest := size;
    while Shr(size, shifts) > 65534
      invariant rest == Shr(size, shifts)
      decreases rest
    {
      ShrHalves(size, shifts);
      rest := rest / 2;
      shifts := shifts + 1;
    }
  }

  lemma {:induction false} ShrNone(v: nat)
    ensures Shr(v, 0) == v
  {
  }

  method Update(ptr: array<nat>, quadrant: array<u16>, nblock: nat, bbStart: nat, bbSize: nat, ghost b: seq<byte>,
                ghost c: byte)
    requires nblock == |b| && Quadrants(quadrant[..], b) && BigBucket(ptr[..], b, c, bbStart, bbSize)
    modifies quadrant
    ensures Quadrants(quadrant[..], b)
  {
    hide *;
    ghost var f, q0 := ptr[..], quadrant[..];
    var shifts := Shifts(bbSize);
    MarkStart(q0, f, b, c, bbStart, bbSize, shifts);
    var j: int := bbSize - 1;
    while j >= 0
      invariant -1 <= j < bbSize && Marked(quadrant[..], q0, f, b, c, bbStart, bbSize, shifts, j + 1)
    {
      ghost var quad := quadrant[..];
      MarkedSize(quad, q0, f, b, c, bbStart, bbSize, shifts, j + 1);
      ShrMonotone(j, bbSize, shifts);
      var a2update := ptr[bbStart + j];
      var qVal: u16 := Shr(j, shifts) % 0x1_0000;
      MarkStep(quad, q0, f, b, c, bbStart, bbSize, shifts, j, qVal);
      MarkIs(quad, |b|, a2update, qVal);
      quadrant[a2update] := qVal;
      if a2update < 34 { quadrant[a2update + nblock] := qVal; }
      assert quadrant[..] == Mark(quad, |b|, a2update, qVal);
      j := j - 1;
    }
    MarkDone(quadrant[..], q0, f, b, c, bbStart, bbSize, shifts);
  }
}
