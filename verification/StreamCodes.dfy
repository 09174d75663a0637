/** Prefix codes listed from the shortest on, and the bits of a stream that start with one of them. */
module StreamCodes {
  import opened Powers
  import opened KraftSums

  /** The longest code of the deflate format. */
  const MAXBITS := 15

  // ----- the first bits of a stream, whose earliest bit is the lowest

  function Bit(v: nat, k: nat): (b: nat)
    ensures b <= 1
  {
    Shr(v, k) % 2
  }

  /** The first k bits as a number, the earliest bit the highest. */
  function Head(v: nat, k: nat): (h: nat)
    ensures h < Pow2(k)
  {
    if k == 0 then 0 else 2 * Head(v, k - 1) + Bit(v, k - 1)
  }

  lemma {:induction false} HeadShr(v: nat, j: nat, k: nat)
    requires j <= k
    ensures Shr(Head(v, k), k - j) == Head(v, j)
    decreases k
  {
    if j < k { HeadShr(v, j, k - 1); }
  }

  lemma {:induction false} LowTop(v: nat, k: nat)
    ensures Low(v, k + 1) == Low(v, k) + if Bit(v, k) == 1 then Pow2(k) else 0
  {
    if k > 0 { LowTop(v / 2, k - 1); }
  }

  lemma {:induction false} ShrLow(v: nat, j: nat, m: nat)
    ensures Low(Shr(v, j), m) == Shr(Low(v, j + m), j)
  {
    if j > 0 {
      ShrLow(v / 2, j - 1, m);
      assert Low(v, j + m) / 2 == Low(v / 2, j - 1 + m);
    }
  }

  /** Equal low bits are equal first bits. */
  lemma {:induction false} HeadLow(v: nat, w: nat, k: nat)
    ensures Head(v, k) == Head(w, k) <==> Low(v, k) == Low(w, k)
  {
    hide *;
    if k == 0 {
      NoBits(v);
      NoBits(w);
    } else {
      HeadLow(v, w, k - 1);
      LowTop(v, k - 1);
      LowTop(w, k - 1);
      HeadStep(v, k - 1);
      HeadStep(w, k - 1);
    }
  }

  lemma {:induction false} NoBits(v: nat)
    ensures Head(v, 0) == 0 && Low(v, 0) == 0
  {
  }

  lemma {:induction false} HeadStep(v: nat, k: nat)
    ensures Head(v, k + 1) == 2 * Head(v, k) + Bit(v, k)
  {
  }

  /** The longer head lies in the interval that the shorter one starts. */
  lemma {:induction false} HeadInterval(v: nat, j: nat, k: nat)
    requires j <= k
    ensures Shl(Head(v, j), k - j) <= Head(v, k) < Shl(Head(v, j) + 1, k - j)
  {
    HeadShr(v, j, k);
    HighLow(Head(v, k), k - j);
    ShlAdd(Head(v, j), 1, k - j);
    ShlOne(k - j);
  }

  lemma {:induction false} HeadMonotone(v: nat, w: nat, j: nat, k: nat)
    requires j <= k && Head(v, k) <= Head(w, k)
    ensures Head(v, j) <= Head(w, j)
  {
    HeadShr(v, j, k);
    HeadShr(w, j, k);
    ShrMonotone(Head(v, k), Head(w, k), k - j);
  }

  // ----- counting up in reversed bits

  /** The next code of k bits, its first bit the lowest; 0 after the last. */
  function Increment(h: nat, k: nat): nat {
    if k == 0 then 0 else if Bit(h, k - 1) == 0 then Low(h, k - 1) + Pow2(k - 1) else Increment(h, k - 1)
  }

  lemma {:induction false} LowPlus(h: nat, k: nat)
    ensures Low(Low(h, k) + Pow2(k), k) == Low(h, k) && Bit(Low(h, k) + Pow2(k), k) == 1
      && Low(h, k) + Pow2(k) < Pow2(k + 1)
  {
    if k > 0 {
      LowPlus(h / 2, k - 1);
      assert (Low(h, k) + Pow2(k)) / 2 == Low(h / 2, k - 1) + Pow2(k - 1);
    }
  }

  lemma {:induction false} SmallBit(h: nat, k: nat)
    requires h < Pow2(k)
    ensures Bit(h, k) == 0
  {
    if k > 0 { SmallBit(h / 2, k - 1); }
  }

  lemma {:induction false} Increments(h: nat, k: nat)
    ensures Head(h, k) + 1 < Pow2(k) ==> Head(Increment(h, k), k) == Head(h, k) + 1 && Increment(h, k) < Pow2(k)
    ensures Head(h, k) + 1 == Pow2(k) ==> Increment(h, k) == 0
  {
    if k > 0 {
      if Bit(h, k - 1) == 0 {
        LowPlus(h, k - 1);
        HeadLow(Increment(h, k), h, k - 1) by { LowLow(h, k - 1, k - 1); }
      } else {
        Increments(h, k - 1);
        if Head(h, k - 1) + 1 < Pow2(k - 1) { SmallBit(Increment(h, k - 1), k - 1); }
      }
    }
  }

  // ----- a list of code lengths, the shortest first

  ghost predicate Ascending(l: seq<nat>) {
    && (forall p {:trigger l[p]} :: 0 <= p < |l| ==> 1 <= l[p] <= MAXBITS)
    && (forall p, q {:trigger l[p], l[q]} :: 0 <= p < q < |l| ==> l[p] <= l[q])
  }

  /** The p-th code. */
  function Code(l: seq<nat>, p: nat): nat
    requires p < |l|
  {
    if p == 0 then 0 else Shl(Code(l, p - 1) + 1, if l[p] >= l[p - 1] then l[p] - l[p - 1] else 0)
  }

  lemma {:induction false} CodeSpace(l: seq<nat>, p: nat)
    requires Ascending(l) && p < |l|
    ensures Shl(Code(l, p), MAXBITS - l[p]) == Kraft(l, MAXBITS, p)
    ensures Shl(Code(l, p) + 1, MAXBITS - l[p]) == Kraft(l, MAXBITS, p + 1)
  {
    ShlAdd(Code(l, p), 1, MAXBITS - l[p]);
    ShlOne(MAXBITS - l[p]);
    if p == 0 {
      ShlZero(MAXBITS - l[0]);
    } else {
      CodeSpace(l, p - 1);
      ShlShl(Code(l, p - 1) + 1, l[p] - l[p - 1], MAXBITS - l[p]);
    }
  }

  lemma {:induction false} SpaceGrows(l: seq<nat>, p: nat, q: nat)
    requires p <= q <= |l|
    ensures Kraft(l, MAXBITS, p) <= Kraft(l, MAXBITS, q)
    decreases q
  {
    if p < q { SpaceGrows(l, p, q - 1); }
  }

  /** The stream v starts with code p. */
  predicate Starts(l: seq<nat>, p: nat, v: nat)
    requires p < |l|
  {
    Head(v, l[p]) == Code(l, p)
  }

  /** The streams that start with a code form an interval, in the order of their first 15 bits. */
  lemma {:induction false} StartsInterval(l: seq<nat>, p: nat, v: nat)
    requires Ascending(l) && p < |l|
    ensures Starts(l, p, v) <==> Kraft(l, MAXBITS, p) <= Head(v, MAXBITS) < Kraft(l, MAXBITS, p + 1)
  {
    hide Head, Code, Kraft;
    CodeSpace(l, p);
    var n := MAXBITS - l[p];
    HeadInterval(v, l[p], MAXBITS);
    ShlMonotone(Code(l, p) + 1, Head(v, l[p]), n);
    ShlMonotone(Head(v, l[p]) + 1, Code(l, p), n);
  }

  /** No stream starts with two codes. */
  lemma {:induction false} PrefixFree(l: seq<nat>, p: nat, q: nat, v: nat)
    requires Ascending(l) && p < |l| && q < |l| && Starts(l, p, v) && Starts(l, q, v)
    ensures p == q
  {
    hide Kraft, Starts;
    StartsInterval(l, p, v);
    StartsInterval(l, q, v);
    if p < q { SpaceGrows(l, p + 1, q); }
    if q < p { SpaceGrows(l, q + 1, p); }
  }

  /** A code fits its length unless too much is taken. */
  lemma {:induction false} CodeFits(l: seq<nat>, p: nat)
    requires Ascending(l) && p < |l| && Kraft(l, MAXBITS, |l|) <= Pow2(MAXBITS)
    ensures Code(l, p) < Pow2(l[p])
    ensures p + 1 < |l| ==> Code(l, p) + 1 < Pow2(l[p])
    ensures p + 1 == |l| && Kraft(l, MAXBITS, |l|) == Pow2(MAXBITS) ==> Code(l, p) + 1 == Pow2(l[p])
  {
    hide Code, Pow2;
    CodeSpace(l, p);
    SpaceGrows(l, p + 1, |l|);
    var n := MAXBITS - l[p];
    ShlOfPow2(l[p], n);
    ShlMonotone(Code(l, p) + 1, Pow2(l[p]), n);
    if p + 1 < |l| {
      SpaceGrows(l, p + 2, |l|);
      SpaceStep(l, p + 1);
      ShlMonotone(Pow2(l[p]), Code(l, p) + 1, n);
    } else if Kraft(l, MAXBITS, |l|) == Pow2(MAXBITS) {
      ShlMonotone(Pow2(l[p]), Code(l, p) + 1, n);
    }
  }

  lemma {:induction false} SpaceStep(l: seq<nat>, p: nat)
    requires Ascending(l) && p < |l|
    ensures Kraft(l, MAXBITS, p) < Kraft(l, MAXBITS, p + 1)
  {
  }

  /** If the codes take everything, every stream starts with one. */
  lemma {:induction false} SomeCode(l: seq<nat>, v: nat, k: nat) returns (p: nat)
    requires Ascending(l) && k <= |l| && Head(v, MAXBITS) < Kraft(l, MAXBITS, k)
    ensures p < k && Starts(l, p, v)
  {
    hide Head, Starts;
    if Head(v, MAXBITS) < Kraft(l, MAXBITS, k - 1) {
      p := SomeCode(l, v, k - 1);
    } else {
      p := k - 1;
      StartsInterval(l, p, v);
    }
  }

  /** Codes between two that agree on their first bits agree on them too. */
  lemma {:induction false} Between(l: seq<nat>, p: nat, q: nat, r: nat, u: nat, v: nat, w: nat, root: nat)
    requires Ascending(l) && p <= q <= r < |l| && Starts(l, p, u) && Starts(l, q, v) && Starts(l, r, w)
    requires root < l[p] && Low(u, root) == Low(w, root)
    ensures Low(v, root) == Low(u, root)
  {
    hide Kraft, Starts, Head, Low;
    StartsInterval(l, p, u);
    StartsInterval(l, q, v);
    StartsInterval(l, r, w);
    HeadLow(u, w, root);
    HeadLow(u, v, root);
    if p < q && q < r {
      SpaceGrows(l, p + 1, q);
      SpaceGrows(l, q + 1, r);
      HeadMonotone(u, v, root, MAXBITS);
      HeadMonotone(v, w, root, MAXBITS);
    } else if p == q {
      SameCode(l, p, u, v, root);
    } else {
      SameCode(l, r, w, v, root);
    }
  }

  lemma {:induction false} SameCode(l: seq<nat>, p: nat, u: nat, v: nat, root: nat)
    requires p < |l| && Starts(l, p, u) && Starts(l, p, v) && root <= l[p]
    ensures Low(u, root) == Low(v, root)
  {
    HeadLow(u, v, l[p]);
    LowLow(u, root, l[p]);
    LowLow(v, root, l[p]);
  }

  // ----- how far the codes behind a table index reach

  /** How many codes from the p-th on have n bits. */
  function Left(l: seq<nat>, n: nat, p: nat): nat
    requires p <= |l|
    decreases |l| - p
  {
    if p == |l| then 0 else Left(l, n, p + 1) + if l[p] == n then 1 else 0
  }

  /** The first code from p on with more than n bits. */
  function Past(l: seq<nat>, n: nat, p: nat): (q: nat)
    requires p <= |l|
    ensures p <= q <= |l| && (forall i :: p <= i < q ==> l[i] <= n) && (q < |l| ==> l[q] > n)
    decreases |l| - p
  {
    if p == |l| || l[p] > n then p else Past(l, n, p + 1)
  }

  lemma {:induction false} LeftNone(l: seq<nat>, n: nat, p: nat)
    requires p <= |l| && forall i :: p <= i < |l| ==> l[i] != n
    ensures Left(l, n, p) == 0
    decreases |l| - p
  {
    if p < |l| { LeftNone(l, n, p + 1); }
  }

  lemma {:induction false} LeftSome(l: seq<nat>, n: nat, p: nat)
    requires Ascending(l) && p < |l| && l[p] == n
    ensures Left(l, n, p) >= 1
    ensures Left(l, n, p + 1) == 0 ==> forall i :: p < i < |l| ==> l[i] > n
    ensures Left(l, n, p + 1) > 0 ==> p + 1 < |l| && l[p + 1] == n
  {
    if p + 1 < |l| && l[p + 1] != n { LeftNone(l, n, p + 1); }
  }

  /** What the codes of n bits take, together. */
  lemma {:induction false} PastSpace(l: seq<nat>, n: nat, p: nat)
    requires Ascending(l) && p <= |l| && 1 <= n <= MAXBITS && (forall i :: p <= i < |l| ==> l[i] >= n)
    ensures Kraft(l, MAXBITS, Past(l, n, p)) == Kraft(l, MAXBITS, p) + Shl(Left(l, n, p), MAXBITS - n)
    decreases |l| - p
  {
    hide Ascending;
    if p == |l| || l[p] > n {
      Beyond(l, n, p);
      LeftNone(l, n, p);
      ShlZero(MAXBITS - n);
    } else {
      PastSpace(l, n, p + 1);
      ShlAdd(Left(l, n, p + 1), 1, MAXBITS - n);
      ShlOne(MAXBITS - n);
    }
  }

  lemma {:induction false} Beyond(l: seq<nat>, n: nat, p: nat)
    requires Ascending(l) && p <= |l| && (p < |l| ==> l[p] > n)
    ensures forall i :: p <= i < |l| ==> l[i] > n
  {
  }

  lemma {:induction false} LeftFrom(l: seq<nat>, n: nat, p: nat, q: nat)
    requires p <= q <= |l| && forall i :: p <= i < q ==> l[i] != n
    ensures Left(l, n, p) == Left(l, n, q)
    decreases q - p
  {
    if p < q { LeftFrom(l, n, p + 1, q); }
  }

  /** Any code from p on whose streams have index low has at most n bits. */
  ghost predicate Reach(l: seq<nat>, p: nat, root: nat, low: nat, n: nat) {
    forall q, v: nat {:trigger Reaching(l, q, v, root, low)} :: p <= q < |l| && Reaching(l, q, v, root, low) ==>
      l[q] <= n
  }

  predicate Reaching(l: seq<nat>, q: nat, v: nat, root: nat, low: nat)
    requires q < |l|
  {
    Starts(l, q, v) && Low(v, root) == low
  }

  /** A code starts no earlier than its index does. */
  lemma {:induction false} IndexStart(l: seq<nat>, p: nat, w: nat, root: nat)
    requires Ascending(l) && p < |l| && Starts(l, p, w) && root <= l[p]
    ensures Shl(Head(w, root), MAXBITS - root) <= Kraft(l, MAXBITS, p)
  {
    CodeSpace(l, p);
    hide *;
    HeadInterval(w, root, l[p]);
    ShlMonotone(Shl(Head(w, root), l[p] - root), Head(w, l[p]), MAXBITS - l[p]);
    ShlShl(Head(w, root), l[p] - root, MAXBITS - l[p]);
    StartsIs(l, p, w);
  }

  lemma {:induction false} StartsIs(l: seq<nat>, p: nat, v: nat)
    requires p < |l| && Starts(l, p, v)
    ensures Head(v, l[p]) == Code(l, p)
  {
  }

  /** The codes from p up to those of n bits fill the whole index of code p. */
  lemma {:induction false} ReachFull(l: seq<nat>, p: nat, e: nat, root: nat, w: nat, n: nat)
    requires Ascending(l) && p < |l| && Starts(l, p, w) && root <= l[p] && p <= e <= |l|
    requires Kraft(l, MAXBITS, e) >= Kraft(l, MAXBITS, p) + Pow2(MAXBITS - root) && (e < |l| ==> l[e] > n)
      && forall i :: p <= i < e ==> l[i] <= n
    ensures Reach(l, p, root, Low(w, root), n)
  {
    hide Kraft, Starts, Head, Low, Pow2;
    IndexStart(l, p, w, root);
    forall q, v: nat | p <= q < |l| && Reaching(l, q, v, root, Low(w, root)) ensures l[q] <= n {
      if q >= e {
        SpaceGrows(l, e, q);
        StartsInterval(l, p, w);
        StartsInterval(l, q, v);
        HeadInterval(v, root, MAXBITS);
        HeadInterval(w, root, MAXBITS);
        HeadLow(v, w, root);
        ShlAdd(Head(w, root), 1, MAXBITS - root);
        ShlOne(MAXBITS - root);
        assert false;
      }
    }
  }

  lemma {:induction false} ReachLongest(l: seq<nat>, p: nat, root: nat, low: nat, n: nat)
    requires forall i :: 0 <= i < |l| ==> l[i] <= n
    ensures Reach(l, p, root, low, n)
  {
  }
}
