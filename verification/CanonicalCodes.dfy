/** BZ2_hbAssignCodes: canonical prefix codes from code lengths, and when they fit their lengths. */
module CanonicalCodes {
  import opened Powers
  import opened KraftSums

  const MAX_CODE_LEN := 23

  /** How many of the first k symbols have codes of n bits. */
  function Num(len: seq<nat>, n: nat, k: nat): (c: nat)
    requires k <= |len|
    ensures c <= k
  {
    if k == 0 then 0 else Num(len, n, k - 1) + if len[k - 1] == n then 1 else 0
  }

  /** The first code of n bits. */
  function First(len: seq<nat>, n: nat): nat {
    if n == 0 then 0 else 2 * (First(len, n - 1) + Num(len, n - 1, |len|))
  }

  /** The canonical code of symbol i. */
  function CodeOf(len: seq<nat>, i: nat): nat
    requires i < |len|
  {
    First(len, len[i]) + Num(len, len[i], i)
  }

  /** How many symbols have codes of fewer than n bits. */
  function Shorter(len: seq<nat>, n: nat): nat {
    if n == 0 then 0 else Shorter(len, n - 1) + Num(len, n - 1, |len|)
  }

  ghost predicate Within(len: seq<nat>, minLen: nat, maxLen: nat) {
    minLen <= maxLen && forall i {:trigger len[i]} :: 0 <= i < |len| ==> minLen <= len[i] <= maxLen
  }

  lemma {:induction false} NumNone(len: seq<nat>, n: nat, k: nat)
    requires k <= |len| && forall i :: 0 <= i < k ==> len[i] != n
    ensures Num(len, n, k) == 0
  {
    if k > 0 { NumNone(len, n, k - 1); }
  }

  lemma {:induction false} NumGrows(len: seq<nat>, n: nat, j: nat, k: nat)
    requires j <= k <= |len|
    ensures Num(len, n, j) <= Num(len, n, k)
    ensures j < k && len[j] == n ==> Num(len, n, j) < Num(len, n, k)
    decreases k
  {
    if j < k { NumGrows(len, n, j, k - 1); }
  }

  lemma {:induction false} NoneBelow(len: seq<nat>, minLen: nat, maxLen: nat, n: nat)
    requires Within(len, minLen, maxLen) && n <= minLen
    ensures First(len, n) == 0 && Shorter(len, n) == 0
  {
    if n > 0 {
      NoneBelow(len, minLen, maxLen, n - 1);
      NumNone(len, n - 1, |len|);
    }
  }

  // ----- BZ2_hbAssignCodes

  /** Codes of fewer than n bits, and those of n bits among the first i symbols, have been assigned. */
  ghost predicate Assigned(code: seq<nat>, len: seq<nat>, n: nat, i: nat) {
    && |code| >= |len|
    && forall k {:trigger code[k]} :: 0 <= k < |len| && (len[k] < n || (len[k] == n && k < i)) ==>
       code[k] == CodeOf(len, k)
  }

  lemma {:induction false} AssignedStep(code: seq<nat>, len: seq<nat>, n: nat, i: nat)
    requires Assigned(code, len, n, i) && i < |len|
    ensures len[i] == n ==> Assigned(code[i := First(len, n) + Num(len, n, i)], len, n, i + 1)
    ensures len[i] != n ==> Assigned(code, len, n, i + 1)
    ensures Num(len, n, i + 1) == Num(len, n, i) + if len[i] == n then 1 else 0
  {
  }

  lemma {:induction false} AssignedNext(code: seq<nat>, len: seq<nat>, n: nat)
    requires Assigned(code, len, n, |len|)
    ensures Assigned(code, len, n + 1, 0) && First(len, n + 1) == 2 * (First(len, n) + Num(len, n, |len|))
  {
  }

  lemma {:induction false} AssignedStart(code: seq<nat>, len: seq<nat>, minLen: nat, maxLen: nat)
    requires Within(len, minLen, maxLen) && |code| >= |len|
    ensures Assigned(code, len, minLen, 0) && First(len, minLen) == 0 && Num(len, minLen, 0) == 0
  {
    NoneBelow(len, minLen, maxLen, minLen);
  }

  lemma {:induction false} AssignedAll(code: seq<nat>, len: seq<nat>, minLen: nat, maxLen: nat)
    requires Within(len, minLen, maxLen) && Assigned(code, len, maxLen + 1, 0)
    ensures |code| >= |len| && forall i :: 0 <= i < |len| ==> code[i] == CodeOf(len, i)
  {
  }

  method AssignCodes(code: array<nat>, length: seq<nat>, minLen: nat, maxLen: nat)
    requires Within(length, minLen, maxLen) && code.Length >= |length|
    modifies code
    ensures forall i :: 0 <= i < |length| ==> code[i] == CodeOf(length, i)
  {
    hide *;
    var vec: nat, n: nat := 0, minLen;
    AssignedStart(code[..], length, minLen, maxLen);
    WithinIs(length, minLen, maxLen);
    while n <= maxLen
      invariant minLen <= n <= maxLen + 1
      invariant Assigned(code[..], length, n, 0) && vec == First(length, n)
    {
      var i: nat := 0;
      NumZero(length, n);
      while i < |length|
        invariant i <= |length| && Assigned(code[..], length, n, i)
        invariant vec == First(length, n) + Num(length, n, i)
      {
        AssignedStep(code[..], length, n, i);
        if length[i] == n {
          ghost var c := code[..];
          code[i] := vec;
          assert code[..] == c[i := vec];
          vec := vec + 1;
        }
        i := i + 1;
      }
      AssignedNext(code[..], length, n);
      vec := 2 * vec;
      n := n + 1;
    }
    AssignedAll(code[..], length, minLen, maxLen);
    assert forall i :: 0 <= i < |length| ==> code[..][i] == code[i];
  }

  lemma {:induction false} NumZero(len: seq<nat>, n: nat)
    ensures Num(len, n, 0) == 0
  {
  }

  lemma {:induction false} WithinIs(len: seq<nat>, minLen: nat, maxLen: nat)
    requires Within(len, minLen, maxLen)
    ensures minLen <= maxLen && forall i :: 0 <= i < |len| ==> minLen <= len[i] <= maxLen
  {
  }

  // ----- Kraft's inequality says exactly when the codes fit their lengths

  lemma {:induction false} KraftStep(len: seq<nat>, n: nat, k: nat)
    requires k <= |len|
    ensures Kraft(len, n + 1, k) == 2 * Kraft(len, n, k) + Num(len, n + 1, k)
  {
    if k > 0 { KraftStep(len, n, k - 1); }
  }

  lemma {:induction false} KraftZero(len: seq<nat>, k: nat)
    requires k <= |len|
    ensures Kraft(len, 0, k) == Num(len, 0, k)
  {
    if k > 0 { KraftZero(len, k - 1); }
  }

  /** The codes of n bits end where their share ends. */
  lemma {:induction false} KraftIsEnd(len: seq<nat>, n: nat)
    ensures Kraft(len, n, |len|) == First(len, n) + Num(len, n, |len|)
  {
    if n == 0 {
      KraftZero(len, |len|);
    } else {
      KraftIsEnd(len, n - 1);
      KraftStep(len, n - 1, |len|);
    }
  }

  lemma {:induction false} KraftGrows(len: seq<nat>, n: nat, m: nat)
    requires n <= m
    ensures Kraft(len, m, |len|) >= Shl(Kraft(len, n, |len|), m - n)
    ensures (forall i :: 0 <= i < |len| ==> len[i] <= n) ==> Kraft(len, m, |len|) == Shl(Kraft(len, n, |len|), m - n)
    decreases m
  {
    if n < m {
      KraftGrows(len, n, m - 1);
      KraftStep(len, m - 1, |len|);
      if forall i :: 0 <= i < |len| ==> len[i] <= n { NumNone(len, m, |len|); }
    }
  }

  lemma {:induction false} ShlPow2(v: nat, n: nat, k: nat)
    ensures Shl(v, k) <= Pow2(n + k) <==> v <= Pow2(n)
  {
    if k > 0 { ShlPow2(v, n, k - 1); }
  }

  lemma {:induction false} CodesEnd(len: seq<nat>, i: nat)
    requires i < |len|
    ensures CodeOf(len, i) < Kraft(len, len[i], |len|)
  {
    KraftIsEnd(len, len[i]);
    NumGrows(len, len[i], i, |len|);
  }

  /** Every code fits its length if the lengths satisfy Kraft's inequality. */
  lemma {:induction false} CodeFits(len: seq<nat>, limit: nat, i: nat)
    requires i < |len| && (forall k :: 0 <= k < |len| ==> len[k] <= limit)
    requires Kraft(len, limit, |len|) <= Pow2(limit)
    ensures CodeOf(len, i) < Pow2(len[i])
  {
    var n := len[i];
    CodesEnd(len, i);
    KraftGrows(len, n, limit);
    ShlPow2(Kraft(len, n, |len|), n, limit - n);
  }

  lemma {:induction false} LastOfLongest(len: seq<nat>, k: nat) returns (i: nat)
    requires 0 < k <= |len|
    ensures i < k && (forall x :: 0 <= x < k ==> len[x] <= len[i])
    ensures Num(len, len[i], k) == Num(len, len[i], i) + 1
  {
    if k == 1 {
      i := 0;
      assert Num(len, len[0], 0) == 0;
    } else {
      i := LastOfLongest(len, k - 1);
      if len[k - 1] >= len[i] {
        i := k - 1;
      }
    }
  }

  lemma {:induction false} LastCode(len: seq<nat>, i: nat)
    requires i < |len| && Num(len, len[i], |len|) == Num(len, len[i], i) + 1
    ensures CodeOf(len, i) + 1 == Kraft(len, len[i], |len|)
  {
    KraftIsEnd(len, len[i]);
  }

  /** Kraft's inequality is also necessary: if it fails, the last of the longest codes does not fit. */
  lemma {:induction false} KraftIffCodesFit(len: seq<nat>, limit: nat)
    requires |len| > 0 && (forall k :: 0 <= k < |len| ==> len[k] <= limit)
    ensures Kraft(len, limit, |len|) <= Pow2(limit) <==> forall i :: 0 <= i < |len| ==> CodeOf(len, i) < Pow2(len[i])
  {
    hide Kraft, CodeOf, Shl, Pow2, Num, First;
    if Kraft(len, limit, |len|) <= Pow2(limit) {
      forall i | 0 <= i < |len| ensures CodeOf(len, i) < Pow2(len[i]) {
        CodeFits(len, limit, i);
      }
    }
    if forall i :: 0 <= i < |len| ==> CodeOf(len, i) < Pow2(len[i]) {
      var i := LastOfLongest(len, |len|);
      var n := len[i];
      LastCode(len, i);
      KraftGrows(len, n, limit);
      ShlPow2(Kraft(len, n, |len|), n, limit - n);
    }
  }
}
