/** The Kraft sum of code lengths: the share of all streams that their codes take up. */
module KraftSums {
  import opened Powers

  /** The share that the first k codes take, in units of 2^-limit; codes longer than that are left out. */
  function Kraft(len: seq<nat>, limit: nat, k: nat): nat
    requires k <= |len|
  {
    if k == 0 then 0 else Kraft(len, limit, k - 1) + if len[k - 1] <= limit then Pow2(limit - len[k - 1]) else 0
  }
}
