/** Index sequences shared by the scheduler and the lookup-table fill. */
module Sequences {

  /** The indices `0, 1, ..., n - 1` in increasing order. */
  function Iota(n: nat): (r: seq<nat>)
    ensures |r| == n
    ensures forall i :: 0 <= i < n ==> r[i] == i
  {
    seq(n, i requires 0 <= i => i)
  }

  lemma IotaSnoc(n: nat)
    ensures Iota(n + 1) == Iota(n) + [n]
  {
  }

  /** Every index below `n` occurs exactly once in `Iota(n)`, nothing else
      occurs. */
  lemma {:induction false} IotaCounts(n: nat, k: int)
    ensures multiset(Iota(n))[k] == if 0 <= k < n then 1 else 0
  {
    if n > 0 {
      IotaSnoc(n - 1);
      IotaCounts(n - 1, k);
    }
  }
}
