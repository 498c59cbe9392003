/** The wait before a restart (internal/agent/supervisor.go), in nanoseconds. */
module Backoff {
  import opened Numbers

  const CAP: int := 30_000_000_000

  function Pow2(k: nat): (r: nat)
    ensures r >= 1
  {
    if k == 0 then 1 else 2 * Pow2(k - 1)
  }

  lemma {:induction false} Grows(b: int, i: nat, k: nat)
    requires i <= k && 0 <= b
    ensures b * Pow2(i) <= b * Pow2(k)
    decreases k - i
  {
    if i < k {
      Grows(b, i, k - 1);
      assert b * Pow2(k) == 2 * (b * Pow2(k - 1));
      assert 0 <= b * Pow2(k - 1);
    }
  }

  lemma SameSign(b: int, k: nat)
    ensures b < 0 ==> b * Pow2(k) < 0
  {
  }

  /** Doubling with a cap gives min(backoff * 2^restarts, 30 s) for every restart count, except that a
      first wait longer than the cap is taken as it is. */
  method RestartWait(backoff: int, restarts: nat) returns (wait: int)
    ensures wait == if restarts == 0 then backoff else Min(backoff * Pow2(restarts), CAP)
    ensures wait == Min(backoff * Pow2(restarts), CAP) <==> backoff <= CAP || restarts > 0
  {
    wait := backoff;
    var i := 0;
    while i < restarts
      invariant 0 <= i <= restarts
      invariant wait == backoff * Pow2(i)
      invariant i > 0 ==> wait <= CAP
    {
      wait := wait * 2;
      i := i + 1;
      assert backoff * Pow2(i) == 2 * (backoff * Pow2(i - 1));
      if wait > CAP {
        SameSign(backoff, i);
        Grows(backoff, i, restarts);
        wait := CAP;
        break;
      }
    }
  }
}
