/** Widths of counters and indices. */
module Bits {

  /** $clog2: the bits an index into n items takes. */
  function Clog2(n: nat): nat {
    if n <= 1 then 0 else 1 + Clog2((n + 1) / 2)
  }

  function Pow2(k: nat): (p: nat)
    ensures p >= 1
  {
    if k == 0 then 1 else 2 * Pow2(k - 1)
  }

  lemma {:induction false} Pow2Clog2(n: nat)
    ensures n <= Pow2(Clog2(n))
    decreases n
  {
    if n > 1 {
      Pow2Clog2((n + 1) / 2);
    }
  }
}
