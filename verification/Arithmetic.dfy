/** The few facts about products and quotients the index computations need. */
module Arithmetic {

  lemma MulMonotone(a: int, b: int, w: nat)
    requires a <= b
    ensures a * w <= b * w
  {
    if w > 0 { MulMonotone(a, b, w - 1); }
  }

  /** Quotient and remainder are unique. */
  lemma DivUnique(x: int, w: nat, q: int, m: nat)
    requires m < w && x == q * w + m
    ensures x / w == q && x % w == m
  {
    var p := x / w;
    assert p * w <= x < p * w + w;
    assert (q + 1) * w == q * w + w && (q - 1) * w == q * w - w;
    if p >= q + 1 { MulMonotone(q + 1, p, w); }
    if p <= q - 1 { MulMonotone(p, q - 1, w); }
  }

  lemma DivMod(x: int, w: nat)
    requires w > 0
    ensures x == (x / w) * w + x % w && 0 <= x % w < w
  {
  }
}
