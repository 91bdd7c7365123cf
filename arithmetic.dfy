/** Small facts about products of naturals that the solver does not find
    unaided: a row-major layout of `n` rows of `w` slots. */
module Arithmetic {

  /** One more row adds `w` slots. */
  lemma MulStep(n: nat, w: nat)
    ensures n * w + w == (n + 1) * w
  {
  }

  /** Slot `k` of row `i` (or the end of that row) lies inside `n` rows. */
  lemma RowInside(i: nat, k: nat, n: nat, w: nat)
    requires i < n && k <= w
    ensures i * w + k <= n * w
  {
    var d := n - (i + 1);
    assert d * w >= 0;
    assert n * w == (i + 1) * w + d * w;
    MulStep(i, w);
  }
}
