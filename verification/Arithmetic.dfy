/** Facts about division by a number that is not a literal, and how conditions are counted. */
module Arithmetic {
  function One(b: bool): nat {
    if b then 1 else 0
  }

  lemma {:induction false} MulMono(a: int, b: int, d: nat)
    requires a <= b
    ensures a * d <= b * d
    decreases b - a
  {
    if a < b {
      MulMono(a, b - 1, d);
      assert b * d == (b - 1) * d + d;
    }
  }

  lemma DivMod(x: int, d: int)
    requires d > 0
    ensures x == x / d * d + x % d && 0 <= x % d < d
  {
  }

  /** Quotient and remainder are the only ones with their property. */
  lemma DivUnique(x: int, d: nat, q: int, r: int)
    requires 0 <= r < d && x == q * d + r
    ensures x / d == q && x % d == r
  {
    DivMod(x, d);
    var q' := x / d;
    assert (q + 1) * d == q * d + d;
    assert (q' + 1) * d == q' * d + d;
    if q' > q {
      MulMono(q + 1, q', d);
    } else if q' < q {
      MulMono(q' + 1, q, d);
    }
  }

  lemma DivShift(x: int, k: int, d: nat)
    requires d > 0
    ensures (x + k * d) / d == x / d + k
  {
    DivMod(x, d);
    assert (x / d + k) * d == x / d * d + k * d;
    DivUnique(x + k * d, d, x / d + k, x % d);
  }

  lemma DivBelow(x: int, k: int, d: nat)
    requires d > 0
    ensures x / d < k <==> x < k * d
  {
    DivMod(x, d);
    if x / d < k {
      MulMono(x / d + 1, k, d);
      assert (x / d + 1) * d == x / d * d + d;
    } else {
      MulMono(k, x / d, d);
    }
  }

  lemma DivAtMost(x: nat, d: nat)
    requires d > 0
    ensures 0 <= x / d <= x
  {
    MulMono(1, d, x + 1);
    assert d * (x + 1) == (x + 1) * d;
    DivBelow(x, x + 1, d);
  }
}
