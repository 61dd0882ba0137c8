// Arith: facts about natural-number multiplication and division that the
// clock-divider and register-field models share.
module Arith {
  /** A larger divisor gives a smaller quotient. */
  lemma DivAntiMonotone(a: nat, d1: nat, d2: nat)
    requires 0 < d1 <= d2
    ensures a / d2 <= a / d1
  {
    var q := a / d2;
    MulMonotone(q, d1, d2);
    assert q * d2 <= a;
    BelowQuotient(q, d1, a);
  }

  /** If x copies of d fit in a, x is at most a / d. */
  lemma BelowQuotient(x: nat, d: nat, a: nat)
    requires 0 < d && x * d <= a
    ensures x <= a / d
  {
    var q := a / d;
    assert a == q * d + a % d && a % d < d;
    assert (q + 1) * d == q * d + d;
    MulMonotoneIf(q + 1, x, d);
  }

  lemma MulMonotone(q: nat, a: nat, b: nat)
    requires a <= b
    ensures q * a <= q * b
  {
  }

  lemma MulMonotoneIf(a: nat, b: nat, d: nat)
    ensures a <= b ==> a * d <= b * d
  {
    if a <= b {
      MulMonotone(d, a, b);
    }
  }

  /** q * d + r splits back into q and r when r < d. */
  lemma QuotientOf(q: nat, r: nat, d: nat)
    requires r < d
    ensures (q * d + r) / d == q
  {
    var n := q * d + r;
    assert n == (n / d) * d + n % d;
    if n / d < q {
      MulMonotone(d, n / d + 1, q);
    } else if n / d > q {
      MulMonotone(d, q + 1, n / d);
    }
  }

  lemma RemainderOf(q: nat, r: nat, d: nat)
    requires r < d
    ensures (q * d + r) % d == r
  {
    QuotientOf(q, r, d);
  }
}
