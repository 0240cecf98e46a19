/** Facts about natural-number multiplication and floor division that the
    index arithmetic of the views and the filter relies on. */
module Arith {

  lemma MulMonotone(a: nat, b: nat, c: nat)
    requires a <= b
    ensures a * c <= b * c
  {
  }

  /** One factor fewer is one `n` less. */
  lemma MulPred(k: nat, n: nat)
    requires k > 0
    ensures (k - 1) * n + n == k * n
  {
  }

  /** A positive factor cancels from a strict inequality. */
  lemma MulCancelLess(a: nat, b: nat, c: nat)
    requires a > 0 && a * b < a * c
    ensures b < c
  {
    if b >= c {
      MulMonotone(c, b, a);
    }
  }

  /** Floor division brackets its dividend. */
  lemma FloorDivBounds(n: nat, d: nat)
    requires d > 0
    ensures (n / d) * d <= n < (n / d + 1) * d
  {
  }

  /** Floor division is the only quotient that brackets the dividend. */
  lemma FloorDivUnique(n: nat, d: nat, q: nat)
    requires d > 0 && q * d <= n < (q + 1) * d
    ensures n / d == q
  {
    FloorDivBounds(n, d);
    var r := n / d;
    if r < q {
      MulMonotone(r + 1, q, d);
    } else if r > q {
      MulMonotone(q + 1, r, d);
    }
  }

  lemma DivLowerBound(a: nat, b: nat, c: nat)
    requires a > 0 && a * b <= c
    ensures b <= c / a
  {
    FloorDivBounds(c, a);
    if b > c / a {
      MulMonotone(c / a + 1, b, a);
    }
  }

  lemma DivExact(a: nat, b: nat)
    requires b > 0
    ensures (b * a) / b == a
  {
    FloorDivUnique(b * a, b, a);
  }

  lemma DivMonotone(a: nat, b: nat, d: nat)
    requires d > 0 && a <= b
    ensures a / d <= b / d
  {
    FloorDivBounds(a, d);
    FloorDivBounds(b, d);
    if a / d > b / d {
      MulMonotone(b / d + 1, a / d, d);
    }
  }

  /** A quotient is positive exactly when the divisor fits in the dividend. */
  lemma QuotientPositive(n: nat, d: nat)
    requires d > 0
    ensures n / d > 0 <==> d <= n
  {
    if d <= n {
      DivLowerBound(d, 1, n);
    } else {
      FloorDivUnique(n, d, 0);
    }
  }
}
