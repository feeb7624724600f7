/** The few facts about products and quotients the other modules need. */
module Arithmetic {

  lemma MulStep(d: nat, a: nat, b: nat)
    requires a < b
    ensures d * a + d <= d * b
  {
    var k := b - a - 1;
    assert d * b == d * (a + 1 + k) == d * a + d + d * k;
  }

  lemma MulMono(c: nat, a: nat, b: nat)
    requires a <= b
    ensures c * a <= c * b
  {
    assert c * b == c * a + c * (b - a);
  }

  lemma Distribute(d: int, a: int, b: int)
    ensures d * (a + b) == d * a + d * b
  {
  }

  /** Quotient and remainder, with the identity that ties them. */
  lemma DivMod(n: nat, d: nat) returns (q: nat, r: nat)
    requires d > 0
    ensures q == n / d && r == n % d && n == d * q + r && r < d
  {
    q, r := n / d, n % d;
  }

  /** Quotient and remainder are determined by the division identity. */
  lemma DivUnique(n: nat, d: nat, q: nat, r: nat)
    requires d > 0 && r < d && n == d * q + r
    ensures n / d == q && n % d == r
  {
    var q', r' := DivMod(n, d);
    if q < q' {
      MulStep(d, q, q');
    } else if q' < q {
      MulStep(d, q', q);
    }
  }

  lemma DivideBelow(n: nat, d: nat, m: nat)
    requires d > 0
    ensures n / d < m <==> n < d * m
  {
    var q, r := DivMod(n, d);
    if q < m {
      MulStep(d, q, m);
    } else if m < q {
      MulStep(d, m, q);
    }
  }

  lemma DivShrinks(n: nat, d: nat)
    requires d >= 2 && n > 0
    ensures n / d < n
  {
    DivideBelow(n, d, n);
    MulStep(n, 1, d);
  }

  lemma QuotientPositive(n: nat, d: nat)
    requires 0 < d <= n
    ensures n / d >= 1
  {
    DivideBelow(n, d, 1);
  }

  lemma QuotientOfSum(a: nat, b: nat, d: nat)
    requires d > 0
    ensures (a + b) / d == a / d + b / d + (if a % d + b % d < d then 0 else 1)
  {
    var qa, ra := DivMod(a, d);
    var qb, rb := DivMod(b, d);
    Distribute(d, qa, qb);
    if ra + rb < d {
      DivUnique(a + b, d, qa + qb, ra + rb);
    } else {
      Distribute(d, qa + qb, 1);
      DivUnique(a + b, d, qa + qb + 1, ra + rb - d);
    }
  }

  lemma DivMono(a: nat, b: nat, d: nat)
    requires a <= b && d > 0
    ensures a / d <= b / d
  {
    QuotientOfSum(a, b - a, d);
  }
}
