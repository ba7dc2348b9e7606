/** Facts about products and quotients that the proofs share. */
module Arithmetic {

  function Min(a: nat, b: nat): nat {
    if a <= b then a else b
  }

  function Max(a: nat, b: nat): nat {
    if a >= b then a else b
  }

  lemma DivBounds(n: nat, d: nat)
    requires d > 0
    ensures d * (n / d) <= n < d * (n / d) + d && n == d * (n / d) + n % d
  {
  }

  lemma MulGap(d: nat, a: nat, b: nat)
    requires a < b
    ensures d * a + d <= d * b
  {
    Factor(d, a, 1);
    Factor(d, a + 1, b - a - 1);
  }

  lemma DivUnique(n: nat, d: nat, q: nat, m: nat)
    requires n == d * q + m && m < d
    ensures n / d == q && n % d == m
  {
    DivBounds(n, d);
    var q' := n / d;
    if q < q' {
      MulGap(d, q, q');
    } else if q' < q {
      MulGap(d, q', q);
    }
  }

  lemma Factor(a: nat, b: nat, c: nat)
    ensures a * b + a * c == a * (b + c)
  {
  }

  lemma DivMonotone(a: nat, b: nat, d: nat)
    requires a <= b && d > 0
    ensures a / d <= b / d
  {
    DivBounds(a, d);
    DivBounds(b, d);
    if a / d > b / d {
      MulGap(d, b / d, a / d);
    }
  }
}
