/** Multiplication and division facts the solver needs one at a time. */
module Arith {

  lemma MulMono(a: int, b: int, c: nat)
    requires a <= b
    ensures a * c <= b * c
  {
  }

  lemma Distribute(a: int, b: int, c: int)
    ensures (a + b) * c == a * c + b * c
  {
  }

  lemma DivUnique(q: nat, d: nat, r: nat, n: nat)
    requires d > 0 && r < d && n == q * d + r
    ensures n / d == q && n % d == r
  {
    var p, s := n / d, n % d;
    DivisionEquation(n, d);
    if p < q {
      MulMono(p + 1, q, d);
      Distribute(p, 1, d);
    } else if q < p {
      MulMono(q + 1, p, d);
      Distribute(q, 1, d);
    }
  }

  lemma DivisionEquation(n: nat, d: nat)
    requires d > 0
    ensures n == n / d * d + n % d
  {
  }

  lemma DivReaches(n: nat, d: nat, x: nat)
    requires d > 0
    ensures n / d >= x <==> n >= x * d
  {
    var q := n / d;
    DivisionEquation(n, d);
    if q >= x {
      MulMono(x, q, d);
    } else {
      MulMono(q + 1, x, d);
      Distribute(q, 1, d);
    }
  }

  lemma DivMono(a: nat, b: nat, d: nat)
    requires a <= b && d > 0
    ensures a / d <= b / d
  {
    DivReaches(a, d, a / d);
    DivReaches(b, d, a / d);
  }

  lemma DivAnti(n: nat, a: nat, b: nat)
    requires 0 < a <= b
    ensures n / b <= n / a
  {
    DivReaches(n, b, n / b);
    Commute(n / b, a);
    Commute(n / b, b);
    MulMono(a, b, n / b);
    DivReaches(n, a, n / b);
  }

  lemma Commute(a: int, b: int)
    ensures a * b == b * a
  {
  }

  lemma Associate(a: int, b: int, c: int)
    ensures a * b * c == a * (b * c)
  {
  }
}
