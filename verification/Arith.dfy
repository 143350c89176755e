/** Nonlinear facts about integers and reals that Dafny does not find on its own. */
module Arith {

  lemma MulMono(a: int, b: int, c: int)
    requires a <= b && 0 <= c
    ensures a * c <= b * c
  {}

  lemma MulInjective(a: int, b: int, c: int)
    requires a != b && c >= 1
    ensures a * c != b * c
  {}

  /** Quotient and remainder are unique. */
  lemma DivModUnique(x: int, d: int, q: int, r: int)
    requires 0 <= r < d && x == q * d + r
    ensures x / d == q && x % d == r
  {
    var e := q - x / d;
    assert e * d == x % d - r;
    if e >= 1 { MulMono(1, e, d); } else if e <= -1 { MulMono(e, -1, d); }
  }

  lemma DivMultiple(k: int, d: int)
    requires d >= 1
    ensures (k * d) / d == k && (k * d) % d == 0
  {
    DivModUnique(k * d, d, k, 0);
  }

  /** A quotient stays below a bound exactly when the dividend stays below the bound's multiple. */
  lemma DivLess(x: int, n: int, bound: int)
    requires n >= 1
    ensures x / n < bound <==> x < bound * n
  {
    assert x == x / n * n + x % n;
    if x / n < bound { MulMono(x / n + 1, bound, n); } else { MulMono(bound, x / n, n); }
  }

  lemma RMulMono(a: real, b: real, c: real)
    requires a <= b && 0.0 <= c
    ensures a * c <= b * c
  {}

  lemma RMulStrict(a: real, b: real, c: real)
    requires a < b && 0.0 < c
    ensures a * c < b * c
  {}

  lemma RDivMono(a: real, b: real, d: real)
    requires a <= b && d > 0.0
    ensures a / d <= b / d
  {}

  /** A larger divisor gives a smaller quotient. */
  lemma RDivAnti(x: real, c: real, d: real)
    requires 0.0 <= x && 0.0 < c <= d
    ensures x / d <= x / c
  {}
}
