/// Integer arithmetic that several parts of the model need.

module Arith {
  function Min(a: int, b: int): int { if a < b then a else b }

  function Max(a: int, b: int): int { if a < b then b else a }

  lemma MulLess(a: nat, b: nat, c: nat)
    requires a * c < b * c
    ensures a < b
  {
  }

  lemma MulMono(a: nat, b: nat, c: nat)
    requires a <= b
    ensures a * c <= b * c
  {
  }

  lemma OneMore(a: nat, c: nat)
    ensures (a + 1) * c == a * c + c && a * c >= 0
  {
  }

  lemma DivMod(n: nat, d: nat)
    requires d > 0
    ensures n == (n / d) * d + n % d && 0 <= n % d < d && n / d >= 0
  {
  }

  lemma QuotientIs(x: nat, j: nat, d: nat)
    requires d > 0
    ensures x / d == j <==> j * d <= x < (j + 1) * d
  {
    var q, r := x / d, x % d;
    assert x == q * d + r;
    if j * d <= x < (j + 1) * d {
      assert (q + 1) * d == q * d + d;
      MulLess(j, q + 1, d);
      MulLess(q, j + 1, d);
    }
    assert (j + 1) * d == j * d + d;
  }
}
