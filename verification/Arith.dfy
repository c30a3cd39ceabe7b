/** Small facts of non-linear arithmetic, each proved on plain variables. */
module Arith {
  lemma MulGap(a: int, b: int, m: nat)
    requires a < b
    ensures a * m + m <= b * m
  {
    assert (b - a - 1) * m >= 0;
    assert (b - a - 1) * m == b * m - a * m - m;
  }

  lemma MulMono(a: int, b: int, m: nat)
    requires a <= b
    ensures a * m <= b * m
  {
  }

  lemma MulAssoc(a: int, b: int, c: int)
    ensures a * (b * c) == a * b * c == (a * c) * b
  {
  }

  lemma MulAdd(a: int, b: int, m: int)
    ensures (a + b) * m == a * m + b * m == m * (a + b)
  {
  }

  lemma DivMod(n: nat, d: nat)
    requires d > 0
    ensures n / d >= 0 && 0 <= n % d < d && n == (n / d) * d + n % d
  {
  }
}
