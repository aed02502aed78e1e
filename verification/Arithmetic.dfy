/** Multiplication and division facts that the solver does not find by itself. */
module Arithmetic {

  lemma SmallMultiple(a: int, n: int)
    requires n > 0 && -n < a * n < n
    ensures a == 0
  {
    if a >= 1 {
      assert a * n == n + (a - 1) * n;
      MulNonNegative(a - 1, n);
    } else if a <= -1 {
      assert (-a) * n == n + (-a - 1) * n;
      MulNonNegative(-a - 1, n);
    }
  }

  lemma MulNonNegative(a: nat, b: nat)
    ensures a * b >= 0
  {}

  lemma MulMonotone(a: int, b: int, n: nat)
    requires a <= b
    ensures a * n <= b * n
    ensures b * n == a * n + (b - a) * n
  {
    MulNonNegative(b - a, n);
  }

  /** Quotient and remainder are unique. */
  lemma DivMod(q: nat, r: nat, n: nat)
    requires r < n
    ensures (q * n + r) / n == q && (q * n + r) % n == r
  {
    var x := q * n + r;
    var q', r' := x / n, x % n;
    assert x == n * q' + r';
    assert n * q' == q' * n;
    assert (q - q') * n == q * n - q' * n;
    SmallMultiple(q - q', n);
  }
}
