/** Products and divisions by a variable, in small steps. */
module Arithmetic {
  lemma Times(d: int, n: int)
    requires n > 0
    ensures (d >= 1 ==> d * n >= n) && (d <= -1 ==> d * n <= -n)
  {
  }

  lemma Recompose(x: int, n: int)
    requires n > 0
    ensures x / n * n + x % n == x && 0 <= x % n < n && (x >= 0 ==> x / n >= 0)
  {
  }

  lemma Difference(a: int, b: int, n: int)
    ensures (a - b) * n == a * n - b * n
  {
  }

  /** The quotient and the remainder are the only ones. */
  lemma DivUnique(x: int, n: int, q: int, r: int)
    requires 0 <= r < n && x == q * n + r
    ensures x / n == q && x % n == r
  {
    Recompose(x, n);
    Difference(x / n, q, n);
    Times(x / n - q, n);
  }
}
