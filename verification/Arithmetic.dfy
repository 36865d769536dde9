/** Remainders, as the circular buffers use them. */
module Arithmetic {

  lemma {:induction false} MulGap(n: int, q: int, r: int)
    requires 0 < n && q < r
    ensures n * q + n <= n * r
    decreases r - q
  {
    if q + 1 < r {
      MulGap(n, q + 1, r);
    }
  }

  /** One lap around the circle at most. */
  lemma ModWrap(x: int, n: int)
    requires 0 < n && 0 <= x < 2 * n
    ensures x % n == if x < n then x else x - n
  {
    var q := x / n;
    assert x == n * q + x % n;
    if q < 0 {
      MulGap(n, q, 0);
    } else if q > 1 {
      MulGap(n, 1, q);
    }
  }

  /** Numbers less than a lap apart have different places. */
  lemma ModDistinct(a: int, b: int, n: int)
    requires 0 < n && a < b < a + n
    ensures a % n != b % n
  {
    var q, r := a / n, b / n;
    assert a == n * q + a % n;
    assert b == n * r + b % n;
    if q < r {
      MulGap(n, q, r);
    } else if r < q {
      MulGap(n, r, q);
    }
  }
}
