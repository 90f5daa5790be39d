/** Remainders, for the modular probe. */
module Arithmetic {

  /** The port a probe of `total` ports from `min` on, begun at offset `start`, comes to at step `i`. */
  function PortAt(min: int, total: int, start: nat, i: nat): int
    requires total > 0
  {
    min + (start + i) % total
  }

  lemma ModSum(a: nat, b: nat, n: int)
    requires 0 <= b < n
    ensures (a + b) % n == (if a % n + b < n then a % n + b else a % n + b - n)
  {
    var q, r := a / n, a % n;
    assert a + b == n * q + (r + b);
    if r + b < n {
      ModUnique(a + b, n, q, r + b);
    } else {
      assert a + b == n * (q + 1) + (r + b - n);
      ModUnique(a + b, n, q + 1, r + b - n);
    }
  }

  lemma ModUnique(x: int, n: int, q: int, r: int)
    requires n > 0 && 0 <= r < n && x == n * q + r
    ensures x % n == r
  {
    var d := x / n - q;
    assert x % n - r == -(n * d) by { assert x == n * (x / n) + x % n; assert n * (x / n) - n * q == n * d; }
    assert d >= 1 ==> n * d >= n;
    assert d <= -1 ==> n * d <= -n;
  }
}
