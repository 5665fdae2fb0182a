/** Facts about Dafny's `%` on a positive modulus, used to reason about the
    ring cursor of the audio buffer pool. */
module Modular {

  lemma MulBounds(a: int, n: int)
    requires n > 0
    ensures a >= 1 ==> a * n >= n
    ensures a <= -1 ==> a * n <= -n
  {
  }

  /** The remainder is determined by any quotient/remainder decomposition. */
  lemma ModUnique(y: int, n: int, q: int, r: int)
    requires n > 0 && 0 <= r < n && y == q * n + r
    ensures y % n == r
  {
    var a := q - y / n;
    assert a * n == y % n - r;
    MulBounds(a, n);
  }

  /** Advancing a reduced cursor by `k` agrees with reducing the advanced count. */
  lemma ModAdd(x: int, k: int, n: int)
    requires n > 0
    ensures (x % n + k) % n == (x + k) % n
  {
    var q, r := x / n, x % n;
    var a, b := (r + k) / n, (r + k) % n;
    assert x == q * n + r;
    assert r + k == a * n + b;
    assert x + k == (q + a) * n + b;
    ModUnique(x + k, n, q + a, b);
  }
}
