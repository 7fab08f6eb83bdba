/**
 * Integer helpers for the i32/i64 arithmetic of the puzzles: the absolute
 * value, Rust's division by two, which rounds toward zero, and Rust's
 * `rem_euclid`, whose remainder is never negative.
 */
module Arith {
  function Abs(v: int): (r: int)
    ensures r >= 0 && (r == v || r == -v)
  {
    if v < 0 then -v else v
  }

  /** Rust's `/ 2` on a signed integer: rounds toward zero. */
  function Half(v: int): (r: int)
    ensures v >= 0 ==> 0 <= 2 * r <= v && v - 2 * r <= 1
    ensures v < 0 ==> v <= 2 * r <= 0 && 2 * r - v <= 1
  {
    if v >= 0 then v / 2 else -((-v) / 2)
  }

  /** Halving rounds toward zero, so it commutes with negation. */
  lemma HalfOdd(v: int)
    ensures Half(-v) == -Half(v)
  {
  }

  /** Rust's `rem_euclid`: the index in [0, m) that x wraps to, also for negative x. */
  function Wrap(x: int, m: int): (r: int)
    requires m > 0
    ensures 0 <= r < m
    ensures 0 <= x < m ==> r == x
  {
    x % m
  }

  /** A multiple of d is at least d away from zero unless it is zero. */
  lemma MulSign(d: int, t: int)
    requires d > 0
    ensures t >= 1 ==> d * t >= d
    ensures t <= -1 ==> d * t <= -d
  {
  }

  /** Quotient and remainder are unique: x = m * q + r with 0 <= r < m fixes r. */
  lemma WrapUnique(x: int, m: int, q: int, r: int)
    requires m > 0 && 0 <= r < m && x == m * q + r
    ensures Wrap(x, m) == r
  {
    var q0, r0 := x / m, x % m;
    assert m * q - m * q0 == r0 - r;
    assert m * (q - q0) == m * q - m * q0;
    MulSign(m, q - q0);
  }

  /** Moving by m in either direction wraps to the same index. */
  lemma WrapPeriodic(x: int, m: int)
    requires m > 0
    ensures Wrap(x + m, m) == Wrap(x, m) && Wrap(x - m, m) == Wrap(x, m)
  {
    var q := x / m;
    assert x == m * q + Wrap(x, m);
    assert x + m == m * (q + 1) + Wrap(x, m);
    assert x - m == m * (q - 1) + Wrap(x, m);
    WrapUnique(x + m, m, q + 1, Wrap(x, m));
    WrapUnique(x - m, m, q - 1, Wrap(x, m));
  }

  /** Advancing a wrapped index by one wraps like advancing the original. */
  lemma WrapSucc(k: int, n: int)
    requires n > 0
    ensures Wrap(Wrap(k, n) + 1, n) == Wrap(k + 1, n)
  {
    var q, r := k / n, Wrap(k, n);
    assert k == n * q + r;
    if r + 1 < n {
      WrapUnique(k + 1, n, q, r + 1);
    } else {
      assert k + 1 == n * (q + 1) + 0;
      WrapUnique(k + 1, n, q + 1, 0);
      WrapUnique(r + 1, n, 1, 0);
    }
  }
}
