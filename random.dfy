/**
 * The pseudo-random source both scripts use. `Math.random()` returns a double
 * in [0, 1), that is k / 2^53 for some integer k in [0, 2^53). The model takes
 * those integers k as a caller-supplied tape of draws, so that every use of
 * randomness in the scripts becomes exact integer arithmetic on a draw.
 */
module Random {

  /**
   * The resolution draws are modelled at: 2^53 values in [0, 1). An engine
   * may return only some of them (V8 returns multiples of 2^-52).
   */
  const Resolution: nat := 0x20_0000_0000_0000

  /** One value of `Math.random()`, scaled by `Resolution`. */
  type Draw = k: nat | k < Resolution

  /** `Math.floor(Math.random() * n)`: an index into a pool of `n` values. */
  function Below(u: Draw, n: nat): (i: nat)
    requires n > 0
    ensures i < n
    ensures i * Resolution <= u * n < (i + 1) * Resolution
  {
    ScaledBelow(u, n);
    u * n / Resolution
  }

  /** `Math.random() < 0.5`: the same as picking the first of two values. */
  function Heads(u: Draw): (b: bool)
    ensures b <==> Below(u, 2) == 0
  {
    u < Resolution / 2
  }

  lemma ScaledBelow(u: Draw, n: nat)
    requires n > 0
    ensures u * n < Resolution * n
  {
  }

  /**
   * The smallest draw that selects index `i` of a pool of `n` values; every
   * index of a pool is selected by some draw, so no pool value is unreachable.
   */
  function Reaching(i: nat, n: nat): (u: Draw)
    requires i < n <= Resolution
    ensures Below(u, n) == i
  {
    var q := (i * Resolution + n - 1) / n;
    ReachingBounds(i, n, Resolution, q);
    q
  }

  /**
   * The bounds of `Reaching`, for any resolution `r`: the rounded-up
   * quotient `q` of `i * r` by `n` is a draw, and `q * n` lands in the
   * interval that `Below` maps to `i`.
   */
  lemma ReachingBounds(i: nat, n: nat, r: nat, q: int)
    requires i < n <= r
    requires q == (i * r + n - 1) / n
    ensures 0 <= q < r
    ensures i * r <= q * n < (i + 1) * r
  {
    var a := i * r + n - 1;
    assert q * n <= a < q * n + n by {
      DivBounds(a, n);
    }
    assert (i + 1) * r == i * r + r;
    MulLeft(i, n - 1, r);
    assert (n - 1) * r == n * r - r;
    MulLeft(r, q, n);
  }

  lemma DivBounds(a: nat, n: nat)
    requires n > 0
    ensures (a / n) * n <= a < (a / n) * n + n
  {
  }

  lemma MulLeft(a: int, b: int, c: nat)
    ensures a <= b ==> a * c <= b * c
  {
  }
}
