/** Money in whole paise (1 rupee = 100 paise) and the `Number(x.toFixed(2))` rounding of the routes. */
module Money {

  /** Paise in one rupee. */
  const Rupee: int := 100

  /** `Number((n / d).toFixed(2))` when n / d is an exact amount in paise: the nearest whole paisa,
      ties rounded up. */
  function RoundHalfUp(n: int, d: int): int
    requires d > 0
  {
    (2 * n + d) / (2 * d)
  }

  /** The rounded value is the whole number nearest to n / d, ties rounded up. */
  lemma RoundHalfUpNearest(n: int, d: int)
    requires d > 0
    ensures var r := RoundHalfUp(n, d);
            2 * d * r <= 2 * n + d < 2 * d * r + 2 * d
  {
    var q, m := (2 * n + d) / (2 * d), (2 * n + d) % (2 * d);
    assert 2 * n + d == (2 * d) * q + m && 0 <= m < 2 * d;
  }

  /** The rounding is exact when d divides n. */
  lemma RoundHalfUpExact(q: int, d: int)
    requires d > 0
    ensures RoundHalfUp(q * d, d) == q
  {
    RoundHalfUpNearest(q * d, d);
    assert 2 * (q * d) + d == (2 * d) * q + d;
    DivUnique(2 * (q * d) + d, 2 * d, q, d);
  }

  /** A non-negative amount rounds to a non-negative one, and rounding a fraction n / d of an amount
      (d >= 1) never gives more than n. */
  lemma RoundHalfUpBetween(n: int, d: int)
    requires n >= 0 && d >= 1
    ensures 0 <= RoundHalfUp(n, d) <= n
  {
    var r := RoundHalfUp(n, d);
    RoundHalfUpNearest(n, d);
    assert (2 * d) * 0 < (2 * d) * (r + 1);
    LtFromScaled(0, r + 1, 2 * d);
    assert 2 * n <= 2 * d * n by { ScaleLe(1, d, 2 * n); }
    assert (2 * d) * r < (2 * d) * (n + 1);
    LtFromScaled(r, n + 1, 2 * d);
  }

  /** A larger amount never rounds to a smaller one. */
  lemma RoundHalfUpMonotone(n: int, m: int, d: int)
    requires d > 0 && n <= m
    ensures RoundHalfUp(n, d) <= RoundHalfUp(m, d)
  {
    var a, b := RoundHalfUp(n, d), RoundHalfUp(m, d);
    RoundHalfUpNearest(n, d);
    RoundHalfUpNearest(m, d);
    assert (2 * d) * a < (2 * d) * (b + 1);
    LtFromScaled(a, b + 1, 2 * d);
  }

  // Arithmetic helpers for the proofs above and in the distribution and settlement modules.

  lemma LtFromScaled(x: int, y: int, c: int)
    requires c > 0 && c * x < c * y
    ensures x < y
  {
  }

  lemma ScaleLe(x: int, y: int, c: int)
    requires c >= 0 && x <= y
    ensures x * c <= y * c
  {
  }

  lemma DivUnique(a: int, b: int, q: int, m: int)
    requires b > 0 && a == b * q + m && 0 <= m < b
    ensures a / b == q
  {
    var q', m' := a / b, a % b;
    assert a == b * q' + m' && 0 <= m' < b;
    assert b * (q - q') == m' - m;
    LtFromScaled(q - q', 1, b);
    LtFromScaled(-1, q - q', b);
  }
}
