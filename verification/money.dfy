/** Amounts of money as whole cents, and the rounding that
    `Number((amount / n).toFixed(2))` performs on them. */
module Money {

  /** An amount in cents (R$ 12.34 is 1234). */
  type Cents = int

  /** `amount / n` rounded to whole cents, ties away from zero, as
      `toFixed(2)` rounds an exactly representable quotient. */
  function RoundDiv(amount: Cents, n: int): (r: Cents)
    requires n > 0
    ensures amount >= 0 ==> 2 * n * r - n <= 2 * amount < 2 * n * r + n
    ensures amount < 0 ==> 2 * n * r - n < 2 * amount <= 2 * n * r + n
  {
    if amount >= 0 then RoundHalfUp(amount, n) else -RoundHalfUp(-amount, n)
  }

  function RoundHalfUp(a: int, n: int): (r: int)
    requires a >= 0 && n > 0
    ensures 2 * n * r - n <= 2 * a < 2 * n * r + n
  {
    var q := (2 * a + n) / (2 * n);
    assert 2 * a + n == 2 * n * q + (2 * a + n) % (2 * n);
    q
  }

  /** The rounded share is the nearest whole number of cents: `n` shares of
      it miss the total by at most half of `n` cents. */
  lemma RoundDivDrift(amount: Cents, n: int)
    requires n > 0
    ensures -n <= 2 * (n * RoundDiv(amount, n) - amount) <= n
  {
  }

  /** The rounding is exact when `n` divides the amount. */
  lemma RoundDivExact(k: int, n: int)
    requires n > 0
    ensures RoundDiv(k * n, n) == k
  {
    RoundDivUnique(k * n, n, k);
  }

  /** No other whole number of cents lies as close to `amount / n`: the
      rounding is the unique nearest one, ties going away from zero. */
  lemma RoundDivUnique(amount: Cents, n: int, c: int)
    requires n > 0
    requires amount >= 0 ==> 2 * n * c - n <= 2 * amount < 2 * n * c + n
    requires amount < 0 ==> 2 * n * c - n < 2 * amount <= 2 * n * c + n
    ensures c == RoundDiv(amount, n)
  {
    var r := RoundDiv(amount, n);
    if c > r {
      MulGap(n, c, r);
    } else if c < r {
      MulGap(n, r, c);
    }
  }

  lemma MulGap(n: int, hi: int, lo: int)
    requires n > 0 && hi > lo
    ensures 2 * n * hi >= 2 * n * lo + 2 * n
  {
    var d := hi - lo;
    assert 2 * n * hi == 2 * n * lo + 2 * n * d;
    MulAtLeast(2 * n, d);
  }

  lemma {:induction false} MulAtLeast(m: int, d: int)
    requires m > 0 && d >= 1
    ensures m * d >= m
    decreases d
  {
    if d > 1 {
      MulAtLeast(m, d - 1);
      assert m * d == m * (d - 1) + m;
    }
  }
}
