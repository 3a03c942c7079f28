/** Facts about integer division by a positive number, where the quotient is rounded down. */
module Division {

  /** Quotient and remainder are determined by the division equation. */
  lemma {:induction false} QuotientIs(a: int, n: int, q: int, r: int)
    requires n > 0 && a == q * n + r && 0 <= r < n
    ensures a / n == q && a % n == r
  {
    var d := a / n - q;
    assert d * n == r - a % n;
    assert d >= 1 ==> d * n >= n;
    assert d <= -1 ==> d * n <= -n;
  }

  lemma {:induction false} QuotientBetween(a: int, n: int, low: int, high: int)
    requires n > 0 && low * n <= a < (high + 1) * n
    ensures low <= a / n <= high
  {
    var q, r := a / n, a % n;
    assert a == q * n + r;
    assert q < low ==> (q + 1) * n <= low * n;
    assert q > high ==> (high + 1) * n <= q * n;
  }

  lemma {:induction false} DivStep(a: int, n: int)
    requires n > 1
    ensures (a + 1) / n == a / n + if (a + 1) % n == 0 then 1 else 0
  {
    var q, r := a / n, a % n;
    if r == n - 1 {
      QuotientIs(a + 1, n, q + 1, 0);
    } else {
      QuotientIs(a + 1, n, q, r + 1);
    }
  }

  /** `Math.round(x / y)`: the nearest integer, halves upwards, also for negative `x`. */
  function Round(x: int, y: int): int
    requires y > 0
  {
    (2 * x + y) / (2 * y)
  }

  /** Rounding moves a quotient by at most one half, and only upwards by exactly one half. */
  lemma {:induction false} RoundIsNearest(x: int, y: int)
    requires y > 0
    ensures -y < 2 * (Round(x, y) * y - x) <= y
  {
    var a, n := 2 * x + y, 2 * y;
    var q := a / n;
    assert a == q * n + a % n;
    assert q * n == 2 * (q * y);
  }

  /** It is the only integer that near. */
  lemma {:induction false} OnlyRound(x: int, y: int, r: int)
    requires y > 0 && -y < 2 * (r * y - x) <= y
    ensures r == Round(x, y)
  {
    assert r * (2 * y) == 2 * (r * y);
    QuotientIs(2 * x + y, 2 * y, r, 2 * x + y - r * (2 * y));
  }

  /** Whole numbers can be taken out of a rounding. */
  lemma {:induction false} RoundShift(k: int, x: int, y: int)
    requires y > 0
    ensures Round(k * y + x, y) == k + Round(x, y)
  {
    RoundIsNearest(x, y);
    var r := k + Round(x, y);
    assert r * y == k * y + Round(x, y) * y;
    OnlyRound(k * y + x, y, r);
  }
}
