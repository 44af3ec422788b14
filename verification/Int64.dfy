/** Go's 64-bit integers: wrap-around addition and division that truncates toward zero.
    `time.Duration` is an int64 count of nanoseconds. */
module Int64 {
  const MIN_INT64: int := -0x8000_0000_0000_0000
  const MAX_INT64: int := 0x7FFF_FFFF_FFFF_FFFF
  const TWO_64: int := 0x1_0000_0000_0000_0000

  predicate Fits(x: int) {
    MIN_INT64 <= x <= MAX_INT64
  }

  type int64 = x: int | Fits(x) witness 0

  /** The int64 that a wrapping computation of x leaves: x moved by multiples of 2^64 until it fits. */
  function Wrap(x: int): (r: int64)
    ensures r == x <==> Fits(x)
    decreases if x < 0 then -x else x + 1
  {
    if Fits(x) then x else if x < 0 then Wrap(x + TWO_64) else Wrap(x - TWO_64)
  }

  lemma {:induction false} WrapCongruent(x: int)
    ensures (x - Wrap(x)) % TWO_64 == 0
    decreases if x < 0 then -x else x + 1
  {
    if Fits(x) {
    } else if x < 0 {
      WrapCongruent(x + TWO_64);
    } else {
      WrapCongruent(x - TWO_64);
    }
  }

  lemma WrapPeriod(x: int)
    ensures Wrap(x + TWO_64) == Wrap(x)
  {
  }

  /** A chain of wrapped additions loses nothing that the final wrap would have kept. */
  lemma {:induction false} WrapAbsorbs(a: int, b: int)
    ensures Wrap(Wrap(a) + b) == Wrap(a + b)
    decreases if a < 0 then -a else a + 1
  {
    if Fits(a) {
    } else if a < 0 {
      WrapAbsorbs(a + TWO_64, b);
      WrapPeriod(a + b);
    } else {
      WrapAbsorbs(a - TWO_64, b);
      WrapPeriod(a + b - TWO_64);
    }
  }

  /** Wrapping takes at least as much from a larger number as from a smaller one. */
  lemma {:induction false} WrapLoses(x: int, y: int)
    requires MIN_INT64 <= x <= y
    ensures 0 <= x - Wrap(x) <= y - Wrap(y)
    decreases y - MIN_INT64
  {
    if Fits(y) {
    } else if Fits(x) {
      WrapLoses(MIN_INT64, y - TWO_64);
    } else {
      WrapLoses(x - TWO_64, y - TWO_64);
    }
  }

  /** Go's `/` on signed integers, for a positive divisor. */
  function TruncDiv(a: int, n: int): int
    requires n > 0
  {
    if a >= 0 then a / n else -((-a) / n)
  }

  lemma MulNonNegative(x: int, y: int)
    requires x >= 0 && y >= 0
    ensures x * y >= 0
  {
  }

  /** A quotient lies between zero and the dividend, so it fits whenever the dividend does. */
  lemma TruncDivShrinks(a: int, n: int)
    requires n > 0
    ensures if a >= 0 then 0 <= TruncDiv(a, n) <= a else a <= TruncDiv(a, n) <= 0
  {
    var b := if a >= 0 then a else -a;
    var q := b / n;
    MulNonNegative(n - 1, q);
    assert b == n * q + b % n == (n - 1) * q + q + b % n;
  }

  lemma MulCancel(n: int, x: int, y: int)
    requires n > 0 && n * x < n * y
    ensures x < y
  {
  }

  lemma TruncDivBounds(a: int, n: int, lo: int, hi: int)
    requires n > 0
    requires n * lo <= a <= n * hi
    ensures lo <= TruncDiv(a, n) <= hi
  {
    var q := TruncDiv(a, n);
    assert n * (q - 1) < a < n * (q + 1);
    MulCancel(n, lo, q + 1);
    MulCancel(n, q - 1, hi);
  }

  /** a / n, truncated, is at least k: said without the division. */
  predicate QuotientAtLeast(a: int, n: int, k: int) {
    if k > 0 then n * k <= a else n * (k - 1) < a
  }

  /** a / n, truncated, is at most k. */
  predicate QuotientAtMost(a: int, n: int, k: int) {
    if k < 0 then a <= n * k else a < n * (k + 1)
  }

  /** Exact bounds of the truncated quotient, on either side of zero. */
  lemma TruncDivExact(a: int, n: int, k: int)
    requires n > 0
    ensures k <= TruncDiv(a, n) <==> QuotientAtLeast(a, n, k)
    ensures TruncDiv(a, n) <= k <==> QuotientAtMost(a, n, k)
  {
    if a >= 0 {
      FloorExact(a, n, k);
    } else {
      FloorExact(-a, n, -k);
      assert n * -k == -(n * k) && n * (-k + 1) == -(n * (k - 1)) && n * (-k - 1) == -(n * (k + 1));
    }
  }

  lemma FloorExact(a: int, n: int, k: int)
    requires n > 0 && a >= 0
    ensures k <= a / n <==> QuotientAtLeast(a, n, k)
    ensures a / n <= k <==> QuotientAtMost(a, n, k)
  {
    FloorAtLeast(a, n, k);
    FloorAtLeast(a, n, k + 1);
    FloorAtLeast(a, n, 0);
    if k <= 0 {
      MulPositive(n, 1 - k);
      assert n * (1 - k) == -(n * (k - 1));
    }
    if k < 0 {
      MulPositive(n, -k);
      assert n * -k == -(n * k);
    }
  }

  lemma MulPositive(x: int, y: int)
    requires x > 0 && y > 0
    ensures x * y > 0
  {
  }

  lemma FloorAtLeast(a: int, n: int, k: int)
    requires n > 0
    ensures a / n >= k <==> a >= n * k
  {
    var q := a / n;
    assert n * q <= a < n * (q + 1);
    if a >= n * k {
      MulCancel(n, k, q + 1);
    }
    if q >= k {
      MulNonNegative(n, q - k);
      assert n * (q - k) == n * q - n * k;
    }
  }

  /** Truncation commutes with adding a whole number of divisors when neither side is negative. */
  lemma TruncDivShift(a: int, n: int, k: int)
    requires n > 0
    requires a >= 0 && a - n * k >= 0
    ensures TruncDiv(a - n * k, n) == TruncDiv(a, n) - k
  {
    var q := a / n;
    assert a == n * q + a % n;
    assert a - n * k == n * (q - k) + a % n;
    DivUnique(a - n * k, n, q - k, a % n);
  }

  lemma DivUnique(a: int, n: int, q: int, r: int)
    requires n > 0 && a == n * q + r && 0 <= r < n
    ensures a / n == q
  {
    var p := a / n;
    assert a == n * p + a % n;
    MulCancel(n, p, q + 1);
    MulCancel(n, q, p + 1);
  }

  lemma TruncDivMonotone(a: int, b: int, n: int)
    requires n > 0 && 0 <= a <= b
    ensures TruncDiv(a, n) <= TruncDiv(b, n)
  {
    assert n * (a / n) <= a <= b < n * (b / n + 1);
    MulCancel(n, a / n, b / n + 1);
  }
}
