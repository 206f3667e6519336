/**
  Amounts of money. Prices and costs are `DECIMAL(10,2)` / `DECIMAL(12,2)`
  columns, so they are modelled as integer numbers of cents. The one
  rounding operation of the core is `BigDecimal.divide(divisor, 2,
  RoundingMode.HALF_UP)`: on cent amounts it is an integer division that
  rounds to the nearest integer, ties away from zero.
 */
module Money {

  /** An amount in hundredths of the currency unit. */
  type Cents = int

  /**
    `n` rounded to the multiple of `d` nearest to it, ties going away
    from zero: the characterisation of HALF_UP rounding of `n / d`.
   */
  predicate IsHalfUpQuotient(n: int, d: int, r: int)
    requires d > 0
  {
    if n >= 0 then -d <= 2 * (n - r * d) < d
    else -d < 2 * (n - r * d) <= d
  }

  /** `n / d` rounded HALF_UP to an integer. */
  function DivHalfUp(n: int, d: int): (r: int)
    requires d > 0
    ensures IsHalfUpQuotient(n, d, r)
  {
    if n >= 0 then
      var k := 2 * n + d;
      assert k == (2 * d) * (k / (2 * d)) + k % (2 * d);
      k / (2 * d)
    else
      var k := 2 * -n + d;
      assert k == (2 * d) * (k / (2 * d)) + k % (2 * d);
      -(k / (2 * d))
  }

  /** HALF_UP rounding has exactly one result. */
  lemma HalfUpQuotientUnique(n: int, d: int, r: int, r': int)
    requires d > 0
    requires IsHalfUpQuotient(n, d, r) && IsHalfUpQuotient(n, d, r')
    ensures r == r'
  {
    var e := r' - r;
    assert 2 * (n - r * d) - 2 * (n - r' * d) == 2 * (e * d);
    if e >= 1 {
      MulMonotone(1, e, d);
    } else if e <= -1 {
      MulMonotone(1, -e, d);
    }
  }

  lemma MulMonotone(a: int, b: int, d: int)
    requires a <= b && d >= 0
    ensures a * d <= b * d
  {
  }

  /** An exact quotient is returned unchanged. */
  lemma DivHalfUpExact(k: int, d: int)
    requires d > 0
    ensures DivHalfUp(k * d, d) == k
  {
    HalfUpQuotientUnique(k * d, d, DivHalfUp(k * d, d), k);
  }

  /**
    A rounded quotient stays within any whole bounds of the exact one:
    if `lo <= n / d <= hi` then `lo <= DivHalfUp(n, d) <= hi`.
   */
  lemma DivHalfUpBetween(n: int, d: int, lo: int, hi: int)
    requires d > 0
    requires lo * d <= n <= hi * d
    ensures lo <= DivHalfUp(n, d) <= hi
  {
    var r := DivHalfUp(n, d);
    if r < lo {
      MulMonotone(r + 1, lo, d);
    }
    if r > hi {
      MulMonotone(hi + 1, r, d);
    }
  }
}
