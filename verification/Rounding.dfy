/**
  Decimal money. Every amount is measured in cents: an exact Decimal is a `real` number of cents,
  and an amount that has been through `_money` is an `int` number of cents.
*/
module Rounding {
  /** ROUND_HALF_UP to whole cents: halves go away from zero. */
  function Money(x: real): int {
    if x >= 0.0 then (x + 0.5).Floor else -((0.5 - x).Floor)
  }

  /** Rounding never reverses an order. */
  lemma MoneyMonotone(x: real, y: real)
    requires x <= y
    ensures Money(x) <= Money(y)
  {
    if x < 0.0 && y >= 0.0 {
      assert (0.5 - x).Floor >= 0;
      assert (y + 0.5).Floor >= 0;
    }
  }

  /** Rounding moves an amount by at most half a cent. */
  lemma MoneyNear(x: real)
    ensures x - 0.5 <= Money(x) as real <= x + 0.5
  {
  }

  /** The nearest cent, and of two equally near the one further from zero. */
  lemma MoneyExactly(x: real, n: int)
    ensures Money(x) == n <==>
            if x >= 0.0 then n as real - 0.5 <= x < n as real + 0.5 else n as real - 0.5 < x <= n as real + 0.5
  {
    var k := if x >= 0.0 then (x + 0.5).Floor else -((0.5 - x).Floor);
    assert x >= 0.0 ==> k as real <= x + 0.5 < k as real + 1.0;
    assert x < 0.0 ==> -k as real <= 0.5 - x < -k as real + 1.0;
  }

  /** Whole cents are left alone, so `_money` is idempotent. */
  lemma MoneyOfCents(n: int)
    ensures Money(n as real) == n
  {
    if n >= 0 {
      assert (n as real + 0.5).Floor == n;
    } else {
      assert (0.5 - n as real).Floor == -n;
    }
  }

  /** Adding whole cents commutes with rounding a non-negative amount. */
  lemma MoneyShift(n: nat, x: real)
    requires x >= 0.0
    ensures Money(n as real + x) == n + Money(x)
  {
    var k := (x + 0.5).Floor;
    assert (n as real + x + 0.5).Floor == n + k;
  }
}
