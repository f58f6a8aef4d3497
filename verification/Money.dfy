/** Decimal money under the settlement code.
    Stored amounts are whole cents (DECIMAL(14,2)).  A commission is the product of a price in cents
    and a percent in hundredths, divided by 100; it is exact in ten-thousandths of a cent, so an
    exact amount is an integer number of those units and `CENT` of them make one cent. */
module Money {
  const CENT := 10000

  /** How a DECIMAL(14,2) column stores an exact amount: half away from zero. */
  function RoundHalfAway(exact: int): (cents: int) {
    if exact >= 0 then (exact + CENT / 2) / CENT else -((-exact + CENT / 2) / CENT)
  }

  /** price * percent / 100, in ten-thousandths of a cent. */
  function Commission(price: int, percent: int): (exact: int) {
    price * percent
  }

  /** An exact amount that lies half way between two cents. */
  predicate HalfCent(exact: int) {
    exact % CENT == CENT / 2
  }

  /** Rounding to cents never moves a balance across a bound that is itself a whole number of cents. */
  lemma StoredKeepsFloor(exact: int, limit: int)
    requires exact >= -(CENT * limit)
    ensures RoundHalfAway(exact) >= -limit
  {
  }

  /** Storing is the nearest cent: at most half a cent off, ties going away from zero. */
  lemma StoredIsNearest(exact: int)
    ensures -CENT <= 2 * (CENT * RoundHalfAway(exact) - exact) <= CENT
    ensures HalfCent(exact) && exact > 0 ==> CENT * RoundHalfAway(exact) - exact == CENT / 2
    ensures HalfCent(exact) && exact < 0 ==> exact - CENT * RoundHalfAway(exact) == CENT / 2
  {
  }

  /** A price of 100.00, k times, at a percent of p hundredths: k * p cents, exactly. */
  lemma CommissionOfHundreds(k: nat, percent: nat)
    ensures RoundHalfAway(Commission(10000 * k, percent)) == k * percent
  {
    assert Commission(10000 * k, percent) == CENT * (k * percent);
  }

  /** What one deduction leaves over: the balance is rounded after subtracting the exact commission,
      the ledger row is the commission rounded on its own.  They disagree by one cent exactly when
      the commission is a half-cent tie and the deducted balance is still positive. */
  function DeductionGain(balance: int, amount: int): (gain: int)
    ensures 0 <= gain <= 1
  {
    if HalfCent(amount) && CENT * balance - amount > 0 then 1 else 0
  }

  lemma DeductedAgainstLedger(balance: int, amount: int)
    requires amount >= 0
    ensures RoundHalfAway(CENT * balance - amount) == balance + RoundHalfAway(-amount) + DeductionGain(balance, amount)
    ensures RoundHalfAway(-amount) == -RoundHalfAway(amount)
    ensures RoundHalfAway(amount) >= 0
  {
    var n := amount / CENT;
    var f := amount % CENT;
    assert amount == CENT * n + f;
    assert CENT * balance - amount == CENT * (balance - n) - f;
  }
}
