/** Money is counted in whole cents; `to_money` rounds a decimal amount to cents. */
module Money {

  /** `Decimal.quantize` to two places in the default context: half to even. */
  function ToMoney(amount: real): int {
    var scaled := amount * 100.0;
    var below := scaled.Floor;
    var rest := scaled - below as real;
    if rest < 0.5 || (rest == 0.5 && below % 2 == 0) then below else below + 1
  }

  function Distance(amount: real, cents: int): real {
    var d := amount * 100.0 - cents as real;
    if d < 0.0 then -d else d
  }

  /** Half to even: the one cent value at distance below one half, or the even one of the two
      at distance exactly one half. */
  lemma ToMoneyIsNearest(amount: real, cents: int)
    ensures cents == ToMoney(amount)
       <==> Distance(amount, cents) < 0.5 || (Distance(amount, cents) == 0.5 && cents % 2 == 0)
  {
    var below := (amount * 100.0).Floor;
    var rest := amount * 100.0 - below as real;
    assert amount * 100.0 - cents as real == rest + (below - cents) as real;
    if cents < below {
      assert (below - cents) as real >= 1.0;
    } else if cents > below + 1 {
      assert (below - cents) as real <= -2.0;
    }
  }

  /** Rounding ignores the sign, so negating a stored amount needs no second rounding. */
  lemma ToMoneyNegates(amount: real)
    ensures ToMoney(-amount) == -ToMoney(amount)
  {
    ToMoneyIsNearest(amount, ToMoney(amount));
    ToMoneyIsNearest(-amount, -ToMoney(amount));
    assert -amount * 100.0 == -(amount * 100.0);
  }

  lemma ToMoneyMonotone(a: real, b: real)
    requires a <= b
    ensures ToMoney(a) <= ToMoney(b)
  {
    assert a * 100.0 <= b * 100.0;
  }

  /** A value that already has two places is unchanged, so sums of stored amounts are exact. */
  lemma ToMoneyExact(cents: int)
    ensures ToMoney(cents as real / 100.0) == cents
  {
    assert cents as real / 100.0 * 100.0 == cents as real;
  }
}
