/** The coupon amount of `pay_coupon`: 128-bit checked arithmetic against one exact fraction. */
module Payout {
  import opened Numbers
  import opened Arithmetic

  const SECONDS_PER_DAY: u64 := 86_400

  datatype DayCount = Actual360 | Actual365 {
    function Days(): u64 { if Actual360? then 360 else 365 }
  }

  /** Everything about a payment except the balance it is for. */
  datatype Terms = Terms(
    rate: u64, rateDecimals: u8, parValue: u64, parDecimals: u8, bondDecimals: u8, paymentDecimals: u8,
    elapsed: u64, dayCount: DayCount)

  function Pow10(n: nat): (p: nat)
    ensures p >= 1
  {
    if n == 0 then 1 else 10 * Pow10(n - 1)
  }

  /** The product of a list, multiplied from left to right. */
  function Product(factors: seq<nat>): nat {
    if |factors| == 0 then 1 else
      var front, last := Product(factors[..|factors| - 1]), factors[|factors| - 1];
      assert front * last >= 0 by { MulMonotone(0, front, last); }
      front * last
  }

  /** The documented fraction, per unit of balance: Numerator / Denominator. */
  function Numerator(t: Terms): nat {
    Product([t.rate, t.parValue, t.elapsed, Pow10(t.paymentDecimals)])
  }

  function Denominator(t: Terms): (d: nat)
    ensures d > 0
  {
    var d := [t.dayCount.Days(), SECONDS_PER_DAY, Pow10(t.rateDecimals), Pow10(t.bondDecimals), Pow10(t.parDecimals)];
    assert Product(d) > 0 by { ProductPositive(d); }
    Product(d)
  }

  lemma {:induction false} ProductPositive(factors: seq<nat>)
    requires forall i | 0 <= i < |factors| :: factors[i] > 0
    ensures Product(factors) > 0
  {
    if |factors| > 0 {
      ProductPositive(factors[..|factors| - 1]);
      FactorGrows(Product(factors[..|factors| - 1]), factors[|factors| - 1]);
    }
  }

  /** The payout on `balance`, rounded down. */
  function Due(t: Terms, balance: nat): nat { Floor(balance, Numerator(t), Denominator(t)) }

  function Floor(x: nat, k: nat, d: nat): nat
    requires d > 0
  {
    assert x * k / d >= 0 by { MulMonotone(0, x, k); DivMod(x * k, d); }
    x * k / d
  }

  // ---------- What the handler computes ----------

  function Accrued(t: Terms, balance: nat): nat { Product([t.rate, balance, t.parValue, t.elapsed]) }

  function NetPower(t: Terms): int { t.paymentDecimals - (t.rateDecimals + t.bondDecimals + t.parDecimals) }

  function DayDenominator(t: Terms): nat { t.dayCount.Days() * SECONDS_PER_DAY }

  /** Every intermediate of the handler fits its type. */
  predicate Fits(t: Terms, balance: u64) {
    && Accrued(t, balance) <= U128_MAX
    && (if NetPower(t) >= 0
        then Pow10(NetPower(t)) <= U128_MAX && Accrued(t, balance) * Pow10(NetPower(t)) <= U128_MAX
        else DayDenominator(t) * Pow10(-NetPower(t)) <= U128_MAX)
    && Due(t, balance) <= U64_MAX
  }

  lemma {:induction false} Pow10Adds(a: nat, b: nat)
    ensures Pow10(a + b) == Pow10(a) * Pow10(b)
  {
    if a > 0 {
      Pow10Adds(a - 1, b);
      Associates(10, Pow10(a - 1), Pow10(b));
    }
  }

  lemma ProductOf2(a: nat, b: nat)
    ensures Product([a, b]) == a * b
  {
    assert [a, b][..1] == [a] && [a][..0] == [];
    assert Product([]) == 1 && Product([a]) == a;
  }

  lemma ProductOf4(a: nat, b: nat, c: nat, d: nat)
    ensures Product([a, b, c, d]) == a * b * c * d
  {
    assert [a, b, c, d][..3] == [a, b, c] && [a, b, c][..2] == [a, b];
    ProductOf2(a, b);
    assert Product([a, b, c]) == a * b * c;
  }

  lemma ProductOf5(a: nat, b: nat, c: nat, d: nat, e: nat)
    ensures Product([a, b, c, d, e]) == a * b * c * d * e
  {
    assert [a, b, c, d, e][..4] == [a, b, c, d];
    ProductOf4(a, b, c, d);
  }

  lemma BalanceMoves(a: nat, b: nat, c: nat, d: nat, p: nat)
    ensures b * (a * c * d * p) == a * b * c * d * p
  {
  }

  lemma NumeratorSplits(t: Terms, balance: nat)
    ensures balance * Numerator(t) == Accrued(t, balance) * Pow10(t.paymentDecimals)
  {
    ProductOf4(t.rate, t.parValue, t.elapsed, Pow10(t.paymentDecimals));
    ProductOf4(t.rate, balance, t.parValue, t.elapsed);
    BalanceMoves(t.rate, balance, t.parValue, t.elapsed, Pow10(t.paymentDecimals));
  }

  lemma DenominatorSplits(t: Terms)
    ensures Denominator(t) == DayDenominator(t) * Pow10(t.rateDecimals + t.bondDecimals + t.parDecimals)
  {
    var a, b, c := Pow10(t.rateDecimals), Pow10(t.bondDecimals), Pow10(t.parDecimals);
    ProductOf5(t.dayCount.Days(), SECONDS_PER_DAY, a, b, c);
    Pow10Adds(t.rateDecimals, t.bondDecimals);
    Pow10Adds(t.rateDecimals + t.bondDecimals, t.parDecimals);
    Associates(DayDenominator(t), a, b);
    Associates(DayDenominator(t), a * b, c);
  }

  /** Collapsing the four powers of ten into one, on either side of the fraction, changes nothing. */
  lemma NetPowerExact(n: nat, d: nat, above: nat, below: nat)
    requires d > 0
    ensures d * Pow10(below) > 0
    ensures above >= below ==>
              n * Pow10(above - below) / d == n * Pow10(above) / (d * Pow10(below))
    ensures above < below ==>
              d * Pow10(below - above) > 0 &&
              n / (d * Pow10(below - above)) == n * Pow10(above) / (d * Pow10(below))
  {
    FactorGrows(d, Pow10(below));
    if above >= below {
      var p := Pow10(above - below);
      Pow10Adds(above - below, below);
      Associates(n, p, Pow10(below));
      MulMonotone(0, n, p);
      DivCancels(n * p, d, Pow10(below));
    } else {
      var p := Pow10(below - above);
      Pow10Adds(below - above, above);
      Associates(d, p, Pow10(above));
      FactorGrows(d, p);
      DivCancels(n, d * p, Pow10(above));
    }
  }

  /** The handler's quotient is the documented one, whichever side the power of ten is on. */
  lemma QuotientExact(t: Terms, balance: nat)
    ensures NetPower(t) >= 0 ==>
              Accrued(t, balance) * Pow10(NetPower(t)) / DayDenominator(t) == Due(t, balance)
    ensures NetPower(t) < 0 ==>
              DayDenominator(t) * Pow10(-NetPower(t)) > 0 &&
              Accrued(t, balance) / (DayDenominator(t) * Pow10(-NetPower(t))) == Due(t, balance)
  {
    var below := t.rateDecimals + t.bondDecimals + t.parDecimals;
    NumeratorSplits(t, balance);
    DenominatorSplits(t);
    NetPowerExact(Accrued(t, balance), DayDenominator(t), t.paymentDecimals, below);
  }

  method Power(n: nat) returns (r: Option<u128>)
    ensures r == if Pow10(n) <= U128_MAX then Some(Pow10(n)) else None
  {
    var p: u128 := 1;
    for k := 0 to n
      invariant p == Pow10(k)
    {
      var next := CheckedMul128(p, 10);
      if next.None? {
        Pow10Adds(n - k - 1, k + 1);
        FactorGrows(Pow10(k + 1), Pow10(n - k - 1));
        return None;
      }
      p := next.value;
    }
    return Some(p);
  }

  /** The numerator chain: it overflows exactly when the whole product does. */
  method CheckedAccrued(t: Terms, balance: u64) returns (r: Option<u128>)
    requires t.elapsed > 0
    ensures r == if Accrued(t, balance) <= U128_MAX then Some(Accrued(t, balance)) else None
  {
    ProductOf4(t.rate, balance, t.parValue, t.elapsed);
    MulMonotone(t.rate, U64_MAX, balance);
    MulMonotone(balance, U64_MAX, U64_MAX);
    var first := CheckedMul128(t.rate, balance);
    MulMonotone(0, first.value, t.parValue);
    var second := CheckedMul128(first.value, t.parValue);
    FactorGrows(first.value * t.parValue, t.elapsed);
    if second.None? { return None; }
    return CheckedMul128(second.value, t.elapsed);
  }

  /** The handler's arithmetic: it answers exactly when everything fits, with exactly what is due. */
  method ComputePayout(t: Terms, balance: u64) returns (amount: Option<u64>)
    requires t.elapsed > 0
    ensures amount == if Fits(t, balance) then Some(Due(t, balance)) else None
  {
    QuotientExact(t, balance);
    var accrued := CheckedAccrued(t, balance);
    if accrued.None? { return None; }
    var num: u128, den: u128 := accrued.value, DayDenominator(t);
    if NetPower(t) >= 0 {
      var mul := Power(NetPower(t));
      if mul.None? { return None; }
      var scaled := CheckedMul128(num, mul.value);
      if scaled.None? { return None; }
      num := scaled.value;
    } else {
      var div := Power(-NetPower(t));
      FactorGrows(Pow10(-NetPower(t)), den);
      if div.None? { return None; }
      var scaled := CheckedMul128(den, div.value);
      if scaled.None? { return None; }
      den := scaled.value;
    }
    var quotient := num / den;
    if quotient > U64_MAX { return None; }
    return Some(quotient);
  }

  // ---------- Sums of payouts ----------

  /** What is due on two balances apart is never more than what is due on them together. */
  lemma DueAdds(t: Terms, x: nat, y: nat)
    ensures Due(t, x) + Due(t, y) <= Due(t, x + y)
  {
    Distributes(x, y, Numerator(t));
    MulMonotone(0, x, Numerator(t));
    MulMonotone(0, y, Numerator(t));
    FloorAdds(x * Numerator(t), y * Numerator(t), Denominator(t));
  }

  /** A larger balance is never paid less, and a payable balance makes every smaller one payable. */
  lemma DueMonotone(t: Terms, x: u64, y: u64)
    requires x <= y
    ensures Due(t, x) <= Due(t, y)
    ensures Fits(t, y) ==> Fits(t, x)
  {
    DueAdds(t, x, y - x);
    AccruedMonotone(t, x, y);
    if NetPower(t) >= 0 { MulMonotone(Accrued(t, x), Accrued(t, y), Pow10(NetPower(t))); }
  }

  lemma AccruedMonotone(t: Terms, x: nat, y: nat)
    requires x <= y
    ensures Accrued(t, x) <= Accrued(t, y)
  {
    ProductOf4(t.rate, x, t.parValue, t.elapsed);
    ProductOf4(t.rate, y, t.parValue, t.elapsed);
    MulMonotone(x, y, t.rate);
    MulMonotone(t.rate * x, t.rate * y, t.parValue);
    MulMonotone(t.rate * x * t.parValue, t.rate * y * t.parValue, t.elapsed);
  }

  /** One payment is short of the exact amount by less than one unit. */
  lemma DueTight(t: Terms, balance: nat)
    ensures Due(t, balance) * Denominator(t) <= balance * Numerator(t) < (Due(t, balance) + 1) * Denominator(t)
  {
    MulMonotone(0, balance, Numerator(t));
    DivMod(balance * Numerator(t), Denominator(t));
    Distributes(Due(t, balance), 1, Denominator(t));
  }
}
