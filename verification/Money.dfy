/** internal/money: amounts in minor units, with sums and products checked after the fact. */
module Money {
  import opened Int64
  import opened Wrappers

  const USD := "USD"

  datatype Money = Money(minor: int64, currency: string)

  datatype MoneyError = Overflow | CurrencyMismatch

  function FromUSD(minor: int64): Money { Money(minor, USD) }

  function Add(m: Money, other: Money): Result<Money, MoneyError> {
    if m.currency != other.currency then
      Err(CurrencyMismatch)
    else
      var sum := Plus(m.minor, other.minor);
      if (other.minor > 0 && sum < m.minor) || (other.minor < 0 && sum > m.minor) then
        Err(Overflow)
      else
        Ok(Money(sum, m.currency))
  }

  function Mul(m: Money, factor: int64): Result<Money, MoneyError> {
    if m.minor == 0 || factor == 0 then
      Ok(Money(0, m.currency))
    else
      var product := Times(m.minor, factor);
      if Quotient(product, factor) != m.minor then
        Err(Overflow)
      else
        Ok(Money(product, m.currency))
  }

  /** The comparison after the wrapped addition is exact: `Add` succeeds just when the currencies
      agree and the true sum is representable, and then returns the true sum. */
  lemma AddExact(m: Money, other: Money)
    ensures Add(m, other).Ok? <==> m.currency == other.currency && Fits(m.minor + other.minor)
    ensures Add(m, other).Ok? ==> Add(m, other).value == Money(m.minor + other.minor, m.currency)
    ensures Add(m, other) == Err(CurrencyMismatch) <==> m.currency != other.currency
  {
    var sum := m.minor + other.minor;
    if !Fits(sum) {
      assert Turns(sum) == (if sum > 0 then 1 else -1);
    }
  }

  /** Dividing back recovers the first factor just when nothing was lost, apart from MIN * -1,
      whose wrapped product MIN divides back to MIN because that quotient wraps as well. */
  lemma DivideBack(a: int64, b: int64)
    requires b != 0
    ensures Quotient(Times(a, b), b) == a <==> Fits(a * b) || (a == MIN_INT64 && b == -1)
  {
    if Fits(a * b) {
      TruncatedOfProduct(a, b);
    } else if b == -1 {
      var exact := a * b;
      assert exact == 0 - a;
      TruncatedFits(a, b);
    } else {
      OverflowShows(a, b, a * b);
    }
  }

  lemma FarIsNotQuotient(product: int, q: int, a: int, b: int)
    requires Abs(product - q * b) < Abs(b) <= Abs(product - a * b)
    ensures q != a
  {}

  /** A product off by a multiple of 2^64 is too far from the true one to divide back. */
  lemma OverflowShows(a: int64, b: int64, exact: int)
    requires b != 0 && b != -1
    requires exact == a * b && !Fits(exact)
    ensures Quotient(Wrap(exact), b) != a
  {
    var product: int := Wrap(exact);
    TruncatedFits(product, b);
    TruncatedLaw(product, b);
    WrapIsFar(exact);
    FarIsNotQuotient(product, Truncated(product, b), a, b);
  }

  /** `Mul` succeeds just when the true product is representable, except for the pair
      (MIN, -1), which it lets through with the value MIN; every other success is exact. */
  lemma MulExact(m: Money, factor: int64)
    ensures Mul(m, factor).Ok? <==> Fits(m.minor * factor) || (m.minor == MIN_INT64 && factor == -1)
    ensures Mul(m, factor).Ok? ==>
              Mul(m, factor).value ==
              Money(if Fits(m.minor * factor) then m.minor * factor else MIN_INT64, m.currency)
    ensures Mul(m, factor).Err? ==> Mul(m, factor).error == Overflow
  {
    if m.minor != 0 && factor != 0 {
      DivideBack(m.minor, factor);
    }
  }

  /** The exception is real: the check accepts a product that is off by 2^64. */
  lemma MulException()
    ensures Mul(FromUSD(MIN_INT64), -1) == Ok(FromUSD(MIN_INT64))
    ensures !Fits(MIN_INT64 * -1)
  {
    MulExact(FromUSD(MIN_INT64), -1);
  }
}
