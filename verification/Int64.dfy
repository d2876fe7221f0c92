/** Go's fixed-width signed integers: two's-complement wrap-around and truncated division, as
    laid down in the section "Integer operators" of The Go Programming Language Specification. */
module Int64 {
  const MIN_INT64: int := -0x8000_0000_0000_0000
  const MAX_INT64: int := 0x7FFF_FFFF_FFFF_FFFF
  const MODULUS: int := 0x1_0000_0000_0000_0000

  predicate Fits(x: int) { MIN_INT64 <= x <= MAX_INT64 }

  type int64 = x: int | Fits(x) witness 0
  type int32 = x: int | -0x8000_0000 <= x <= 0x7FFF_FFFF witness 0

  /** How many multiples of 2^64 separate `x` from its two's-complement representative. */
  function Turns(x: int): int { (x - MIN_INT64) / MODULUS }

  /** The 64-bit value that shares its low 64 bits with `x`. */
  function Wrap(x: int): (r: int64)
    ensures r == x - Turns(x) * MODULUS
    ensures Fits(x) ==> r == x
  {
    (x - MIN_INT64) % MODULUS + MIN_INT64
  }

  /** A value out of range is at least a full turn away from its representative. */
  lemma WrapIsFar(x: int)
    requires !Fits(x)
    ensures Abs(Wrap(x) - x) >= MODULUS
  {
    assert Turns(x) != 0;
  }

  function Plus(a: int64, b: int64): int64 { Wrap(a + b) }

  function Times(a: int64, b: int64): int64 { Wrap(a * b) }

  function Abs(x: int): nat { if x < 0 then -x else x }

  /** The quotient of integers truncated toward zero. */
  function Truncated(x: int, y: int): int
    requires y != 0
  {
    var q := Abs(x) / Abs(y);
    if (x >= 0) == (y > 0) then q else -q
  }

  /** Go's `/`: truncated, and the one quotient out of range, MIN / -1, wraps to MIN. */
  function Quotient(a: int64, b: int64): int64
    requires b != 0
  {
    Wrap(Truncated(a, b))
  }

  lemma Division(n: nat, d: int)
    requires d > 0
    ensures n == n / d * d + n % d && 0 <= n % d < d && 0 <= n / d
  {}

  lemma Doubling(q: nat, d: int)
    requires d > 1
    ensures q * d >= q + q
  {
    assert q * d == q * (d - 2) + q + q;
  }

  lemma QuotientShrinks(n: nat, d: int)
    requires d > 1 && n > 0
    ensures 0 <= n / d < n
  {
    Division(n, d);
    Doubling(n / d, d);
  }

  lemma SignedProduct(q: int, y: int)
    ensures q * Abs(y) == (if y >= 0 then q * y else -(q * y))
    ensures (-q) * y == -(q * y)
  {}

  /** `Truncated` is the quotient of the specification: x = q*y + r with |r| < |y|, and q*y does
      not overshoot x. */
  lemma TruncatedLaw(x: int, y: int)
    requires y != 0
    ensures Abs(x - Truncated(x, y) * y) < Abs(y)
    ensures Abs(Truncated(x, y) * y) <= Abs(x)
  {
    var q := Abs(x) / Abs(y);
    Division(Abs(x), Abs(y));
    var qy := q * Abs(y);
    SignedProduct(q, y);
  }

  lemma NonzeroMultiple(k: int, d: int)
    requires k != 0
    ensures Abs(k * d) >= Abs(d)
  {
    var gap := Abs(k) - 1;
    assert Abs(k * d) == Abs(k) * Abs(d) == gap * Abs(d) + Abs(d);
  }

  /** Dividing a product by its second factor gives the first back. */
  lemma TruncatedOfProduct(a: int, b: int)
    requires b != 0
    ensures Truncated(a * b, b) == a
  {
    var q := Truncated(a * b, b);
    TruncatedLaw(a * b, b);
    assert a * b - q * b == (a - q) * b;
    if a != q {
      NonzeroMultiple(a - q, b);
    }
  }

  lemma UnitQuotient(x: int, y: int)
    requires y == 1 || y == -1
    ensures Truncated(x, y) == (if y == 1 then x else -x)
  {
    Division(Abs(x), 1);
    assert Abs(x) / Abs(y) == Abs(x);
  }

  lemma MagnitudeOfQuotient(x: int, y: int)
    requires Abs(y) > 1
    ensures Abs(Truncated(x, y)) <= Abs(x) && (x != 0 ==> Abs(Truncated(x, y)) < Abs(x))
  {
    Division(Abs(x), Abs(y));
    if x != 0 {
      QuotientShrinks(Abs(x), Abs(y));
    } else {
      Doubling(0 / Abs(y), Abs(y));
    }
  }

  /** A truncated quotient of two 64-bit values leaves the range only for MIN / -1. */
  lemma TruncatedFits(a: int, b: int)
    requires Fits(a) && Fits(b) && b != 0
    ensures Fits(Truncated(a, b)) <==> !(a == MIN_INT64 && b == -1)
  {
    if Abs(b) > 1 {
      MagnitudeOfQuotient(a, b);
    } else {
      UnitQuotient(a, b);
    }
  }
}
