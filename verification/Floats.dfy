/** Real arithmetic with overflow and the values a floating-point number can have besides. */
module Floats {

  datatype Float = Finite(value: real) | Infinite(negative: bool) | NaN

  const ZERO := Finite(0.0)

  /** The largest single-precision number. */
  const MAX_FLOAT := 340282346638528859811704183484516925440.0

  /** It has a significand of 24 ones and the exponent 127. */
  lemma LargestFloat()
    ensures MAX_FLOAT == 16777215.0 * 20282409603651670423947251286016.0
  {
  }

  function OfReal(x: real): Float
  {
    if x > MAX_FLOAT then Infinite(false) else if x < -MAX_FLOAT then Infinite(true) else Finite(x)
  }

  /** Comparisons with NaN are false. */
  predicate Less(a: Float, b: Float)
  {
    match a
    case Finite(x) => (b.Finite? && x < b.value) || b == Infinite(false)
    case Infinite(negative) => negative && (b.Finite? || b == Infinite(false))
    case NaN => false
  }

  function Negated(a: Float): Float
  {
    match a
    case Finite(x) => Finite(-x)
    case Infinite(negative) => Infinite(!negative)
    case NaN => NaN
  }

  function Plus(a: Float, b: Float): Float
  {
    if a.Finite? && b.Finite? then OfReal(a.value + b.value)
    else if a.NaN? || b.NaN? then NaN
    else if a.Finite? then b
    else if b.Finite? || a == b then a
    else NaN
  }

  function Product(a: real, b: real): real { a * b }

  lemma NonNegative(a: real, b: real)
    requires a >= 0.0 && b >= 0.0
    ensures Product(a, b) >= 0.0
  {
  }

  lemma Complement(x: real, w: real)
    ensures Product(1.0 - x, w) == w - Product(x, w) && Product(1.0 + x, w) == w + Product(x, w)
  {
  }

  /** A value acts as x: one beyond 1 or -1 as the nearer of the two, NaN as nothing. */
  predicate ActsAs(value: Float, x: real)
  {
    match value
    case Finite(v) => (-1.0 <= v <= 1.0 && x == v) || (v > 1.0 && x == 1.0) || (v < -1.0 && x == -1.0)
    case Infinite(negative) => x == if negative then -1.0 else 1.0
    case NaN => false
  }

  /** Comparisons with NaN are false, so it passes through. */
  function ConstrainUnit(x: Float): (r: Float)
    ensures x.Finite? ==> r.Finite? && -1.0 <= r.value <= 1.0
    ensures if x.NaN? then r.NaN? else r.Finite? && ActsAs(x, r.value)
  {
    match x
    case Finite(v) => if v < -1.0 then Finite(-1.0) else if v > 1.0 then Finite(1.0) else x
    case Infinite(negative) => if negative then Finite(-1.0) else Finite(1.0)
    case NaN => NaN
  }
}
