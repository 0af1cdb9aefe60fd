/** The calibration that maps a raw RC channel to -1..1, over the reals. */
module RcConfig {

  /** Pulse widths are 16-bit numbers. */
  datatype Calibration = Calibration(minimum: nat, maximum: nat, trim: nat, deadzone: nat, reversed: bool)

  /** Limits on both sides of the trim. */
  predicate Ordered(c: Calibration) { c.minimum < c.trim < c.maximum }

  /** What the module demands of the channels of the four sticks. */
  predicate Valid(c: Calibration)
  {
    Ordered(c) && c.deadzone < c.trim - c.minimum && c.deadzone < c.maximum - c.trim
  }

  function Lower(c: Calibration): real { c.trim as real - c.deadzone as real }

  function Upper(c: Calibration): real { c.trim as real + c.deadzone as real }

  function Constrain(x: real): (r: real)
    ensures -1.0 <= r <= 1.0
    ensures -1.0 <= x <= 1.0 ==> r == x
  {
    if x < -1.0 then -1.0 else if x > 1.0 then 1.0 else x
  }

  function Ratio(x: real, width: real): real
    requires width > 0.0
  {
    x / width
  }

  /** Zero in the deadband, and a slope of its own on each side of it. */
  function Slope(c: Calibration, value: real): real
  {
    if value < Lower(c) && Lower(c) > c.minimum as real then -Ratio(Lower(c) - value, Lower(c) - c.minimum as real)
    else if value > Upper(c) && c.maximum as real > Upper(c) then Ratio(value - Upper(c), c.maximum as real - Upper(c))
    else 0.0
  }

  function Normalize(raw: nat, c: Calibration): (r: real)
    ensures -1.0 <= r <= 1.0
  {
    if !Ordered(c) then 0.0
    else
      var normalized := Constrain(Slope(c, raw as real));
      if c.reversed then -normalized else normalized
  }

  /** The sign of a channel's direction. */
  function Direction(c: Calibration): real { if c.reversed then -1.0 else 1.0 }

  lemma RatioMonotone(x: real, y: real, width: real)
    requires width > 0.0
    ensures x <= y ==> Ratio(x, width) <= Ratio(y, width)
    ensures x < y ==> Ratio(x, width) < Ratio(y, width)
  {
    assert Ratio(y, width) - Ratio(x, width) == (y - x) / width;
  }

  lemma RatioSign(x: real, width: real)
    requires width > 0.0
    ensures x > 0.0 <==> Ratio(x, width) > 0.0
    ensures x >= width <==> Ratio(x, width) >= 1.0
  {
    assert Ratio(width, width) == 1.0 && Ratio(0.0, width) == 0.0;
    RatioMonotone(x, width, width);
    RatioMonotone(width, x, width);
    RatioMonotone(x, 0.0, width);
    RatioMonotone(0.0, x, width);
  }

  lemma SlopeMonotone(c: Calibration, x: real, y: real)
    requires x <= y
    ensures Slope(c, x) <= Slope(c, y)
  {
    var low, high := Lower(c) - c.minimum as real, c.maximum as real - Upper(c);
    if low > 0.0 {
      RatioMonotone(Lower(c) - y, Lower(c) - x, low);
      RatioSign(Lower(c) - x, low);
      RatioSign(Lower(c) - y, low);
    }
    if high > 0.0 {
      RatioMonotone(x - Upper(c), y - Upper(c), high);
      RatioSign(x - Upper(c), high);
      RatioSign(y - Upper(c), high);
    }
  }

  lemma ConstrainMonotone(x: real, y: real)
    requires x <= y
    ensures Constrain(x) <= Constrain(y)
  {
  }

  /** For every calibration, valid or not, a larger pulse never gives a smaller value, or never a
      larger one when the channel is reversed. */
  lemma Monotone(a: nat, b: nat, c: Calibration)
    requires a <= b
    ensures if c.reversed then Normalize(a, c) >= Normalize(b, c) else Normalize(a, c) <= Normalize(b, c)
  {
    SlopeMonotone(c, a as real, b as real);
    ConstrainMonotone(Slope(c, a as real), Slope(c, b as real));
  }

  /** With a valid calibration the value is zero exactly on the deadband. */
  lemma ZeroOnDeadband(raw: nat, c: Calibration)
    requires Valid(c)
    ensures Normalize(raw, c) == 0.0 <==> c.trim - c.deadzone <= raw <= c.trim + c.deadzone
  {
    SlopeSigns(raw, c);
  }

  lemma SlopeSigns(raw: nat, c: Calibration)
    requires Valid(c)
    ensures Slope(c, raw as real) < 0.0 <==> raw < c.trim - c.deadzone
    ensures Slope(c, raw as real) > 0.0 <==> raw > c.trim + c.deadzone
    ensures Slope(c, raw as real) <= -1.0 <==> raw <= c.minimum
    ensures Slope(c, raw as real) >= 1.0 <==> raw >= c.maximum
  {
    var value := raw as real;
    RatioSign(Lower(c) - value, Lower(c) - c.minimum as real);
    RatioSign(value - Upper(c), c.maximum as real - Upper(c));
  }

  /** And it is one extreme exactly at or below the minimum, the other at or above the maximum. */
  lemma ExtremesAtLimits(raw: nat, c: Calibration)
    requires Valid(c)
    ensures Normalize(raw, c) == -Direction(c) <==> raw <= c.minimum
    ensures Normalize(raw, c) == Direction(c) <==> raw >= c.maximum
  {
    SlopeSigns(raw, c);
  }

  /** In between it grows in proportion, from nothing at the edge of the deadband to one at the limit. */
  lemma LinearBetween(raw: nat, c: Calibration)
    requires Valid(c) && c.minimum <= raw <= c.maximum
    ensures var value, edge := Direction(c) * Normalize(raw, c), if raw < c.trim then c.trim - c.deadzone
            else c.trim + c.deadzone;
            && (raw < c.trim - c.deadzone ==> value * (edge - c.minimum) as real == (raw - edge) as real)
            && (raw > c.trim + c.deadzone ==> value * (c.maximum - edge) as real == (raw - edge) as real)
  {
    SlopeSigns(raw, c);
  }

  /** The condition is needed: when the deadband reaches the minimum, the lower half is dead, and when
      it reaches the maximum the upper half is; and a calibration out of order gives nothing at all. */
  lemma WideDeadbandIsDead(raw: nat, c: Calibration)
    requires c.minimum < c.trim < c.maximum ==>
               || (c.deadzone >= c.trim - c.minimum && raw <= c.trim)
               || (c.deadzone >= c.maximum - c.trim && raw >= c.trim)
    ensures Normalize(raw, c) == 0.0
  {
  }
}
