/** The configuration of one CAN channel, and the commands it allows. */
module CanChannels {
  import opened Options
  import opened Floats

  datatype Kind = MotorKind | ServoKind
  datatype Protocol = NoProtocol | Damiao
  datatype Mode = Mit | PositionVelocity | Velocity | PositionVelocityTorque

  datatype Channel = Channel(
    kind: Kind, protocol: Protocol, motorId: nat, feedbackId: nat, mode: Mode,
    reversed: bool, positionMinimum: Float, positionMaximum: Float, velocityMax: Float)

  /** What a motion frame commands: a speed, or a position with a speed limit. */
  datatype Payload = Speed(velocity: real) | Position(position: real, velocity: real)

  function Offset(mode: Mode): nat
  {
    match mode
    case Mit => 0x000
    case PositionVelocity => 0x100
    case Velocity => 0x200
    case PositionVelocityTorque => 0x300
  }

  /** The identifier of every frame to the motor on a channel. */
  function FrameId(c: Channel): nat { c.motorId + Offset(c.mode) }

  /** The stored values of one channel; `readable` says that all of them could be read. A motor
      has no position limits of its own, those of its feedback stand in for them. */
  datatype Stored = Stored(
    readable: bool, protocol: int, motorId: int, feedbackId: int, mode: int,
    reverse: Float, positionMinimum: Float, positionMaximum: Float, feedbackMaximum: Float,
    velocityMax: Float, torqueMax: Float)

  function ModeOf(value: int): Option<Mode>
  {
    match value
    case 1 => Some(Mit)
    case 2 => Some(PositionVelocity)
    case 3 => Some(Velocity)
    case 4 => Some(PositionVelocityTorque)
    case _ => None
  }

  /** Identifiers are kept in 16 bits. */
  function Narrow(value: int): nat { value % 0x10000 }

  predicate Positive(x: Float) { Less(ZERO, x) }

  predicate LimitsLoad(kind: Kind, s: Stored)
  {
    && (s.reverse == Finite(1.0) || s.reverse == Finite(-1.0))
    && Positive(s.feedbackMaximum) && Positive(s.velocityMax) && Positive(s.torqueMax)
    && (kind.ServoKind? ==> Less(s.positionMinimum, s.positionMaximum))
  }

  function LoadChannel(kind: Kind, s: Stored): (r: Option<Channel>)
    ensures r.Some? ==> r.value.kind == kind && Loaded(r.value)
    ensures r.Some? ==> (r.value.protocol.Damiao? <==> s.protocol == 1) && r.value.motorId == Narrow(s.motorId)
  {
    var mode := ModeOf(s.mode);
    var motorId := Narrow(s.motorId);
    if s.readable && (s.protocol == 0 || s.protocol == 1) && mode.Some? && motorId + Offset(mode.value) <= 0x7ff
       && Narrow(s.feedbackId) <= 0x7ff && LimitsLoad(kind, s) then
      Some(Channel(
        kind, if s.protocol == 1 then Damiao else NoProtocol, motorId, Narrow(s.feedbackId), mode.value,
        s.reverse == Finite(-1.0),
        if kind.ServoKind? then s.positionMinimum else Negated(s.feedbackMaximum),
        if kind.ServoKind? then s.positionMaximum else s.feedbackMaximum,
        s.velocityMax))
    else None
  }

  /** What holds of every channel that has been loaded. */
  predicate Loaded(c: Channel)
  {
    FrameId(c) <= 0x7ff && Positive(c.velocityMax) && Less(c.positionMinimum, c.positionMaximum)
  }

  function Directed(c: Channel, value: real): real { if c.reversed then -value else value }

  /** The point at the given ratio of the way from one limit to the other. */
  function Along(ratio: real, low: real, high: real): real { low + Product(ratio, high - low) }

  function Ratio(x: real): real { (x + 1.0) * 0.5 }

  /** Limits that are not finite, or further apart than a float can say, give no position. */
  predicate Spans(c: Channel)
  {
    c.positionMinimum.Finite? && c.positionMaximum.Finite?
        && OfReal(c.positionMaximum.value - c.positionMinimum.value).Finite?
  }

  /** The command for a normalised output: motors in velocity mode, servos in position mode,
      anything else, and anything not finite, cannot be encoded. */
  function PayloadOf(c: Channel, output: Float): (p: Option<Payload>)
    ensures output.NaN? ==> p.None?
  {
    var value := ConstrainUnit(output);
    if !value.Finite? || !c.velocityMax.Finite? then None
    else if c.kind.MotorKind? && c.mode.Velocity?
        then Some(Speed(Product(Directed(c, value.value), c.velocityMax.value)))
    else if c.kind.ServoKind? && c.mode.PositionVelocity? && Spans(c) then
      Some(Position(Along(Ratio(Directed(c, value.value)), c.positionMinimum.value, c.positionMaximum.value),
                    c.velocityMax.value))
    else None
  }

  /** The command respects the limits of the channel. */
  predicate WithinLimits(c: Channel, p: Payload)
  {
    c.velocityMax.Finite? &&
    match p
    case Speed(v) => -c.velocityMax.value <= v <= c.velocityMax.value
    case Position(x, v) =>
      Spans(c) && c.positionMinimum.value <= x <= c.positionMaximum.value && v == c.velocityMax.value
  }

  lemma AlongBound(ratio: real, low: real, high: real)
    requires 0.0 <= ratio <= 1.0 && low < high
    ensures low <= Along(ratio, low, high) <= high
  {
    NonNegative(ratio, high - low);
    NonNegative(1.0 - ratio, high - low);
    Complement(ratio, high - low);
  }

  lemma SpeedBound(x: real, limit: real)
    requires -1.0 <= x <= 1.0 && limit > 0.0
    ensures -limit <= Product(x, limit) <= limit
  {
    NonNegative(1.0 - x, limit);
    NonNegative(1.0 + x, limit);
    Complement(x, limit);
  }

  /** Whatever the output, a loaded channel is commanded within its limits. */
  lemma PayloadWithinLimits(c: Channel, output: Float)
    requires Loaded(c) && PayloadOf(c, output).Some?
    ensures WithinLimits(c, PayloadOf(c, output).value)
  {
    var x := Directed(c, ConstrainUnit(output).value);
    SpeedBound(x, c.velocityMax.value);
    if Spans(c) {
      AlongBound(Ratio(x), c.positionMinimum.value, c.positionMaximum.value);
    }
  }

  // ---------------------------------------------------------------------------
  // What the numbers come to.
  // ---------------------------------------------------------------------------

  /** What loads, exactly, and as what: modes 1 to 4 add steps of 0x100 to the identifier, the
      direction is 1 or -1, and a motor's positions are held within those of its feedback. */
  lemma LoadsExactly(kind: Kind, s: Stored)
    ensures LoadChannel(kind, s).Some? <==>
              && s.readable && 0 <= s.protocol <= 1 && 1 <= s.mode <= 4
              && s.motorId % 65536 + 256 * (s.mode - 1) <= 2047 && s.feedbackId % 65536 <= 2047
              && (s.reverse == Finite(1.0) || s.reverse == Finite(-1.0))
              && Less(ZERO, s.feedbackMaximum) && Less(ZERO, s.velocityMax) && Less(ZERO, s.torqueMax)
              && (kind.ServoKind? ==> Less(s.positionMinimum, s.positionMaximum))
    ensures LoadChannel(kind, s).Some? ==>
              var c := LoadChannel(kind, s).value;
              && c.kind == kind && (c.protocol.Damiao? <==> s.protocol == 1)
              && FrameId(c) == s.motorId % 65536 + 256 * (s.mode - 1) && c.feedbackId == s.feedbackId % 65536
              && (c.reversed <==> s.reverse == Finite(-1.0)) && c.velocityMax == s.velocityMax
              && (c.mode.Velocity? <==> s.mode == 3) && (c.mode.PositionVelocity? <==> s.mode == 2)
              && (kind.ServoKind? ==>
                    c.positionMinimum == s.positionMinimum && c.positionMaximum == s.positionMaximum)
              && (kind.MotorKind? && s.feedbackMaximum.Finite? ==>
                    && c.positionMinimum == Finite(-s.feedbackMaximum.value)
                    && c.positionMaximum == s.feedbackMaximum)
  {
  }

  /** A motor is commanded that share of its largest speed, the other way round if reversed. */
  lemma MotorCommand(c: Channel, output: Float, x: real)
    requires c.kind.MotorKind? && ActsAs(output, x)
    ensures PayloadOf(c, output).Some? <==> c.mode.Velocity? && c.velocityMax.Finite?
    ensures PayloadOf(c, output).Some? ==>
              var speed := x * c.velocityMax.value;
              PayloadOf(c, output).value == Speed(if c.reversed then -speed else speed)
  {
    if c.velocityMax.Finite? {
      Opposite(x, c.velocityMax.value);
    }
  }

  lemma Opposite(x: real, w: real)
    ensures (-x) * w == -(x * w)
  {
  }

  /** A servo is commanded the mean of its limits weighted by 1 - x and 1 + x, or by 1 + x and
      1 - x if reversed: the minimum at -1, the midpoint at 0, the maximum at 1. */
  lemma ServoCommand(c: Channel, output: Float, x: real)
    requires Loaded(c) && c.kind.ServoKind? && ActsAs(output, x)
    ensures PayloadOf(c, output).Some? <==>
              && c.mode.PositionVelocity? && c.velocityMax.Finite?
              && c.positionMinimum.Finite? && c.positionMaximum.Finite?
              && c.positionMaximum.value - c.positionMinimum.value <= MAX_FLOAT
    ensures PayloadOf(c, output).Some? ==>
              && PayloadOf(c, output).value.Position?
              && PayloadOf(c, output).value.velocity == c.velocityMax.value
              && var low, high, y := c.positionMinimum.value, c.positionMaximum.value, if c.reversed then -x else x;
                 var position := PayloadOf(c, output).value.position;
                 && 2.0 * position == (1.0 - y) * low + (1.0 + y) * high
                 && (y == -1.0 ==> position == low) && (y == 1.0 ==> position == high)
  {
    if Spans(c) {
      WeightedMean(Directed(c, x), c.positionMinimum.value, c.positionMaximum.value);
    }
  }

  lemma WeightedMean(y: real, low: real, high: real)
    ensures 2.0 * Along(Ratio(y), low, high) == (1.0 - y) * low + (1.0 + y) * high
  {
    var w := high - low;
    calc {
      2.0 * Along(Ratio(y), low, high);
      2.0 * low + 2.0 * (((y + 1.0) * 0.5) * w);
      2.0 * low + (y + 1.0) * w;
      2.0 * low + (y + 1.0) * high - (y + 1.0) * low;
      (1.0 - y) * low + (1.0 + y) * high;
    }
  }

  /** The more the output of a servo grows, the further it is to turn, or the less if reversed. */
  lemma ServoTurnsFurther(c: Channel, a: real, b: real)
    requires Loaded(c) && c.kind.ServoKind? && c.mode.PositionVelocity? && c.velocityMax.Finite? && Spans(c)
    requires -1.0 <= a < b <= 1.0
    ensures PayloadOf(c, Finite(a)).Some? && PayloadOf(c, Finite(b)).Some?
    ensures var p, q := PayloadOf(c, Finite(a)).value.position, PayloadOf(c, Finite(b)).value.position;
            if c.reversed then q < p else p < q
  {
    var low, high := c.positionMinimum.value, c.positionMaximum.value;
    ServoCommand(c, Finite(a), a);
    ServoCommand(c, Finite(b), b);
    if c.reversed {
      MeanGrows(-b, -a, low, high);
    } else {
      MeanGrows(a, b, low, high);
    }
  }

  lemma MeanGrows(a: real, b: real, low: real, high: real)
    requires a < b && low < high
    ensures (1.0 - a) * low + (1.0 + a) * high < (1.0 - b) * low + (1.0 + b) * high
  {
    var w := high - low;
    assert (1.0 - a) * low + (1.0 + a) * high == low + high + a * w;
    assert (1.0 - b) * low + (1.0 + b) * high == low + high + b * w;
    assert 0.0 < (b - a) * w;
  }
}
