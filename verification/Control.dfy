/** From manual input to actuator targets: RC loss detection, the choice of the target, and
    the allocation to motors and servos. */
module Control {
  import opened Options
  import opened MixingOutputs
  import opened Floats

  datatype Manual = Manual(timestampSample: Time, yaw: Float, throttle: Float, valid: bool)
  datatype FailsafeStatus = FailsafeStatus(timestamp: Time, active: bool)
  datatype Setpoint = Setpoint(
    timestamp: Time, timestampSample: Time, speed: Float, steering: Float, valid: bool, failsafe: bool)

  const NO_MANUAL := Manual(0, ZERO, ZERO, false)

  /** Valid and sampled, not in the future. */
  predicate Usable(m: Manual, now: Time)
  {
    m.valid && m.timestampSample != 0 && m.timestampSample <= now
  }

  // ---------------------------------------------------------------------------
  // Failsafe.
  // ---------------------------------------------------------------------------

  function Detect(m: Manual, timeout: Time, now: Time): FailsafeStatus
  {
    FailsafeStatus(now, !(Usable(m, now) && now - m.timestampSample <= timeout))
  }

  predicate TimeoutAllowed(seconds: Float) { seconds.Finite? && 0.05 <= seconds.value <= 10.0 }

  /** A timeout between 50 ms and 10 s is taken over, any other refused. */
  function TimeoutAfter(timeout: Time, seconds: Option<Float>): (r: Time)
  {
    if seconds.Some? && TimeoutAllowed(seconds.value) then (seconds.value.value * 1000000.0).Floor else timeout
  }

  class Failsafe {
    var manual: Manual
    var status: FailsafeStatus
    var timeout: Time

    constructor ()
      ensures manual == NO_MANUAL && status == FailsafeStatus(0, false) && timeout == 500_000
    {
      manual, status, timeout := NO_MANUAL, FailsafeStatus(0, false), 500_000;
    }

    method RefreshPolicy(seconds: Float) returns (ok: bool)
      modifies this`timeout
      ensures ok <==> seconds.Finite? && 0.05 <= seconds.value <= 10.0
      ensures timeout == TimeoutAfter(old(timeout), Some(seconds))
      ensures if ok then timeout as real <= 1000000.0 * seconds.value < timeout as real + 1.0
              else timeout == old(timeout)
    {
      if !seconds.Finite? || seconds.value < 0.05 || seconds.value > 10.0 {
        return false;
      }
      timeout := (seconds.value * 1000000.0).Floor;
      ok := true;
    }

    method Update(received: Option<Manual>, seconds: Option<Float>, now: Time) returns (published: FailsafeStatus)
      modifies this
      ensures manual == received.GetOr(old(manual))
      ensures published == status == Detect(manual, timeout, now)
      ensures published.timestamp == now
      ensures !published.active <==>
                manual.valid && 0 < manual.timestampSample <= now <= manual.timestampSample + timeout
      ensures timeout == TimeoutAfter(old(timeout), seconds)
    {
      manual := received.GetOr(manual);
      if seconds.Some? {
        var _ := RefreshPolicy(seconds.value);
      }
      status := FailsafeStatus(now, !(Usable(manual, now) && now - manual.timestampSample <= timeout));
      published := status;
    }
  }

  // ---------------------------------------------------------------------------
  // RobotControl.
  // ---------------------------------------------------------------------------

  /** What to do with speed and with steering during a failsafe: 0 holds, 1 goes neutral,
      2 takes the fixed value. */
  datatype Policy = Policy(motorAction: int, motorValue: Float, steeringAction: int, steeringValue: Float)

  /** What is finite is held within one, anything else is neutral. */
  predicate Settles(value: Float, r: Float)
  {
    r.Finite? && if value.Finite? then ActsAs(value, r.value) else r.value == 0.0
  }

  /** Action 0 holds the last value, 2 takes the fixed one, and any other number goes neutral. */
  predicate Chooses(action: int, last: Float, fixedValue: Float, r: Float)
  {
    && (action == 0 ==> Settles(last, r))
    && (action == 2 ==> Settles(fixedValue, r))
    && (action != 0 && action != 2 ==> r == ZERO)
  }

  function ApplyAction(action: int, last: Float, fixedValue: Float): (r: Float)
    ensures r.Finite? && -1.0 <= r.value <= 1.0
    ensures Chooses(action, last, fixedValue, r)
  {
    var result := if action == 0 then last else if action == 2 then fixedValue else ZERO;
    if !result.Finite? then ZERO else ConstrainUnit(result)
  }

  datatype Inputs = Inputs(manual: Manual, lastValid: Manual, haveValid: bool, failsafe: FailsafeStatus,
                           failsafeSeen: bool)

  const NO_INPUTS := Inputs(NO_MANUAL, NO_MANUAL, false, FailsafeStatus(0, true), false)

  function Considered(i: Inputs, now: Time): Inputs
  {
    if Usable(i.manual, now) then i.(lastValid := i.manual, haveValid := true) else i
  }

  predicate FailsafeActive(i: Inputs, now: Time)
  {
    !i.failsafeSeen || !Fresh(i.failsafe.timestamp, now) || i.failsafe.active
  }

  function Target(i: Inputs, p: Policy, now: Time): Setpoint
  {
    var active := FailsafeActive(i, now);
    if !i.haveValid then Setpoint(now, 0, ZERO, ZERO, false, active)
    else
      Setpoint(
        now, i.lastValid.timestampSample,
        if active then ApplyAction(p.motorAction, i.lastValid.throttle, p.motorValue) else i.lastValid.throttle,
        if active then ApplyAction(p.steeringAction, i.lastValid.yaw, p.steeringValue) else i.lastValid.yaw,
        true, active)
  }

  /** What the target is: the latest usable input as it is, or what the two actions make of it while
      the failsafe counts as active; nothing valid before there was an input. */
  lemma TargetExactly(i: Inputs, p: Policy, now: Time)
    ensures var t := Target(i, p, now);
            && t.timestamp == now && t.valid == i.haveValid
            && (t.failsafe <==>
                 || !i.failsafeSeen || i.failsafe.active
                 || !(0 < i.failsafe.timestamp <= now <= i.failsafe.timestamp + 500_000))
            && if !i.haveValid then t.speed == ZERO == t.steering && t.timestampSample == 0
               else
                 && t.timestampSample == i.lastValid.timestampSample
                 && if t.failsafe then
                      && Chooses(p.motorAction, i.lastValid.throttle, p.motorValue, t.speed)
                      && Chooses(p.steeringAction, i.lastValid.yaw, p.steeringValue, t.steering)
                    else t.speed == i.lastValid.throttle && t.steering == i.lastValid.yaw
  {
  }

  class RobotControl {
    var manual: Manual
    var lastValidManual: Manual
    var failsafe: FailsafeStatus
    var setpoint: Setpoint
    var haveValidInput: bool
    var failsafeSeen: bool
    var policy: Policy

    function State(): Inputs
      reads this
    {
      Inputs(manual, lastValidManual, haveValidInput, failsafe, failsafeSeen)
    }

    constructor (policy: Policy)
      ensures State() == NO_INPUTS && this.policy == policy && setpoint == Setpoint(0, 0, ZERO, ZERO, false, false)
    {
      manual, lastValidManual, haveValidInput := NO_MANUAL, NO_MANUAL, false;
      failsafe, failsafeSeen := FailsafeStatus(0, true), false;
      setpoint := Setpoint(0, 0, ZERO, ZERO, false, false);
      this.policy := policy;
    }

    method Update(now: Time, newPolicy: Option<Policy>, received: Option<Manual>, status: Option<FailsafeStatus>)
      returns (published: Setpoint)
      modifies this
      ensures policy == newPolicy.GetOr(old(policy))
      ensures State() == Considered(
                old(State()).(manual := received.GetOr(old(manual)), failsafe := status.GetOr(old(failsafe)),
                              failsafeSeen := status.Some? || old(failsafeSeen)), now)
      ensures published == setpoint == Target(State(), policy, now)
      ensures manual == received.GetOr(old(manual)) && failsafe == status.GetOr(old(failsafe))
      ensures failsafeSeen == (old(failsafeSeen) || status.Some?)
      ensures var usable := manual.valid && 0 < manual.timestampSample <= now;
              && lastValidManual == (if usable then manual else old(lastValidManual))
              && haveValidInput == (usable || old(haveValidInput))
    {
      policy := newPolicy.GetOr(policy);
      manual := received.GetOr(manual);
      if status.Some? {
        failsafe, failsafeSeen := status.value, true;
      }
      if manual.valid && manual.timestampSample != 0 && manual.timestampSample <= now {
        lastValidManual, haveValidInput := manual, true;
      }
      var active := !failsafeSeen || !Fresh(failsafe.timestamp, now) || failsafe.active;
      setpoint := setpoint.(timestamp := now, failsafe := active);
      if !haveValidInput {
        setpoint := setpoint.(speed := ZERO, steering := ZERO, timestampSample := 0, valid := false);
      } else {
        var speed := if active then ApplyAction(policy.motorAction, lastValidManual.throttle, policy.motorValue)
                     else lastValidManual.throttle;
        var steering := if active then ApplyAction(policy.steeringAction, lastValidManual.yaw, policy.steeringValue)
                        else lastValidManual.yaw;
        setpoint := setpoint.(timestampSample := lastValidManual.timestampSample, speed := speed, steering := steering,
                              valid := true);
      }
      published := setpoint;
    }
  }

  // ---------------------------------------------------------------------------
  // Allocation.
  // ---------------------------------------------------------------------------

  datatype Row = Row(throttle: real, yaw: real)

  /** The coefficients of the two-wheel model, as read; None if some could not be. */
  datatype Coefficients = Coefficients(throttleFront: Float, throttleRear: Float, yawFront: Float, yawRear: Float)

  const NO_ROWS := [Row(0.0, 0.0), Row(0.0, 0.0), Row(0.0, 0.0), Row(0.0, 0.0)]

  /** Motors answer to throttle only and servos to yaw only. */
  function MatrixOf(c: Coefficients): Option<seq<Row>>
  {
    if c.throttleFront.Finite? && c.throttleRear.Finite? && c.yawFront.Finite? && c.yawRear.Finite? then
      Some([Row(c.throttleFront.value, 0.0), Row(c.throttleRear.value, 0.0), Row(0.0, c.yawFront.value),
            Row(0.0, c.yawRear.value)])
    else None
  }

  datatype Allocator = Allocator(valid: bool, rows: seq<Row>)

  ghost predicate MotorsIgnoreYaw(rows: seq<Row>)
  {
    |rows| == 4 && rows[0].yaw == 0.0 && rows[1].yaw == 0.0
  }

  /** A matrix that does not load leaves the old one in place, marked invalid. */
  function Refreshed(a: Allocator, c: Option<Coefficients>): (r: Allocator)
    ensures MotorsIgnoreYaw(a.rows) ==> MotorsIgnoreYaw(r.rows)
  {
    var rows := if c.Some? then MatrixOf(c.value) else None;
    if rows.Some? then Allocator(true, rows.value) else a.(valid := false)
  }

  function Times(k: real, x: real): Float
  {
    if k == 0.0 || x == 0.0 then ZERO else OfReal(Product(k, x))
  }

  function Response(row: Row, throttle: real, yaw: real): Float
  {
    Plus(Times(row.throttle, throttle), Times(row.yaw, yaw))
  }

  /** The matrix times the input. */
  function Responses(rows: seq<Row>, throttle: real, yaw: real): (r: seq<Float>)
    requires |rows| == 4
    ensures |r| == 4
  {
    [Response(rows[0], throttle, yaw), Response(rows[1], throttle, yaw),
     Response(rows[2], throttle, yaw), Response(rows[3], throttle, yaw)]
  }

  predicate Allocatable(a: Allocator, throttle: Float, yaw: Float, valid: bool)
  {
    a.valid && valid && throttle.Finite? && yaw.Finite?
  }

  /** Only the first two of eight controls are in use. */
  predicate Padded(control: seq<Float>)
  {
    |control| == 8 && forall r :: 2 <= r < 8 ==> control[r] == ZERO
  }

  predicate AllFinite(responses: seq<Float>)
  {
    forall r :: 0 <= r < |responses| ==> responses[r].Finite?
  }

  /** The actuator messages for given responses: nothing valid, or one bounded control a row. */
  predicate Carry(motors: Actuators, servos: Actuators, usable: bool, responses: seq<Float>, now: Time,
                  sample: Time)
    requires |responses| == 4
  {
    && motors.timestamp == now == servos.timestamp
    && motors.timestampSample == servos.timestampSample == (if usable && !AllFinite(responses) then 0 else sample)
    && Padded(motors.control) && Padded(servos.control)
    && motors.valid == servos.valid == (usable && AllFinite(responses))
    && motors.count == servos.count == (if usable && !AllFinite(responses) then 0 else 2)
    && (if motors.valid then
          && (forall r :: 0 <= r < 2 ==> motors.control[r] == ConstrainUnit(responses[r]))
          && (forall r :: 0 <= r < 2 ==> servos.control[r] == ConstrainUnit(responses[2 + r]))
        else motors.control == NEUTRAL == servos.control)
  }

  predicate IsAllocation(a: Allocator, throttle: Float, yaw: Float, valid: bool, now: Time, sample: Time,
                         motors: Actuators, servos: Actuators)
    requires |a.rows| == 4
  {
    if Allocatable(a, throttle, yaw, valid)
        then Carry(motors, servos, true, Responses(a.rows, throttle.value, yaw.value), now, sample)
    else Carry(motors, servos, false, NEUTRAL[..4], now, sample)
  }

  class Allocation {
    var rows: seq<Row>
    var valid: bool

    constructor ()
      ensures rows == NO_ROWS && !valid
    {
      rows, valid := NO_ROWS, false;
    }

    method UpdateParameters(coefficients: Option<Coefficients>) returns (ok: bool)
      modifies this
      ensures Allocator(valid, rows) == Refreshed(old(Allocator(valid, rows)), coefficients) && ok == valid
    {
      valid := coefficients.Some? && MatrixOf(coefficients.value).Some?;
      if valid {
        rows := MatrixOf(coefficients.value).value;
      }
      ok := valid;
    }

    /** Both motors of the model may reverse. Results carry the time of publication. */
    method Allocate(throttle: Float, yaw: Float, inputValid: bool, now: Time, sample: Time)
      returns (motors: Actuators, servos: Actuators)
      requires |rows| == 4
      ensures IsAllocation(Allocator(valid, rows), throttle, yaw, inputValid, now, sample, motors, servos)
    {
      if !valid || !inputValid || !throttle.Finite? || !yaw.Finite? {
        motors, servos := Actuators(now, sample, false, 2, NEUTRAL), Actuators(now, sample, false, 2, NEUTRAL);
        return;
      }
      motors, servos := AllocateRows(Responses(rows, throttle.value, yaw.value), now, sample);
    }

    /** The row loop: one response that overflows discards everything. */
    static method AllocateRows(responses: seq<Float>, now: Time, sample: Time)
      returns (motors: Actuators, servos: Actuators)
      requires |responses| == 4
      ensures Carry(motors, servos, true, responses, now, sample)
    {
      var m, s := NEUTRAL, NEUTRAL;
      for row := 0 to 4
        invariant Padded(m) && Padded(s)
        invariant forall r :: 0 <= r < row ==> responses[r].Finite?
        invariant forall r :: 0 <= r < 2 && r < row ==> m[r] == ConstrainUnit(responses[r])
        invariant forall r :: 0 <= r < 2 && 2 + r < row ==> s[r] == ConstrainUnit(responses[2 + r])
      {
        if !responses[row].Finite? {
          return Actuators(now, 0, false, 0, NEUTRAL), Actuators(now, 0, false, 0, NEUTRAL);
        }
        if row < 2 {
          m := m[row := ConstrainUnit(responses[row])];
        } else {
          s := s[row - 2 := ConstrainUnit(responses[row])];
        }
      }
      motors, servos := Actuators(now, sample, true, 2, m), Actuators(now, sample, true, 2, s);
    }
  }

  class ControlAllocator {
    const modelId: int
    const allocation: Allocation
    var setpoint: Setpoint
    var modelValid: bool

    constructor (modelId: int, allocation: Allocation)
      ensures this.modelId == modelId && this.allocation == allocation && modelValid
      ensures setpoint == Setpoint(0, 0, ZERO, ZERO, false, false)
    {
      this.modelId, this.allocation := modelId, allocation;
      setpoint, modelValid := Setpoint(0, 0, ZERO, ZERO, false, false), true;
    }

    /** One run: a stale or invalid target, or a changed model number, yields nothing valid. */
    method Run(selected: Option<int>, coefficients: Option<Coefficients>, now: Time, received: Option<Setpoint>)
      returns (motors: Actuators, servos: Actuators)
      requires |allocation.rows| == 4
      modifies this, allocation
      ensures |allocation.rows| == 4 && setpoint == received.GetOr(old(setpoint))
      ensures selected.None? ==> modelValid == old(modelValid)
      ensures selected.Some? ==> modelValid == (selected.value == modelId && allocation.valid)
      ensures Allocator(allocation.valid, allocation.rows) ==
              if selected == Some(modelId)
                  then Refreshed(old(Allocator(allocation.valid, allocation.rows)), coefficients)
              else old(Allocator(allocation.valid, allocation.rows))
      ensures IsAllocation(
                Allocator(allocation.valid, allocation.rows), setpoint.speed, setpoint.steering,
                modelValid && setpoint.valid && Fresh(setpoint.timestamp, now), now, setpoint.timestampSample, motors,
                servos)
    {
      if selected.Some? {
        modelValid := selected.value == modelId;
        if modelValid {
          modelValid := allocation.UpdateParameters(coefficients);
        }
      }
      setpoint := received.GetOr(setpoint);
      var usable := modelValid && setpoint.valid && Fresh(setpoint.timestamp, now);
      motors, servos := allocation.Allocate(setpoint.speed, setpoint.steering, usable, now, setpoint.timestampSample);
    }
  }

  lemma MotorResponse(rows: seq<Row>, throttle: real, yaw: real, i: nat)
    requires MotorsIgnoreYaw(rows) && i < 2
    ensures throttle == 0.0 ==> Responses(rows, throttle, yaw)[i] == ZERO
  {
  }

  lemma PlusZero(x: real)
    ensures Plus(OfReal(x), ZERO) == OfReal(x) == Plus(ZERO, OfReal(x))
  {
  }

  lemma TimesZero(k: real, x: real)
    ensures Times(0.0, x) == ZERO && Times(k, x) == OfReal(Product(k, x))
  {
  }

  /** With coefficients that load, front and rear wheels answer to throttle and front and rear
      steering to yaw, each by its own coefficient. */
  lemma EachByItsCoefficient(a: Allocator, c: Coefficients, throttle: real, yaw: real)
    requires MatrixOf(c).Some?
    ensures Responses(Refreshed(a, Some(c)).rows, throttle, yaw) ==
            [OfReal(Product(c.throttleFront.value, throttle)), OfReal(Product(c.throttleRear.value, throttle)),
             OfReal(Product(c.yawFront.value, yaw)), OfReal(Product(c.yawRear.value, yaw))]
  {
    var k, l, m, n := c.throttleFront.value, c.throttleRear.value, c.yawFront.value, c.yawRear.value;
    TimesZero(k, throttle);
    TimesZero(l, throttle);
    TimesZero(m, yaw);
    TimesZero(n, yaw);
    PlusZero(Product(k, throttle));
    PlusZero(Product(l, throttle));
    PlusZero(Product(m, yaw));
    PlusZero(Product(n, yaw));
  }

  /** The product can be said in a float. */
  predicate InRange(k: real, x: real) { -MAX_FLOAT <= k * x <= MAX_FLOAT }

  /** The control is that share of the input, held within one. */
  predicate Gets(control: Float, k: real, x: real) { Settles(Finite(k * x), control) }

  /** Front and rear motor get their coefficients' share of the throttle, front and rear servo that of
      the yaw, and the other six controls of either message are zero. */
  predicate SharesOut(c: Coefficients, throttle: real, yaw: real, motors: Actuators, servos: Actuators)
    requires MatrixOf(c).Some?
  {
    && |motors.control| == |servos.control| == 8
    && Gets(motors.control[0], c.throttleFront.value, throttle)
    && Gets(motors.control[1], c.throttleRear.value, throttle)
    && Gets(servos.control[0], c.yawFront.value, yaw) && Gets(servos.control[1], c.yawRear.value, yaw)
    && forall i :: 2 <= i < 8 ==> motors.control[i] == ZERO == servos.control[i]
  }

  /** What an allocation with coefficients that load comes to: valid messages exactly when the inputs
      are valid and finite and no product overflows, and then everything gets its share. */
  lemma AllocatesShares(a: Allocator, c: Coefficients, throttle: Float, yaw: Float, valid: bool, now: Time,
                        sample: Time, motors: Actuators, servos: Actuators)
    requires MatrixOf(c).Some? && |a.rows| == 4
    requires IsAllocation(Refreshed(a, Some(c)), throttle, yaw, valid, now, sample, motors, servos)
    ensures motors.timestamp == servos.timestamp == now && motors.valid == servos.valid
    ensures motors.valid <==>
              && valid && throttle.Finite? && yaw.Finite?
              && InRange(c.throttleFront.value, throttle.value) && InRange(c.throttleRear.value, throttle.value)
              && InRange(c.yawFront.value, yaw.value) && InRange(c.yawRear.value, yaw.value)
    ensures motors.valid ==>
              && motors.timestampSample == servos.timestampSample == sample && motors.count == servos.count == 2
              && SharesOut(c, throttle.value, yaw.value, motors, servos)
  {
    if valid && throttle.Finite? && yaw.Finite? {
      var responses := Responses(Refreshed(a, Some(c)).rows, throttle.value, yaw.value);
      SharesOf(a, c, throttle.value, yaw.value, responses);
      CarriesShares(c, throttle.value, yaw.value, responses, motors, servos, now, sample);
    }
  }

  /** The coefficients load exactly when all of them are finite. */
  lemma LoadsIfFinite(c: Coefficients)
    ensures MatrixOf(c).Some? <==>
              c.throttleFront.Finite? && c.throttleRear.Finite? && c.yawFront.Finite? && c.yawRear.Finite?
  {
  }

  lemma CarriesShares(c: Coefficients, throttle: real, yaw: real, responses: seq<Float>, motors: Actuators,
                      servos: Actuators, now: Time, sample: Time)
    requires MatrixOf(c).Some? && |responses| == 4 && Carry(motors, servos, true, responses, now, sample)
    requires IsShare(responses[0], c.throttleFront.value, throttle)
    requires IsShare(responses[1], c.throttleRear.value, throttle)
    requires IsShare(responses[2], c.yawFront.value, yaw) && IsShare(responses[3], c.yawRear.value, yaw)
    ensures motors.valid <==>
              && InRange(c.throttleFront.value, throttle) && InRange(c.throttleRear.value, throttle)
              && InRange(c.yawFront.value, yaw) && InRange(c.yawRear.value, yaw)
    ensures motors.valid ==> SharesOut(c, throttle, yaw, motors, servos)
  {
    CarriedShares(motors, servos, responses, now, sample);
    if motors.valid {
      ShareCarried(motors.control[0], responses[0], c.throttleFront.value, throttle);
      ShareCarried(motors.control[1], responses[1], c.throttleRear.value, throttle);
      ShareCarried(servos.control[0], responses[2], c.yawFront.value, yaw);
      ShareCarried(servos.control[1], responses[3], c.yawRear.value, yaw);
    }
  }

  lemma ShareCarried(control: Float, r: Float, k: real, x: real)
    requires r.Finite? && IsShare(r, k, x) && Settles(r, control)
    ensures Gets(control, k, x) && InRange(k, x)
  {
  }

  lemma SharesOf(a: Allocator, c: Coefficients, throttle: real, yaw: real, responses: seq<Float>)
    requires MatrixOf(c).Some? && responses == Responses(Refreshed(a, Some(c)).rows, throttle, yaw)
    ensures IsShare(responses[0], c.throttleFront.value, throttle)
    ensures IsShare(responses[1], c.throttleRear.value, throttle)
    ensures IsShare(responses[2], c.yawFront.value, yaw) && IsShare(responses[3], c.yawRear.value, yaw)
  {
    EachByItsCoefficient(a, c, throttle, yaw);
    Share(c.throttleFront.value, throttle);
    Share(c.throttleRear.value, throttle);
    Share(c.yawFront.value, yaw);
    Share(c.yawRear.value, yaw);
  }

  /** The product, or not finite if that overflows. */
  predicate IsShare(r: Float, k: real, x: real) { if InRange(k, x) then r == Finite(k * x) else r.Infinite? }

  lemma Share(k: real, x: real)
    ensures IsShare(OfReal(Product(k, x)), k, x)
  {
  }

  lemma CarriedShares(motors: Actuators, servos: Actuators, responses: seq<Float>, now: Time, sample: Time)
    requires |responses| == 4 && Carry(motors, servos, true, responses, now, sample)
    ensures motors.valid <==>
              responses[0].Finite? && responses[1].Finite? && responses[2].Finite? && responses[3].Finite?
    ensures motors.valid ==>
              && Settles(responses[0], motors.control[0]) && Settles(responses[1], motors.control[1])
              && Settles(responses[2], servos.control[0]) && Settles(responses[3], servos.control[1])
  {
    if motors.valid {
      assert motors.control[1] == ConstrainUnit(responses[1]) && servos.control[1] == ConstrainUnit(responses[3]);
    }
  }

  lemma CarriedControl(motors: Actuators, servos: Actuators, usable: bool, responses: seq<Float>, now: Time,
                       sample: Time, i: nat)
    requires |responses| == 4 && Carry(motors, servos, usable, responses, now, sample)
    requires i < 8 && motors.control[i] != ZERO
    ensures usable && i < 2 && responses[i] != ZERO
    ensures motors.timestampSample == sample && motors.control[i] == ConstrainUnit(responses[i])
  {
  }

  /** A motor that is driven away from zero has throttle behind it: yaw alone moves no motor. */
  lemma MotorNeedsThrottle(a: Allocator, throttle: Float, yaw: Float, valid: bool, now: Time, sample: Time,
                           motors: Actuators, servos: Actuators, i: nat)
    requires MotorsIgnoreYaw(a.rows) && IsAllocation(a, throttle, yaw, valid, now, sample, motors, servos)
    requires i < |motors.control| && i < 8 && motors.control[i] != ZERO
    ensures a.valid && valid && throttle.Finite? && throttle != ZERO && yaw.Finite?
    ensures i < 2 && motors.timestampSample == sample
            && motors.control[i] == ConstrainUnit(Responses(a.rows, throttle.value, yaw.value)[i])
  {
    if Allocatable(a, throttle, yaw, valid) {
      if i < 2 {
        MotorResponse(a.rows, throttle.value, yaw.value, i);
      }
      CarriedControl(motors, servos, true, Responses(a.rows, throttle.value, yaw.value), now, sample, i);
    } else {
      CarriedControl(motors, servos, false, NEUTRAL[..4], now, sample, i);
    }
  }
}
