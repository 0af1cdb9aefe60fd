/** The stages from RC samples to the output driver as one system. Every stage samples its
    clock, reads the topics and publishes in steps of its own, in any order and at any speed;
    nothing is assumed of the clock values. */
module Pipeline {
  import opened Options
  import opened MixingOutputs
  import opened Floats
  import opened Control

  /** `samples` are all published so far and `loads` all coefficients given to the allocator.
      `judged` and `heldJudged` are the sample times behind the failsafe status on the topic and
      behind the one RobotControl holds; the messages themselves do not carry them. */
  datatype World = World(
    samples: set<Manual>, loads: set<Coefficients>,
    manual: Option<Manual>, failsafe: Option<FailsafeStatus>, judged: Time, heldJudged: Time,
    setpoint: Option<Setpoint>, motors: Option<Actuators>,
    detectorManual: Manual, detectorNow: Time,
    inputs: Inputs, controlNow: Time,
    allocator: Allocator, target: Setpoint, allocatorNow: Time,
    received: Actuators)

  const NO_SETPOINT := Setpoint(0, 0, ZERO, ZERO, false, false)
  const NO_ALLOCATOR := Allocator(false, NO_ROWS)

  const START :=
    World({}, {}, None, None, 0, 0, None, None, NO_MANUAL, 0, NO_INPUTS, 0, NO_ALLOCATOR, NO_SETPOINT, 0, NO_ACTUATORS)

  /** Stopping a stage publishes its safe message and forgets its state, as a restart would. */
  datatype Step =
    | PublishManual(m: Manual)
    | DetectorRead
    | DetectorSample(now: Time)
    | DetectorPublish
    | DetectorStop(now: Time)
    | ControlReadManual
    | ControlReadFailsafe
    | ControlSample(now: Time)
    | ControlPublish(policy: Policy)
    | ControlStop(now: Time)
    | AllocatorRefresh(coefficients: Option<Coefficients>)
    | AllocatorRead
    | AllocatorSample(now: Time)
    | AllocatorPublish(modelValid: bool, motors: Actuators, servos: Actuators)
    | AllocatorStop(now: Time)
    | OutputRead

  function DetectorPublishing(w: World, timeout: Time): World
  {
    w.(failsafe := Some(Detect(w.detectorManual, timeout, w.detectorNow)), judged := w.detectorManual.timestampSample)
  }

  function DetectorStopping(w: World, now: Time): World
  {
    w.(failsafe := Some(FailsafeStatus(now, true)), judged := 0, detectorManual := NO_MANUAL)
  }

  function ControlReadingFailsafe(w: World): World
  {
    if w.failsafe.Some?
        then w.(inputs := w.inputs.(failsafe := w.failsafe.value, failsafeSeen := true), heldJudged := w.judged) else w
  }

  function ControlPublishing(w: World, policy: Policy): World
  {
    var inputs := Considered(w.inputs, w.controlNow);
    w.(inputs := inputs, setpoint := Some(Target(inputs, policy, w.controlNow)))
  }

  function ControlStopping(w: World, now: Time): World
  {
    w.(setpoint := Some(Setpoint(now, 0, ZERO, ZERO, false, true)), inputs := NO_INPUTS, heldJudged := 0)
  }

  /** The messages must be what allocation yields for the target as last read. */
  predicate Allocates(w: World, modelValid: bool, motors: Actuators, servos: Actuators)
  {
    && |w.allocator.rows| == 4
    && IsAllocation(w.allocator, w.target.speed, w.target.steering,
                    modelValid && w.target.valid && Fresh(w.target.timestamp, w.allocatorNow), w.allocatorNow,
                    w.target.timestampSample, motors, servos)
  }

  function AllocatorRefreshing(w: World, coefficients: Option<Coefficients>): World
  {
    w.(allocator := Refreshed(w.allocator, coefficients),
       loads := if coefficients.Some? then w.loads + {coefficients.value} else w.loads)
  }

  function AllocatorStopping(w: World, now: Time): World
  {
    w.(motors := Some(Actuators(now, 0, false, 0, NEUTRAL)), allocator := NO_ALLOCATOR, target := NO_SETPOINT)
  }

  function Apply(w: World, step: Step, timeout: Time): World
  {
    match step
    case PublishManual(m) => w.(samples := w.samples + {m}, manual := Some(m))
    case DetectorRead => w.(detectorManual := w.manual.GetOr(w.detectorManual))
    case DetectorSample(now) => w.(detectorNow := now)
    case DetectorPublish => DetectorPublishing(w, timeout)
    case DetectorStop(now) => DetectorStopping(w, now)
    case ControlReadManual => w.(inputs := w.inputs.(manual := w.manual.GetOr(w.inputs.manual)))
    case ControlReadFailsafe => ControlReadingFailsafe(w)
    case ControlSample(now) => w.(controlNow := now)
    case ControlPublish(policy) => ControlPublishing(w, policy)
    case ControlStop(now) => ControlStopping(w, now)
    case AllocatorRefresh(coefficients) => AllocatorRefreshing(w, coefficients)
    case AllocatorRead => w.(target := w.setpoint.GetOr(w.target))
    case AllocatorSample(now) => w.(allocatorNow := now)
    case AllocatorPublish(modelValid, motors, servos) =>
      if Allocates(w, modelValid, motors, servos) then w.(motors := Some(motors)) else w
    case AllocatorStop(now) => AllocatorStopping(w, now)
    case OutputRead => w.(received := w.motors.GetOr(w.received))
  }

  function Run(w: World, trace: seq<Step>, timeout: Time): World
    decreases trace
  {
    if trace == [] then w else Run(Apply(w, trace[0], timeout), trace[1..], timeout)
  }

  // ---------------------------------------------------------------------------
  // Every message that can move a motor has a recent sample behind it.
  // ---------------------------------------------------------------------------

  ghost predicate Backed(samples: set<Manual>, time: Time, age: nat)
  {
    exists m :: m in samples && m.valid && m.timestampSample != 0 && time <= m.timestampSample + age
  }

  ghost predicate GoodManual(samples: set<Manual>, m: Manual) { m.valid ==> m in samples }

  ghost predicate GoodFailsafe(samples: set<Manual>, s: FailsafeStatus, timeout: Time)
  {
    !s.active ==> Backed(samples, s.timestamp, timeout)
  }

  ghost predicate GoodSetpoint(samples: set<Manual>, s: Setpoint, timeout: Time)
  {
    s.valid && s.speed != ZERO ==> Backed(samples, s.timestamp, timeout + 500_000)
  }

  ghost predicate GoodMotors(samples: set<Manual>, a: Actuators, timeout: Time)
  {
    && |a.control| == 8
    && ((exists i :: 0 <= i < 8 && a.control[i] != ZERO) ==> Backed(samples, a.timestamp, timeout + 1_000_000))
  }

  ghost predicate Inv(w: World, timeout: Time)
  {
    && (w.manual.Some? ==> GoodManual(w.samples, w.manual.value))
    && (w.failsafe.Some? ==> GoodFailsafe(w.samples, w.failsafe.value, timeout))
    && (w.setpoint.Some? ==> GoodSetpoint(w.samples, w.setpoint.value, timeout))
    && (w.motors.Some? ==> GoodMotors(w.samples, w.motors.value, timeout))
    && GoodManual(w.samples, w.detectorManual)
    && GoodFailsafe(w.samples, w.inputs.failsafe, timeout)
    && GoodSetpoint(w.samples, w.target, timeout)
    && GoodMotors(w.samples, w.received, timeout)
    && MotorsIgnoreYaw(w.allocator.rows)
  }

  /** The motor action during a failsafe is neither to hold nor to take a fixed value. */
  predicate Neutral(step: Step)
  {
    step.ControlPublish? ==> step.policy.motorAction != 0 && step.policy.motorAction != 2
  }

  lemma Longer(samples: set<Manual>, time: Time, age: nat, later: Time)
    requires Backed(samples, time, age)
    ensures later <= time + 500_000 ==> Backed(samples, later, age + 500_000)
  {
    var m :| m in samples && m.valid && m.timestampSample != 0 && time <= m.timestampSample + age;
    assert m in samples && m.valid && m.timestampSample != 0;
  }

  lemma MoreSamples(samples: set<Manual>, m: Manual, time: Time, age: nat)
    ensures Backed(samples, time, age) ==> Backed(samples + {m}, time, age)
  {
    if Backed(samples, time, age) {
      var s :| s in samples && s.valid && s.timestampSample != 0 && time <= s.timestampSample + age;
      assert s in samples + {m};
    }
  }

  lemma DetectGood(samples: set<Manual>, m: Manual, timeout: Time, now: Time)
    requires GoodManual(samples, m)
    ensures GoodFailsafe(samples, Detect(m, timeout, now), timeout)
  {
  }

  lemma TargetGood(samples: set<Manual>, i: Inputs, p: Policy, now: Time, timeout: Time)
    requires GoodFailsafe(samples, i.failsafe, timeout) && p.motorAction != 0 && p.motorAction != 2
    ensures GoodSetpoint(samples, Target(i, p, now), timeout)
  {
    if !FailsafeActive(i, now) {
      Longer(samples, i.failsafe.timestamp, timeout, now);
    }
  }

  lemma AllocationGood(w: World, timeout: Time, modelValid: bool, motors: Actuators, servos: Actuators)
    requires GoodSetpoint(w.samples, w.target, timeout) && MotorsIgnoreYaw(w.allocator.rows)
    requires Allocates(w, modelValid, motors, servos)
    ensures GoodMotors(w.samples, motors, timeout)
  {
    if i :| 0 <= i < 8 && motors.control[i] != ZERO {
      MotorNeedsThrottle(w.allocator, w.target.speed, w.target.steering,
                         modelValid && w.target.valid && Fresh(w.target.timestamp, w.allocatorNow), w.allocatorNow,
                         w.target.timestampSample, motors, servos, i);
      Longer(w.samples, w.target.timestamp, timeout + 500_000, w.allocatorNow);
    }
  }

  lemma PublishKeeps(w: World, m: Manual, timeout: Time)
    requires Inv(w, timeout)
    ensures Inv(Apply(w, PublishManual(m), timeout), timeout)
  {
    forall time: Time, age: nat
      ensures Backed(w.samples, time, age) ==> Backed(w.samples + {m}, time, age)
    {
      MoreSamples(w.samples, m, time, age);
    }
  }

  lemma StepKeepsInv(w: World, step: Step, timeout: Time)
    requires Inv(w, timeout) && Neutral(step)
    ensures Inv(Apply(w, step, timeout), timeout)
  {
    match step
    case PublishManual(m) => PublishKeeps(w, m, timeout);
    case DetectorPublish => DetectGood(w.samples, w.detectorManual, timeout, w.detectorNow);
    case ControlPublish(policy) =>
      TargetGood(w.samples, Considered(w.inputs, w.controlNow), policy, w.controlNow, timeout);
    case AllocatorPublish(modelValid, motors, servos) =>
      if Allocates(w, modelValid, motors, servos) {
        AllocationGood(w, timeout, modelValid, motors, servos);
      }
    case _ =>
  }

  ghost predicate AllNeutral(trace: seq<Step>)
  {
    forall i :: 0 <= i < |trace| ==> Neutral(trace[i])
  }

  lemma {:induction false} RunKeepsInv(w: World, trace: seq<Step>, timeout: Time)
    requires Inv(w, timeout) && AllNeutral(trace)
    ensures Inv(Run(w, trace, timeout), timeout)
    decreases trace
  {
    if trace != [] {
      StepKeepsInv(w, trace[0], timeout);
      RunKeepsInv(Apply(w, trace[0], timeout), trace[1..], timeout);
    }
  }

  lemma {:induction false} SamplesPublished(w: World, trace: seq<Step>, timeout: Time)
    ensures forall m :: m in Run(w, trace, timeout).samples ==> m in w.samples || PublishManual(m) in trace
    decreases trace
  {
    if trace != [] {
      SamplesPublished(Apply(w, trace[0], timeout), trace[1..], timeout);
      assert trace == [trace[0]] + trace[1..];
    }
  }

  lemma {:induction false} LoadsGiven(w: World, trace: seq<Step>, timeout: Time)
    ensures forall c :: c in Run(w, trace, timeout).loads ==> c in w.loads || AllocatorRefresh(Some(c)) in trace
    decreases trace
  {
    if trace != [] {
      LoadsGiven(Apply(w, trace[0], timeout), trace[1..], timeout);
      assert trace == [trace[0]] + trace[1..];
    }
  }

  /** Whatever the interleaving, a motor channel is given a value other than zero at time
      `now` only if a valid sample was published that is not older than the timeout plus
      1.5 seconds. */
  lemma EndToEndStaleness(trace: seq<Step>, timeout: Time, functions: seq<Function>, servos: Actuators, c: nat,
                          now: Time)
    requires AllNeutral(trace) && c < |functions| && functions[c].Motor?
    requires DataValid(functions, Run(START, trace, timeout).received, servos, now)
    requires Routed(functions[c], Run(START, trace, timeout).received, servos) != ZERO
    ensures exists m :: PublishManual(m) in trace && m.valid && m.timestampSample != 0
                        && now <= m.timestampSample + timeout + 1_500_000
  {
    var w := Run(START, trace, timeout);
    RunKeepsInv(START, trace, timeout);
    var i := functions[c].index;
    assert HasControl(w.received, i) && w.received.control[i] != ZERO;
    Longer(w.samples, w.received.timestamp, timeout + 1_000_000, now);
    SamplesPublished(START, trace, timeout);
    var m :| m in w.samples && m.valid && m.timestampSample != 0 && now <= m.timestampSample + (timeout + 1_500_000);
    assert PublishManual(m) in trace && m.valid;
  }

  // ---------------------------------------------------------------------------
  // The bound is about some sample, not about the value driven.
  // ---------------------------------------------------------------------------

  lemma {:induction false} RunAppend(w: World, first: seq<Step>, second: seq<Step>, timeout: Time)
    ensures Run(w, first + second, timeout) == Run(Run(w, first, timeout), second, timeout)
    decreases first
  {
    if first == [] {
      assert first + second == second;
    } else {
      assert (first + second)[1..] == first[1..] + second;
      RunAppend(Apply(w, first[0], timeout), first[1..], second, timeout);
    }
  }

  lemma RunFour(w: World, a: Step, b: Step, c: Step, d: Step, timeout: Time)
    ensures Run(w, [a, b, c, d], timeout) ==
            Apply(Apply(Apply(Apply(w, a, timeout), b, timeout), c, timeout), d, timeout)
  {
    assert [a, b, c, d][1..] == [b, c, d] && [b, c, d][1..] == [c, d] && [c, d][1..] == [d] && [d][1..] == [];
    var w1 := Apply(w, a, timeout);
    var w2 := Apply(w1, b, timeout);
    var w3 := Apply(w2, c, timeout);
    assert Run(w3, [d], timeout) == Apply(w3, d, timeout);
    assert Run(w2, [c, d], timeout) == Run(w3, [d], timeout);
    assert Run(w1, [b, c, d], timeout) == Run(w2, [c, d], timeout);
  }

  const POLICY := Policy(1, ZERO, 0, ZERO)
  const FULL := Finite(1.0)
  const UNIT := Coefficients(FULL, FULL, FULL, ZERO)

  /** RobotControl takes over a sample that asks for full throttle. */
  function Old(now: Time): seq<Step>
  {
    [PublishManual(Manual(now, ZERO, FULL, true)), ControlReadManual, ControlSample(now), ControlPublish(POLICY)]
  }

  /** Failsafe sees a neutral sample. */
  function Sense(now: Time): seq<Step>
  {
    [PublishManual(Manual(now, ZERO, ZERO, true)), DetectorRead, DetectorSample(now), DetectorPublish]
  }

  /** Before RobotControl looks, the neutral sample has been replaced by an invalid one. */
  function Decide(now: Time): seq<Step>
  {
    [PublishManual(NO_MANUAL), ControlReadManual, ControlReadFailsafe, ControlSample(now)]
  }

  function Motors(now: Time): Actuators { Actuators(now, 1, true, 2, [FULL, FULL, ZERO, ZERO, ZERO, ZERO, ZERO, ZERO]) }

  function Servos(now: Time): Actuators { Actuators(now, 1, true, 2, NEUTRAL) }

  function Choose(now: Time): seq<Step>
  {
    [ControlPublish(POLICY), AllocatorRefresh(Some(UNIT)), AllocatorRead, AllocatorSample(now)]
  }

  function Drive(now: Time): seq<Step>
  {
    [AllocatorPublish(true, Motors(now), Servos(now)), OutputRead, OutputRead, OutputRead]
  }

  function OldRun(now: Time): seq<Step>
  {
    Old(1) + (Sense(now) + (Decide(now) + (Choose(now) + Drive(now))))
  }

  lemma UnitResponse()
    ensures Response(Row(1.0, 0.0), 1.0, 0.0) == FULL
    ensures Response(Row(0.0, 1.0), 1.0, 0.0) == ZERO && Response(Row(0.0, 0.0), 1.0, 0.0) == ZERO
  {
    assert Times(1.0, 1.0) == FULL && Times(0.0, 0.0) == ZERO && Times(0.0, 1.0) == ZERO && Times(1.0, 0.0) == ZERO;
  }

  predicate FullAhead(responses: seq<Float>)
  {
    |responses| == 4 && responses[0] == FULL && responses[1] == FULL && responses[2] == ZERO && responses[3] == ZERO
  }

  lemma UnitCarries(responses: seq<Float>, now: Time)
    requires FullAhead(responses)
    ensures Carry(Motors(now), Servos(now), true, responses, now, 1)
  {
    assert Padded(Motors(now).control) && Padded(Servos(now).control);
    assert forall r :: 0 <= r < 4 ==> responses[r].Finite?;
    assert Motors(now).control[0] == ConstrainUnit(responses[0])
        && Motors(now).control[1] == ConstrainUnit(responses[1]);
    assert Servos(now).control[0] == ConstrainUnit(responses[2])
        && Servos(now).control[1] == ConstrainUnit(responses[3]);
  }

  lemma UnitResponses(a: Allocator)
    requires a == Refreshed(NO_ALLOCATOR, Some(UNIT))
    ensures a.valid && FullAhead(Responses(a.rows, 1.0, 0.0))
  {
    UnitResponse();
  }

  lemma CarriedIsAllocation(a: Allocator, throttle: real, yaw: real, now: Time, sample: Time, motors: Actuators,
                            servos: Actuators)
    requires a.valid && |a.rows| == 4 && Carry(motors, servos, true, Responses(a.rows, throttle, yaw), now, sample)
    ensures IsAllocation(a, Finite(throttle), Finite(yaw), true, now, sample, motors, servos)
  {
  }

  lemma UnitAllocation(now: Time)
    ensures IsAllocation(Refreshed(NO_ALLOCATOR, Some(UNIT)), FULL, ZERO, true, now, 1, Motors(now), Servos(now))
  {
    var a := Refreshed(NO_ALLOCATOR, Some(UNIT));
    UnitResponses(a);
    UnitCarries(Responses(a.rows, 1.0, 0.0), now);
    CarriedIsAllocation(a, 1.0, 0.0, now, 1, Motors(now), Servos(now));
  }

  /** The bound is not one on the age of the value itself: however old, the throttle of the
      last usable sample RobotControl read can drive a motor, when the recent sample that keeps
      Failsafe quiet is neutral and RobotControl never sees it. */
  lemma OldValueCanDrive(timeout: Time, now: Time)
    requires now > 1
    ensures var w := Run(START, OldRun(now), timeout);
            && AllNeutral(OldRun(now))
            && w.received == Motors(now) && Routed(Motor(0), w.received, Servos(now)) == FULL
            && forall m :: m in w.samples && m.throttle != ZERO ==> m.timestampSample == 1
  {
    RunAppend(START, Old(1), Sense(now) + (Decide(now) + (Choose(now) + Drive(now))), timeout);
    var w1 := AfterOld(timeout);
    RunAppend(w1, Sense(now), Decide(now) + (Choose(now) + Drive(now)), timeout);
    var w2 := AfterSense(w1, now, timeout);
    RunAppend(w2, Decide(now), Choose(now) + Drive(now), timeout);
    var w3 := AfterDecide(w2, now, timeout);
    RunAppend(w3, Choose(now), Drive(now), timeout);
    AfterTarget(w3, now, timeout);
  }

  lemma AfterOld(timeout: Time) returns (w: World)
    ensures w == Run(START, Old(1), timeout)
    ensures w.inputs.lastValid == Manual(1, ZERO, FULL, true) && w.inputs.haveValid
    ensures w.samples == {Manual(1, ZERO, FULL, true)} && w.allocator == NO_ALLOCATOR
  {
    w := Run(START, Old(1), timeout);
    RunFour(START, Old(1)[0], Old(1)[1], Old(1)[2], Old(1)[3], timeout);
  }

  lemma AfterSense(v: World, now: Time, timeout: Time) returns (w: World)
    requires now > 0
    ensures w == Run(v, Sense(now), timeout)
    ensures w.inputs == v.inputs && w.allocator == v.allocator && w.failsafe == Some(FailsafeStatus(now, false))
    ensures w.samples == v.samples + {Manual(now, ZERO, ZERO, true)}
  {
    w := Run(v, Sense(now), timeout);
    RunFour(v, Sense(now)[0], Sense(now)[1], Sense(now)[2], Sense(now)[3], timeout);
  }

  lemma AfterDecide(v: World, now: Time, timeout: Time) returns (w: World)
    requires now > 0 && v.failsafe == Some(FailsafeStatus(now, false))
    ensures w == Run(v, Decide(now), timeout)
    ensures w.inputs == Inputs(NO_MANUAL, v.inputs.lastValid, v.inputs.haveValid, FailsafeStatus(now, false), true)
    ensures w.controlNow == now && w.allocator == v.allocator && w.samples == v.samples + {NO_MANUAL}
  {
    w := Run(v, Decide(now), timeout);
    RunFour(v, Decide(now)[0], Decide(now)[1], Decide(now)[2], Decide(now)[3], timeout);
  }

  lemma AfterChoose(v: World, now: Time, timeout: Time) returns (w: World)
    requires now > 0 && v.controlNow == now && v.allocator == NO_ALLOCATOR
    requires v.inputs == Inputs(NO_MANUAL, Manual(1, ZERO, FULL, true), true, FailsafeStatus(now, false), true)
    ensures w == Run(v, Choose(now), timeout)
    ensures w.target == Setpoint(now, 1, FULL, ZERO, true, false) && w.allocatorNow == now
    ensures w.allocator == Refreshed(NO_ALLOCATOR, Some(UNIT)) && w.samples == v.samples
  {
    w := Run(v, Choose(now), timeout);
    RunFour(v, Choose(now)[0], Choose(now)[1], Choose(now)[2], Choose(now)[3], timeout);
  }

  lemma AfterTarget(v: World, now: Time, timeout: Time)
    requires now > 0 && v.controlNow == now && v.allocator == NO_ALLOCATOR
    requires v.inputs == Inputs(NO_MANUAL, Manual(1, ZERO, FULL, true), true, FailsafeStatus(now, false), true)
    ensures var w := Run(Run(v, Choose(now), timeout), Drive(now), timeout);
            w.received == Motors(now) && w.samples == v.samples
  {
    var w := AfterChoose(v, now, timeout);
    UnitAllocation(now);
    assert Allocates(w, true, Motors(now), Servos(now));
    RunFour(w, Drive(now)[0], Drive(now)[1], Drive(now)[2], Drive(now)[3], timeout);
  }

  // ---------------------------------------------------------------------------
  // The bound is attained.
  // ---------------------------------------------------------------------------

  const SAMPLE := Manual(1, ZERO, FULL, true)

  function SenseLate(timeout: Time): seq<Step>
  {
    [PublishManual(SAMPLE), DetectorRead, DetectorSample(1 + timeout), DetectorPublish]
  }

  function ControlLate(now: Time): seq<Step>
  {
    [ControlReadManual, ControlReadFailsafe, ControlSample(now), ControlPublish(POLICY)]
  }

  function AllocateLate(now: Time): seq<Step>
  {
    [AllocatorRefresh(Some(UNIT)), AllocatorRead, AllocatorSample(now),
     AllocatorPublish(true, Motors(now), Servos(now))]
  }

  function ReadLate(): seq<Step> { [OutputRead, OutputRead, OutputRead, OutputRead] }

  function LateRun(timeout: Time): seq<Step>
  {
    SenseLate(timeout) + (ControlLate(timeout + 500_001) + (AllocateLate(timeout + 1_000_001) + ReadLate()))
  }

  lemma AfterSenseLate(timeout: Time) returns (w: World)
    ensures w == Run(START, SenseLate(timeout), timeout)
    ensures w.samples == {SAMPLE} && w.manual == Some(SAMPLE) && w.failsafe == Some(FailsafeStatus(1 + timeout, false))
    ensures w.inputs == NO_INPUTS && w.allocator == NO_ALLOCATOR
  {
    w := Run(START, SenseLate(timeout), timeout);
    RunFour(START, SenseLate(timeout)[0], SenseLate(timeout)[1], SenseLate(timeout)[2], SenseLate(timeout)[3], timeout);
  }

  lemma AfterControlLate(v: World, timeout: Time) returns (w: World)
    requires v.manual == Some(SAMPLE) && v.failsafe == Some(FailsafeStatus(1 + timeout, false)) && v.inputs == NO_INPUTS
    ensures w == Run(v, ControlLate(timeout + 500_001), timeout)
    ensures w.setpoint == Some(Setpoint(timeout + 500_001, 1, FULL, ZERO, true, false))
    ensures w.samples == v.samples && w.allocator == v.allocator
  {
    var t := ControlLate(timeout + 500_001);
    w := Run(v, t, timeout);
    RunFour(v, t[0], t[1], t[2], t[3], timeout);
  }

  lemma AfterAllocateLate(v: World, timeout: Time) returns (w: World)
    requires v.setpoint == Some(Setpoint(timeout + 500_001, 1, FULL, ZERO, true, false)) && v.allocator == NO_ALLOCATOR
    ensures w == Run(v, AllocateLate(timeout + 1_000_001), timeout)
    ensures w.motors == Some(Motors(timeout + 1_000_001)) && w.samples == v.samples
  {
    var t := AllocateLate(timeout + 1_000_001);
    w := Run(v, t, timeout);
    UnitAllocation(timeout + 1_000_001);
    RunFour(v, t[0], t[1], t[2], t[3], timeout);
  }

  /** For every timeout there is a run in which a motor is driven when the only sample ever
      published is exactly the timeout plus 1.5 seconds old. */
  lemma BoundIsTight(timeout: Time)
    ensures var w := Run(START, LateRun(timeout), timeout);
            var now := SAMPLE.timestampSample + timeout + 1_500_000;
            && w.samples == {SAMPLE} && w.received == Motors(timeout + 1_000_001)
            && DataValid([Motor(0)], w.received, Servos(now), now)
            && Routed(Motor(0), w.received, Servos(now)) == FULL
  {
    RunAppend(START, SenseLate(timeout),
              ControlLate(timeout + 500_001) + (AllocateLate(timeout + 1_000_001) + ReadLate()), timeout);
    var w1 := AfterSenseLate(timeout);
    RunAppend(w1, ControlLate(timeout + 500_001), AllocateLate(timeout + 1_000_001) + ReadLate(), timeout);
    var w2 := AfterControlLate(w1, timeout);
    RunAppend(w2, AllocateLate(timeout + 1_000_001), ReadLate(), timeout);
    var w3 := AfterAllocateLate(w2, timeout);
    RunFour(w3, OutputRead, OutputRead, OutputRead, OutputRead, timeout);
  }
}
