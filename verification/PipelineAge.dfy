/** How old the value itself may be that drives a motor, not just some sample. */
module PipelineAge {
  import opened Options
  import opened MixingOutputs
  import opened Floats
  import opened Control
  import opened Pipeline

  // ---------------------------------------------------------------------------
  // One decision.
  // ---------------------------------------------------------------------------

  /** RobotControl's inputs once it has read the status Failsafe gave the sample m at a time. */
  function Judging(i: Inputs, m: Manual, timeout: Time, judgedAt: Time): Inputs
  {
    i.(failsafe := Detect(m, timeout, judgedAt), failsafeSeen := true)
  }

  /** A target published at `now` on the strength of that status is not too old. */
  ghost predicate YoungEnough(i: Inputs, m: Manual, timeout: Time, judgedAt: Time, now: Time, p: Policy)
  {
    var j := Judging(i, m, timeout, judgedAt);
    !FailsafeActive(j, now) ==> now <= Target(j, p, now).timestampSample + timeout + 500_000
  }

  /** Exactly when every target RobotControl can publish on the strength of a sample that Failsafe
      judged is within the timeout plus 500 ms of its own sample: when its last usable sample is
      at least as new as the judged one. */
  lemma TargetAge(i: Inputs, m: Manual, timeout: Time)
    requires i.haveValid && m.valid && m.timestampSample != 0
    ensures (forall judgedAt: Time, now: Time, p: Policy :: YoungEnough(i, m, timeout, judgedAt, now, p))
            <==> m.timestampSample <= i.lastValid.timestampSample
  {
    if forall judgedAt: Time, now: Time, p: Policy :: YoungEnough(i, m, timeout, judgedAt, now, p) {
      var judgedAt := m.timestampSample + timeout;
      assert YoungEnough(i, m, timeout, judgedAt, judgedAt + 500_000, Policy(1, ZERO, 0, ZERO));
    }
  }

  // ---------------------------------------------------------------------------
  // Every run.
  // ---------------------------------------------------------------------------

  /** When RobotControl publishes with the failsafe inactive, its last usable sample is at least as
      new as the one behind the failsafe status it holds. */
  ghost predicate InStep(w: World, step: Step)
  {
    step.ControlPublish? ==>
      var i := Considered(w.inputs, w.controlNow);
      i.haveValid && !FailsafeActive(i, w.controlNow) ==> w.heldJudged <= i.lastValid.timestampSample
  }

  ghost predicate AllInStep(w: World, trace: seq<Step>, timeout: Time)
    decreases trace
  {
    trace == [] || (InStep(w, trace[0]) && AllInStep(Apply(w, trace[0], timeout), trace[1..], timeout))
  }

  lemma {:induction false} InStepPrefix(w: World, trace: seq<Step>, n: nat, timeout: Time)
    requires AllInStep(w, trace, timeout) && n <= |trace|
    ensures AllInStep(w, trace[..n], timeout)
    decreases trace
  {
    if 0 < n {
      InStepPrefix(Apply(w, trace[0], timeout), trace[1..], n - 1, timeout);
      assert trace[..n][1..] == trace[1..][..n - 1];
    }
  }

  ghost predicate Judged(s: FailsafeStatus, sample: Time, timeout: Time)
  {
    !s.active ==> s.timestamp <= sample + timeout
  }

  /** The target is the throttle of the sample whose time it carries, and not too old. */
  ghost predicate OwnTarget(samples: set<Manual>, s: Setpoint, timeout: Time)
  {
    s.valid && s.speed != ZERO ==>
      && (exists m :: m in samples && m.valid && m.timestampSample == s.timestampSample && m.throttle == s.speed)
      && s.timestamp <= s.timestampSample + timeout + 500_000
  }

  /** The coefficient by which the front or the rear motor answers to throttle. */
  function Coefficient(c: Coefficients, i: nat): Float { if i == 0 then c.throttleFront else c.throttleRear }

  /** The control of motor i is the sample's throttle, scaled by its coefficient and clamped. */
  predicate Scales(m: Manual, c: Coefficients, i: nat, control: Float)
  {
    && m.throttle.Finite? && MatrixOf(c).Some?
    && control == ConstrainUnit(Times(Coefficient(c, i).value, m.throttle.value))
  }

  /** A motor's control comes from the sample whose time its message carries. */
  ghost predicate OwnControl(samples: set<Manual>, loads: set<Coefficients>, a: Actuators, i: nat)
    requires i < |a.control|
  {
    && i < 2
    && exists m, c :: m in samples && c in loads && m.valid && m.timestampSample == a.timestampSample
                      && Scales(m, c, i, a.control[i])
  }

  ghost predicate OwnMotors(samples: set<Manual>, loads: set<Coefficients>, a: Actuators, timeout: Time)
  {
    && |a.control| == 8
    && forall i :: 0 <= i < 8 && a.control[i] != ZERO ==>
         OwnControl(samples, loads, a, i) && a.timestamp <= a.timestampSample + timeout + 1_000_000
  }

  /** A valid matrix is that of coefficients given to the allocator. */
  ghost predicate Loaded(loads: set<Coefficients>, a: Allocator)
  {
    MotorsIgnoreYaw(a.rows) && (a.valid ==> exists c :: c in loads && MatrixOf(c) == Some(a.rows))
  }

  ghost predicate Held(samples: set<Manual>, i: Inputs)
  {
    && GoodManual(samples, i.manual)
    && (i.haveValid ==> i.lastValid.valid && i.lastValid in samples)
  }

  ghost predicate AgeInv(w: World, timeout: Time)
  {
    && (w.manual.Some? ==> GoodManual(w.samples, w.manual.value))
    && (w.failsafe.Some? ==> Judged(w.failsafe.value, w.judged, timeout))
    && Judged(w.inputs.failsafe, w.heldJudged, timeout) && Held(w.samples, w.inputs)
    && (w.setpoint.Some? ==> OwnTarget(w.samples, w.setpoint.value, timeout))
    && OwnTarget(w.samples, w.target, timeout)
    && (w.motors.Some? ==> OwnMotors(w.samples, w.loads, w.motors.value, timeout))
    && OwnMotors(w.samples, w.loads, w.received, timeout)
    && Loaded(w.loads, w.allocator)
  }

  lemma TargetOwn(samples: set<Manual>, i: Inputs, judged: Time, p: Policy, now: Time, timeout: Time)
    requires Held(samples, i) && Judged(i.failsafe, judged, timeout) && p.motorAction != 0 && p.motorAction != 2
    requires i.haveValid && !FailsafeActive(i, now) ==> judged <= i.lastValid.timestampSample
    ensures OwnTarget(samples, Target(i, p, now), timeout)
  {
  }

  lemma MotorsOwn(w: World, timeout: Time, modelValid: bool, motors: Actuators, servos: Actuators)
    requires OwnTarget(w.samples, w.target, timeout) && Loaded(w.loads, w.allocator)
    requires Allocates(w, modelValid, motors, servos)
    ensures OwnMotors(w.samples, w.loads, motors, timeout)
  {
    forall i | 0 <= i < 8 && motors.control[i] != ZERO
      ensures OwnControl(w.samples, w.loads, motors, i)
              && motors.timestamp <= motors.timestampSample + timeout + 1_000_000
    {
      MotorNeedsThrottle(w.allocator, w.target.speed, w.target.steering,
                         modelValid && w.target.valid && Fresh(w.target.timestamp, w.allocatorNow), w.allocatorNow,
                         w.target.timestampSample, motors, servos, i);
      ResponseScales(w.allocator.rows, w.target.speed.value, w.target.steering.value, i);
      var m :| m in w.samples && m.valid && m.timestampSample == w.target.timestampSample
          && m.throttle == w.target.speed;
      var c :| c in w.loads && MatrixOf(c) == Some(w.allocator.rows);
      assert Scales(m, c, i, motors.control[i]);
    }
  }

  lemma RefreshLoads(loads: set<Coefficients>, a: Allocator, given: Option<Coefficients>)
    requires Loaded(loads, a)
    ensures Loaded(if given.Some? then loads + {given.value} else loads, Refreshed(a, given))
  {
  }

  lemma ResponseScales(rows: seq<Row>, throttle: real, yaw: real, i: nat)
    requires MotorsIgnoreYaw(rows) && i < 2
    ensures Responses(rows, throttle, yaw)[i] == Times(rows[i].throttle, throttle)
  {
    TimesZero(rows[i].throttle, throttle);
    TimesZero(0.0, yaw);
    PlusZero(Product(rows[i].throttle, throttle));
  }

  lemma MoreTargets(samples: set<Manual>, m: Manual, s: Setpoint, timeout: Time)
    requires OwnTarget(samples, s, timeout)
    ensures OwnTarget(samples + {m}, s, timeout)
  {
    if s.valid && s.speed != ZERO {
      var n :| n in samples && n.valid && n.timestampSample == s.timestampSample && n.throttle == s.speed;
      assert n in samples + {m};
    }
  }

  lemma MoreMotors(samples: set<Manual>, loads: set<Coefficients>, samples': set<Manual>, loads': set<Coefficients>,
                   a: Actuators, timeout: Time)
    requires OwnMotors(samples, loads, a, timeout) && samples <= samples' && loads <= loads'
    ensures OwnMotors(samples', loads', a, timeout)
  {
    forall i | 0 <= i < 8 && a.control[i] != ZERO
      ensures OwnControl(samples', loads', a, i)
    {
      assert OwnControl(samples, loads, a, i);
      var n, c :| n in samples && c in loads && n.valid && n.timestampSample == a.timestampSample
          && Scales(n, c, i, a.control[i]);
      assert n in samples' && c in loads';
    }
  }

  /** More samples, or more coefficients, take nothing away. */
  lemma PublishKeepsAge(w: World, m: Manual, timeout: Time)
    requires AgeInv(w, timeout)
    ensures AgeInv(Apply(w, PublishManual(m), timeout), timeout)
  {
    var samples := w.samples + {m};
    MoreTargets(w.samples, m, w.target, timeout);
    MoreMotors(w.samples, w.loads, samples, w.loads, w.received, timeout);
    if w.setpoint.Some? {
      MoreTargets(w.samples, m, w.setpoint.value, timeout);
    }
    if w.motors.Some? {
      MoreMotors(w.samples, w.loads, samples, w.loads, w.motors.value, timeout);
    }
  }

  lemma RefreshKeepsAge(w: World, given: Option<Coefficients>, timeout: Time)
    requires AgeInv(w, timeout)
    ensures AgeInv(Apply(w, AllocatorRefresh(given), timeout), timeout)
  {
    var loads := AllocatorRefreshing(w, given).loads;
    RefreshLoads(w.loads, w.allocator, given);
    MoreMotors(w.samples, w.loads, w.samples, loads, w.received, timeout);
    if w.motors.Some? {
      MoreMotors(w.samples, w.loads, w.samples, loads, w.motors.value, timeout);
    }
  }

  lemma StepKeepsAge(w: World, step: Step, timeout: Time)
    requires AgeInv(w, timeout) && Neutral(step) && InStep(w, step)
    ensures AgeInv(Apply(w, step, timeout), timeout)
  {
    match step
    case PublishManual(m) => PublishKeepsAge(w, m, timeout);
    case AllocatorRefresh(given) => RefreshKeepsAge(w, given, timeout);
    case ControlPublish(policy) =>
      TargetOwn(w.samples, Considered(w.inputs, w.controlNow), w.heldJudged, policy, w.controlNow, timeout);
    case AllocatorPublish(modelValid, motors, servos) =>
      if Allocates(w, modelValid, motors, servos) {
        MotorsOwn(w, timeout, modelValid, motors, servos);
      }
    case _ =>
  }

  lemma {:induction false} RunKeepsAge(w: World, trace: seq<Step>, timeout: Time)
    requires AgeInv(w, timeout) && AllNeutral(trace) && AllInStep(w, trace, timeout)
    ensures AgeInv(Run(w, trace, timeout), timeout)
    decreases trace
  {
    if trace != [] {
      StepKeepsAge(w, trace[0], timeout);
      RunKeepsAge(Apply(w, trace[0], timeout), trace[1..], timeout);
    }
  }

  /** The control is the throttle of a published valid sample, the one whose time the message
      carries, scaled by the motor's coefficient out of those given to the allocator. */
  ghost predicate FromSample(trace: seq<Step>, a: Actuators, i: nat)
    requires i < |a.control|
  {
    exists m, k :: PublishManual(m) in trace && AllocatorRefresh(Some(k)) in trace
                   && m.valid && m.timestampSample == a.timestampSample && Scales(m, k, i, a.control[i])
  }

  /** Whenever RobotControl is in step with Failsafe at each of its publications, a motor value
      other than zero at time `now` comes from a sample in that way, and the sample is not older
      than the timeout plus 1.5 seconds. */
  lemma OwnSampleAge(trace: seq<Step>, timeout: Time, functions: seq<Function>, servos: Actuators, c: nat, now: Time)
    requires AllNeutral(trace) && AllInStep(START, trace, timeout) && c < |functions| && functions[c].Motor?
    requires DataValid(functions, Run(START, trace, timeout).received, servos, now)
    requires Routed(functions[c], Run(START, trace, timeout).received, servos) != ZERO
    ensures var a := Run(START, trace, timeout).received;
            && functions[c].index < 2 && functions[c].index < |a.control|
            && now <= a.timestampSample + timeout + 1_500_000
            && FromSample(trace, a, functions[c].index)
  {
    var w := Run(START, trace, timeout);
    RunKeepsAge(START, trace, timeout);
    var i := functions[c].index;
    assert HasControl(w.received, i) && w.received.control[i] != ZERO;
    assert OwnControl(w.samples, w.loads, w.received, i);
    SamplesPublished(START, trace, timeout);
    LoadsGiven(START, trace, timeout);
    var m, k :| m in w.samples && k in w.loads && m.valid && m.timestampSample == w.received.timestampSample
                && Scales(m, k, i, w.received.control[i]);
    assert PublishManual(m) in trace && AllocatorRefresh(Some(k)) in trace;
  }
}
