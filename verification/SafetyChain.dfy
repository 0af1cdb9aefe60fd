/** The command module, the stages from RC samples to motor messages and the output task, run
    together; and what therefore stands behind every frame that can make a motor move. */
module SafetyChain {
  import opened Options
  import opened Floats
  import opened CanLog
  import opened CanOutputs
  import opened MixingOutputs
  import opened CanTasks
  import opened Arming
  import Commands = ArmingRuns
  import Pipeline
  import PipelineAge

  /** An event of the command module, a step of a stage, or a cycle of the output task. A cycle
      reads the safety state and the motor message as it finds them; `again` is whether the motor
      message counts as new although it is the same. */
  datatype Event =
    | Commanding(event: Commands.Event)
    | Staging(step: Pipeline.Step)
    | Cycling(inputs: CanTasks.Inputs, again: bool)

  function CommandsIn(script: seq<Event>): seq<Commands.Event>
  {
    if script == [] then []
    else
      var front, e := script[..|script| - 1], script[|script| - 1];
      if e.Commanding? then CommandsIn(front) + [e.event] else CommandsIn(front)
  }

  function StagesIn(script: seq<Event>): seq<Pipeline.Step>
  {
    if script == [] then []
    else
      var front, e := script[..|script| - 1], script[|script| - 1];
      if e.Staging? then StagesIn(front) + [e.step] else StagesIn(front)
  }

  lemma {:induction false} StagesPrefix(script: seq<Event>, k: nat)
    requires k <= |script|
    ensures StagesIn(script[..k]) <= StagesIn(script)
    ensures forall step :: step in StagesIn(script[..k]) ==> Staging(step) in script[..k]
  {
    if k < |script| {
      var front := script[..|script| - 1];
      StagesPrefix(front, k);
      assert front[..k] == script[..k];
    } else {
      assert script[..k] == script;
      StagesListed(script);
    }
  }

  lemma {:induction false} StagesListed(script: seq<Event>)
    ensures forall step :: step in StagesIn(script) ==> Staging(step) in script
  {
    if script != [] {
      StagesListed(script[..|script| - 1]);
    }
  }

  // ---------------------------------------------------------------------------
  // What the updates of the output task have to do with the script.
  // ---------------------------------------------------------------------------

  /** The update of a cycle saw the safety state last published by then, and the motor message
      that had reached it. */
  ghost predicate IsFed(o: Observation, armSwitch: int, timeout: Time, before: seq<Event>, inputs: CanTasks.Inputs)
  {
    && o.now == inputs.now && o.armed == Commands.Topic(armSwitch, CommandsIn(before))
    && o.motors == Pipeline.Run(Pipeline.START, StagesIn(before), timeout).received
  }

  /** The updates are those of the cycles, in order. */
  ghost predicate Fed(h: seq<Observation>, armSwitch: int, timeout: Time, script: seq<Event>)
    decreases |script|
  {
    if script == [] then h == []
    else
      var front, e := script[..|script| - 1], script[|script| - 1];
      if e.Cycling? then
        h != [] && Fed(h[..|h| - 1], armSwitch, timeout, front)
            && IsFed(h[|h| - 1], armSwitch, timeout, front, e.inputs)
      else Fed(h, armSwitch, timeout, front)
  }

  lemma FedPass(h: seq<Observation>, armSwitch: int, timeout: Time, script: seq<Event>, e: Event)
    requires Fed(h, armSwitch, timeout, script) && !e.Cycling?
    ensures Fed(h, armSwitch, timeout, script + [e])
  {
    assert (script + [e])[..|script|] == script;
  }

  lemma FedCycle(h: seq<Observation>, o: Observation, armSwitch: int, timeout: Time, script: seq<Event>, e: Event)
    requires Fed(h, armSwitch, timeout, script) && e.Cycling? && IsFed(o, armSwitch, timeout, script, e.inputs)
    ensures Fed(h + [o], armSwitch, timeout, script + [e])
  {
    assert (script + [e])[..|script|] == script && (h + [o])[..|h|] == h;
  }

  /** The cycle of an update. */
  lemma {:induction false} CycleOf(h: seq<Observation>, armSwitch: int, timeout: Time, script: seq<Event>, j: nat)
    returns (k: nat)
    requires Fed(h, armSwitch, timeout, script) && j < |h|
    ensures k < |script| && script[k].Cycling? && IsFed(h[j], armSwitch, timeout, script[..k], script[k].inputs)
    decreases |script|
  {
    var front, e := script[..|script| - 1], script[|script| - 1];
    if e.Cycling? && j == |h| - 1 {
      k := |script| - 1;
    } else {
      k := CycleOf(if e.Cycling? then h[..|h| - 1] else h, armSwitch, timeout, front, j);
      assert front[..k] == script[..k];
    }
  }

  // ---------------------------------------------------------------------------
  // What stands behind a frame.
  // ---------------------------------------------------------------------------

  /** Behind every frame that can make a motor move stands an update of the command module: the
      last event of it before the cycle that put the frame there, at most 500 ms old by then, with
      output not inhibited. The switch was on at some update b up to that one and nowhere at any
      since, and it was off at an earlier update a, with no restart of the module and no change of
      the switch number since then. */
  lemma DriveRestsOnArming(enabled: set<nat>, h: seq<Observation>, log: seq<Entry>, n: nat,
                           armSwitch: int, timeout: Time, script: seq<Event>)
    returns (j: nat, k: nat, a: nat, b: nat)
    requires Sound(enabled, h) && Accounts(h, log) && Fed(h, armSwitch, timeout, script)
    requires n < |log| && Driving(log[n])
    ensures AppendedBy(h, n, j) && k < |script| && script[k].Cycling? && script[k].inputs.now == h[j].now
    ensures var s := CommandsIn(script[..k]);
            && s != [] && Commands.Last(s).Updating? && !Commands.Last(s).inhibited
            && Commands.Last(s).now <= h[j].now <= Commands.Last(s).now + 500_000
            && Commands.Arms(armSwitch, s, a, b)
  {
    j := DrivesOnlyWhenPermitted(enabled, h, log, n);
    k := CycleOf(h, armSwitch, timeout, script, j);
    var s := CommandsIn(script[..k]);
    Commands.ArmedExactly(armSwitch, s);
    a, b :| Commands.Arms(armSwitch, s, a, b);
  }

  ghost predicate RecentSample(script: seq<Event>, now: Time, age: nat)
  {
    exists m :: Staging(Pipeline.PublishManual(m)) in script && m.valid && m.timestampSample != 0
                && now <= m.timestampSample + age
  }

  /** Every motion frame on the bus carries the output of a channel; and if that channel belongs to
      a motor and the output is not zero, a valid sample had been published that was not older
      than the timeout plus 1.5 seconds when the frame was sent. */
  lemma MovingFrameIsBacked(enabled: set<nat>, h: seq<Observation>, log: seq<Entry>, n: nat,
                            armSwitch: int, timeout: Time, script: seq<Event>)
    returns (j: nat, k: nat, c: nat)
    requires Sound(enabled, h) && Accounts(h, log) && Fed(h, armSwitch, timeout, script)
    requires Pipeline.AllNeutral(StagesIn(script)) && n < |log| && log[n].Frame? && log[n].command.Motion?
    ensures AppendedBy(h, n, j) && h[j].Live()
    ensures k < |script| && script[k].Cycling? && IsFed(h[j], armSwitch, timeout, script[..k], script[k].inputs)
    ensures c < |h[j].functions| && c < |h[j].outputs| && c < |h[j].channels|
    ensures InUse(h[j].functions[c]) && IsFor(h[j].channels[c], h[j].outputs[c], log[n])
    ensures h[j].functions[c].Motor? && h[j].outputs[c] != ZERO ==>
              RecentSample(script[..k], h[j].now, timeout + 1_500_000)
  {
    j := DrivesOnlyWhenPermitted(enabled, h, log, n);
    k := CycleOf(h, armSwitch, timeout, script, j);
    var o := h[j];
    c := ChannelOf(o, log[n]);
    if o.functions[c].Motor? && o.outputs[c] != ZERO {
      ValidWhenMoving(enabled, h, j, c);
      SampleBehind(o, c, armSwitch, timeout, script, k);
    }
  }

  lemma SampleBehind(o: Observation, c: nat, armSwitch: int, timeout: Time, script: seq<Event>, k: nat)
    requires k < |script| && script[k].Cycling? && IsFed(o, armSwitch, timeout, script[..k], script[k].inputs)
    requires Pipeline.AllNeutral(StagesIn(script)) && c < |o.functions| && o.functions[c].Motor?
    requires DataValid(o.functions, o.motors, o.servos, o.now) && Routed(o.functions[c], o.motors, o.servos) != ZERO
    ensures RecentSample(script[..k], o.now, timeout + 1_500_000)
  {
    var seen := StagesIn(script[..k]);
    StagesPrefix(script, k);
    Pipeline.EndToEndStaleness(seen, timeout, o.functions, o.servos, c, o.now);
    var m :| Pipeline.PublishManual(m) in seen && m.valid && m.timestampSample != 0
             && o.now <= m.timestampSample + timeout + 1_500_000;
    assert Staging(Pipeline.PublishManual(m)) in script[..k];
  }

  /** If RobotControl is in step with Failsafe whenever it publishes, the output is that of the
      motor message seen, and its control is the scaled throttle of a published sample that is
      that young itself. */
  lemma MovingFrameIsOwn(enabled: set<nat>, h: seq<Observation>, log: seq<Entry>, n: nat,
                         armSwitch: int, timeout: Time, script: seq<Event>)
    returns (j: nat, k: nat, c: nat)
    requires Sound(enabled, h) && Accounts(h, log) && Fed(h, armSwitch, timeout, script)
    requires Pipeline.AllNeutral(StagesIn(script)) && PipelineAge.AllInStep(Pipeline.START, StagesIn(script), timeout)
    requires n < |log| && log[n].Frame? && log[n].command.Motion?
    ensures AppendedBy(h, n, j) && k < |script| && script[k].Cycling? && script[k].inputs.now == h[j].now
    ensures c < |h[j].functions| && c < |h[j].outputs| && c < |h[j].channels|
    ensures InUse(h[j].functions[c]) && IsFor(h[j].channels[c], h[j].outputs[c], log[n])
    ensures h[j].functions[c].Motor? && h[j].outputs[c] != ZERO ==>
              && h[j].now <= h[j].motors.timestampSample + timeout + 1_500_000
              && h[j].functions[c].index < |h[j].motors.control|
              && h[j].outputs[c] == ConstrainUnit(h[j].motors.control[h[j].functions[c].index])
              && PipelineAge.FromSample(StagesIn(script[..k]), h[j].motors, h[j].functions[c].index)
  {
    j, k, c := MovingFrameIsBacked(enabled, h, log, n, armSwitch, timeout, script);
    var o, seen := h[j], StagesIn(script[..k]);
    if o.functions[c].Motor? && o.outputs[c] != ZERO {
      ValidWhenMoving(enabled, h, j, c);
      StagesPrefix(script, k);
      PipelineAge.InStepPrefix(Pipeline.START, StagesIn(script), |seen|, timeout);
      assert StagesIn(script)[..|seen|] == seen;
      PipelineAge.OwnSampleAge(seen, timeout, o.functions, o.servos, c, o.now);
    }
  }

  /** An output that is not zero was routed from valid data. */
  lemma ValidWhenMoving(enabled: set<nat>, h: seq<Observation>, j: nat, c: nat)
    requires Sound(enabled, h) && j < |h| && h[j].Live() && c < |h[j].functions| && c < |h[j].outputs|
             && h[j].outputs[c] != ZERO
    ensures DataValid(h[j].functions, h[j].motors, h[j].servos, h[j].now)
    ensures Routed(h[j].functions[c], h[j].motors, h[j].servos) == h[j].outputs[c]
  {
    FollowsAt(enabled, h, j);
    var o := h[j];
    assert !(o.fault && AllZero(o.outputs));
  }

  // ---------------------------------------------------------------------------
  // Every run.
  // ---------------------------------------------------------------------------

  /** The events of the command module and the cycles happen at times that do not go back; the
      stages sample clocks of their own. */
  ghost predicate InOrder(last: Time, script: seq<Event>)
    decreases script
  {
    script == [] ||
    match script[0]
    case Commanding(event) => last <= event.now && InOrder(event.now, script[1..])
    case Staging(_) => InOrder(last, script[1..])
    case Cycling(inputs, _) =>
      && 0 < inputs.now && last <= inputs.now && inputs.announced.Complete() && inputs.pending.Complete()
      && InOrder(inputs.now, script[1..])
  }

  function TimeAfter(e: Event, last: Time): Time
  {
    match e
    case Commanding(event) => event.now
    case Staging(_) => last
    case Cycling(inputs, _) => inputs.now
  }

  lemma OneMore(script: seq<Event>, before: seq<Event>, clock: Time, events: seq<Event>, i: nat)
    requires i < |events| && script == before + events[..i] && InOrder(clock, events[i..])
    ensures script + [events[i]] == before + events[..i + 1]
    ensures InOrder(clock, [events[i]]) && InOrder(TimeAfter(events[i], clock), events[i + 1..])
  {
    assert events[i..][1..] == events[i + 1..];
  }

  /** A cycle of the output task, as far as the topics go. */
  method Serve(task: CanTask, inputs: CanTasks.Inputs) returns (ghost o: Observation)
    requires task.Valid() && task.Refusing() && 0 < inputs.now && LastTime(task.mixing.history) <= inputs.now
    requires inputs.announced.Complete() && inputs.pending.Complete()
    modifies task.driver, task.mixing
    ensures task.Valid() && task.Refusing() && LastTime(task.mixing.history) == inputs.now == o.now
    ensures task.mixing.armed == inputs.armed.GetOr(old(task.mixing.armed)) == o.armed
    ensures task.mixing.motors == inputs.motors.GetOr(old(task.mixing.motors)) == o.motors
    ensures task.mixing.history == old(task.mixing.history) + [o]
  {
    var _, seen := task.Cycle(inputs);
    o := seen;
  }

  /** What the command module goes by, its topic, and the state of the stages. */
  datatype Outcome = Outcome(watch: Watch, topic: Armed, world: Pipeline.World)

  ghost function After(o: Outcome, e: Event, timeout: Time): Outcome
  {
    match e
    case Commanding(event) =>
      var w := Commands.After(o.watch, event);
      o.(watch := w, topic := Commands.Published(w, event))
    case Staging(step) => o.(world := Pipeline.Apply(o.world, step, timeout))
    case Cycling(_, _) => o
  }

  ghost function OutcomeOf(armSwitch: int, timeout: Time, script: seq<Event>): Outcome
  {
    if script == [] then Outcome(Commands.Started(armSwitch), NOTHING_ARMED, Pipeline.START)
    else After(OutcomeOf(armSwitch, timeout, script[..|script| - 1]), script[|script| - 1], timeout)
  }

  lemma OutcomeSnoc(armSwitch: int, timeout: Time, script: seq<Event>, e: Event)
    ensures OutcomeOf(armSwitch, timeout, script + [e]) == After(OutcomeOf(armSwitch, timeout, script), e, timeout)
  {
    assert (script + [e])[..|script|] == script;
  }

  lemma {:induction false} OutcomeMeans(armSwitch: int, timeout: Time, script: seq<Event>)
    ensures var o := OutcomeOf(armSwitch, timeout, script);
            && o.watch == Commands.WatchIn(armSwitch, CommandsIn(script))
            && o.topic == Commands.Topic(armSwitch, CommandsIn(script))
            && o.world == Pipeline.Run(Pipeline.START, StagesIn(script), timeout)
  {
    if script != [] {
      var front, e := script[..|script| - 1], script[|script| - 1];
      OutcomeMeans(armSwitch, timeout, front);
      match e {
        case Commanding(event) => Commands.Snoc(armSwitch, CommandsIn(front), event);
        case Staging(step) => Pipeline.RunAppend(Pipeline.START, StagesIn(front), [step], timeout);
        case Cycling(_, _) =>
      }
    }
  }

  class Chain {
    var command: Arming.Command
    /** The safety state on the topic, and whether the output task has still to read it. */
    var topic: Armed
    var unread: bool
    var world: Pipeline.World
    const timeout: Time
    const task: CanTask
    const armSwitch: int
    /** What has happened so far, and when the last of it was. */
    ghost var script: seq<Event>
    ghost var clock: Time

    /** The command module and the stages are where the script leads them. */
    ghost predicate Sourced()
      reads `command, `topic, `world, `script, `clock, command, command.armSafety
    {
      && command.Valid() && command.lastWarning <= clock
      && command.State() == OutcomeOf(armSwitch, timeout, script).watch
      && topic == OutcomeOf(armSwitch, timeout, script).topic
      && world == OutcomeOf(armSwitch, timeout, script).world
    }

    ghost predicate Tasked()
      reads `clock, `unread, `topic, task, task.mixing, task.driver
    {
      && task.Valid() && task.Refusing() && LastTime(task.mixing.history) <= clock
      && (unread || task.mixing.armed == topic)
    }

    ghost predicate Valid()
      reads this, command, command.armSafety, task, task.mixing, task.driver
    {
      Sourced() && Tasked() && Fed(task.mixing.history, armSwitch, timeout, script)
    }

    constructor (task: CanTask, timeout: Time, armSwitch: int)
      requires task.Valid() && task.Refusing() && task.mixing.history == [] && task.mixing.armed == NOTHING_ARMED
      ensures Valid() && this.task == task && this.timeout == timeout && this.armSwitch == armSwitch
      ensures script == [] && clock == 0 && !unread && fresh(command) && fresh(command.armSafety)
    {
      this.task, this.timeout, this.armSwitch := task, timeout, armSwitch;
      command := new Arming.Command(armSwitch);
      topic, unread, world, clock, script := NOTHING_ARMED, false, Pipeline.START, 0, [];
    }

    /** The module handles an event and publishes. */
    method Publish(e: Commands.Event)
      requires command.Valid() && command.lastWarning <= e.now
      modifies `command, `topic, `unread, command, command.armSafety
      ensures command.Valid() && command.lastWarning <= e.now && unread
      ensures command.State() == Commands.After(old(command.State()), e)
      ensures topic == Commands.Published(command.State(), e)
      ensures command == old(command) || (fresh(command) && fresh(command.armSafety))
    {
      unread := true;
      match e {
        case Updating(now, mapping, sticks, switches, inhibited) =>
          var published, _ := command.Update(mapping, sticks, switches, inhibited, now);
          topic := published;
        case Restarting(now, number) =>
          var published := command.Stopped(now);
          topic := published;
          command := new Arming.Command(number);
      }
    }

    /** A cycle on what the topics hold. */
    method Feed(inputs: CanTasks.Inputs, again: bool) returns (ghost o: Observation)
      requires Tasked() && 0 < inputs.now && clock <= inputs.now
      requires inputs.announced.Complete() && inputs.pending.Complete()
      modifies `clock, `unread, task.driver, task.mixing
      ensures Tasked() && clock == inputs.now && !unread
      ensures task.mixing.history == old(task.mixing.history) + [o]
      ensures o.now == inputs.now && o.armed == topic && o.motors == world.received
    {
      var armed := if unread then Some(topic) else None;
      var motors := if again || world.received != task.mixing.motors then Some(world.received) else None;
      o := Serve(task, inputs.(armed := armed, motors := motors));
      unread, clock := false, inputs.now;
    }

    method Command(e: Event)
      requires Sourced() && e.Commanding? && clock <= e.event.now
      modifies `command, `topic, `unread, `script, `clock, command, command.armSafety
      ensures Sourced() && unread && script == old(script) + [e] && clock == e.event.now
      ensures command == old(command) || (fresh(command) && fresh(command.armSafety))
    {
      OutcomeSnoc(armSwitch, timeout, script, e);
      clock, script := e.event.now, script + [e];
      ghost var o := OutcomeOf(armSwitch, timeout, script);
      assert o.watch == Commands.After(command.State(), e.event) && o.world == world;
      assert o.topic == Commands.Published(o.watch, e.event);
      Publish(e.event);
    }

    method Stage(e: Event)
      requires Sourced() && e.Staging?
      modifies `world, `script
      ensures Sourced() && script == old(script) + [e]
    {
      OutcomeSnoc(armSwitch, timeout, script, e);
      world, script := Pipeline.Apply(world, e.step, timeout), script + [e];
    }

    method Cycle(e: Event)
      requires Sourced() && Tasked() && Fed(task.mixing.history, armSwitch, timeout, script)
      requires e.Cycling? && 0 < e.inputs.now && clock <= e.inputs.now
      requires e.inputs.announced.Complete() && e.inputs.pending.Complete()
      modifies `clock, `unread, `script, task.driver, task.mixing
      ensures Tasked() && Fed(task.mixing.history, armSwitch, timeout, script)
      ensures script == old(script) + [e] && clock == e.inputs.now
    {
      OutcomeMeans(armSwitch, timeout, script);
      ghost var h := task.mixing.history;
      ghost var o := Feed(e.inputs, e.again);
      FedCycle(h, o, armSwitch, timeout, script, e);
      script := script + [e];
    }

    /** What leaves the output task alone does not make it any less valid. */
    twostate lemma StillTasked()
      requires old(Tasked()) && unchanged(task, task.mixing, task.driver)
      requires old(clock) <= clock && (unread || (unread == old(unread) && topic == old(topic)))
      ensures Tasked()
    {
    }

    /** And what leaves the others alone does not make them so. */
    twostate lemma StillSourced(e: Event)
      requires old(Sourced()) && unchanged(`command, `topic, `world)
      requires unchanged(command, command.armSafety)
      requires old(clock) <= clock && e.Cycling? && script == old(script) + [e]
      ensures Sourced()
    {
      OutcomeSnoc(armSwitch, timeout, old(script), e);
    }

    method Step(e: Event)
      requires Valid() && InOrder(clock, [e])
      modifies this, command, command.armSafety, task.driver, task.mixing
      ensures Valid() && script == old(script) + [e] && clock == TimeAfter(e, old(clock))
      ensures command == old(command) || (fresh(command) && fresh(command.armSafety))
    {
      match e {
        case Commanding(_) =>
          FedPass(task.mixing.history, armSwitch, timeout, script, e);
          Command(e);
          StillTasked();
        case Staging(_) =>
          FedPass(task.mixing.history, armSwitch, timeout, script, e);
          Stage(e);
          StillTasked();
        case Cycling(_, _) =>
          Cycle(e);
          StillSourced(e);
      }
    }

    /** Every run of them all, from any state such a run has led to: what the lemmas above ask for
        holds of the log, the updates and everything that has happened. */
    method Run(events: seq<Event>)
      requires Valid() && InOrder(clock, events)
      modifies this, command, command.armSafety, task.driver, task.mixing
      ensures Valid() && script == old(script) + events
      ensures Fed(task.mixing.history, armSwitch, timeout, script)
      ensures Sound(task.driver.setup.enabled, task.mixing.history) && Accounts(task.mixing.history, task.driver.log)
    {
      for i := 0 to |events|
        invariant Valid() && InOrder(clock, events[i..]) && script == old(script) + events[..i]
        invariant command == old(command) || (fresh(command) && fresh(command.armSafety))
      {
        OneMore(script, old(script), clock, events, i);
        Step(events[i]);
      }
      assert events[..|events|] == events;
    }
  }
}
