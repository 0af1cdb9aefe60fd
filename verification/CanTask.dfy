/** The output task: reloads the configuration when parameters change, then updates. */
module CanTasks {
  import opened Options
  import opened CanChannels
  import opened CanLog
  import opened CanOutputs
  import opened MixingOutputs

  /** What a read of the output parameters yields, channel by channel. */
  datatype Parameters = Parameters(channels: seq<Stored>, functions: seq<Option<int>>, failAction: Option<int>)
  {
    ghost predicate Complete() { |channels| == 4 == |functions| }

    ghost predicate Loads()
      requires Complete()
    {
      && (forall i :: 0 <= i < 4 ==> LoadChannel(KindOf(i), channels[i]).Some?)
      && (forall i :: 0 <= i < 4 ==> functions[i].Some? && FunctionOf(functions[i].value).Some?)
      && failAction.Some?
    }
  }

  /** What one cycle finds: the time, whether parameters were announced as changed, what reading
      them yields on each of the two occasions, and new messages. */
  datatype Inputs = Inputs(
    now: Time, notified: bool, announced: Parameters, pending: Parameters,
    armed: Option<Armed>, motors: Option<Actuators>, servos: Option<Actuators>)

  ghost predicate Ordered(last: Time, script: seq<Inputs>)
  {
    && (forall k :: 0 <= k < |script| ==> last <= script[k].now && 0 < script[k].now)
    && (forall k :: 0 <= k < |script| ==> script[k].announced.Complete() && script[k].pending.Complete())
    && (forall j, k :: 0 <= j < k < |script| ==> script[j].now <= script[k].now)
  }

  /** What is in force, and whether it counts as valid. */
  datatype Configuration = Configuration(channels: seq<Channel>, functions: seq<Function>, action: int, valid: bool)

  /** The configuration is what the parameters load as. */
  ghost predicate Shows(c: Configuration, p: Parameters)
  {
    && p.Complete() && |c.channels| == 4 == |c.functions|
    && (forall i :: 0 <= i < 4 ==> LoadChannel(KindOf(i), p.channels[i]) == Some(c.channels[i]))
    && (forall i :: 0 <= i < 4 ==> p.functions[i].Some? && FunctionOf(p.functions[i].value) == Some(c.functions[i]))
    && p.failAction == Some(c.action)
  }

  ghost predicate ShownBy(c: Configuration, inputs: Inputs)
  {
    Shows(c, inputs.announced) || Shows(c, inputs.pending)
  }

  /** It counts as valid only if it loaded in a cycle from k on and before i. */
  ghost predicate LoadedSince(c: Configuration, script: seq<Inputs>, k: nat, i: nat)
    requires i <= |script|
  {
    c.valid ==> exists m :: k <= m < i && ShownBy(c, script[m])
  }

  function ConfigurationOf(o: Observation, valid: bool): Configuration
  {
    Configuration(o.channels, o.functions, o.action, valid)
  }

  /** The messages last received. */
  datatype Messages = Messages(armed: Armed, motors: Actuators, servos: Actuators)

  /** Those that the script has brought, or else the first ones. */
  function Brought(first: Messages, script: seq<Inputs>): Messages
  {
    if script == [] then first
    else
      var m, inputs := Brought(first, script[..|script| - 1]), script[|script| - 1];
      Messages(inputs.armed.GetOr(m.armed), inputs.motors.GetOr(m.motors), inputs.servos.GetOr(m.servos))
  }

  /** The observations are those of the cycles in order, on the messages brought by then. */
  ghost predicate Replays(added: seq<Observation>, first: Messages, script: seq<Inputs>)
  {
    && |added| == |script|
    && forall k :: 0 <= k < |script| ==>
         && added[k].now == script[k].now
         && Messages(added[k].armed, added[k].motors, added[k].servos) == Brought(first, script[..k + 1])
  }

  lemma ReplaysMore(added: seq<Observation>, o: Observation, first: Messages, script: seq<Inputs>)
    requires script != [] && Replays(added, first, script[..|script| - 1])
    requires o.now == script[|script| - 1].now && Messages(o.armed, o.motors, o.servos) == Brought(first, script)
    ensures Replays(added + [o], first, script)
  {
    var front := script[..|script| - 1];
    assert forall k :: 0 <= k < |front| ==> front[..k + 1] == script[..k + 1] && front[k] == script[k];
    assert script[..|script|] == script;
  }

  /** Cycle i drives after a change announced in cycle k only with what has loaded since then. */
  ghost predicate Gated(o: Observation, script: seq<Inputs>, k: nat, i: nat)
    requires i < |script|
  {
    NoneDriving(o.frames, 0) || LoadedSince(ConfigurationOf(o, true), script, k, i + 1)
  }

  ghost predicate AllGated(added: seq<Observation>, script: seq<Inputs>)
    requires |added| <= |script|
  {
    forall k, i :: 0 <= k <= i < |added| && script[k].notified ==> Gated(added[i], script, k, i)
  }

  /** The same of what is in force after the first i cycles. */
  ghost predicate Settled(c: Configuration, script: seq<Inputs>, i: nat)
    requires i <= |script|
  {
    forall k :: 0 <= k < i && script[k].notified ==> LoadedSince(c, script, k, i)
  }

  lemma GatedMore(added: seq<Observation>, o: Observation, script: seq<Inputs>, was: Configuration, c: Configuration,
                  reloaded: bool)
    requires |added| < |script| && AllGated(added, script) && Settled(was, script, |added|)
    requires c == ConfigurationOf(o, c.valid) && (!c.valid ==> NoneDriving(o.frames, 0))
    requires script[|added|].notified ==> reloaded
    requires if reloaded then c.valid ==> ShownBy(c, script[|added|]) else c == was
    ensures AllGated(added + [o], script) && Settled(c, script, |added| + 1)
  {
    var n := |added|;
    forall k | 0 <= k <= n && script[k].notified
      ensures LoadedSince(c, script, k, n + 1) && Gated(o, script, k, n)
    {
      if !reloaded {
        assert LoadedSince(was, script, k, n);
      }
    }
    assert forall i :: 0 <= i < n ==> (added + [o])[i] == added[i];
  }

  /** What holds after the first i cycles. */
  ghost predicate Progress(added: seq<Observation>, first: Messages, now: Messages, c: Configuration,
                           script: seq<Inputs>, i: nat)
    requires i <= |script|
  {
    && Replays(added, first, script[..i]) && now == Brought(first, script[..i])
    && AllGated(added, script) && Settled(c, script, i)
  }

  lemma ProgressMore(added: seq<Observation>, o: Observation, first: Messages, was: Messages,
                     before: Configuration, c: Configuration, script: seq<Inputs>, i: nat, reloaded: bool)
    requires i < |script| && Progress(added, first, was, before, script, i)
    requires c == ConfigurationOf(o, c.valid) && (!c.valid ==> NoneDriving(o.frames, 0))
    requires script[i].notified ==> reloaded
    requires if reloaded then c.valid ==> ShownBy(c, script[i]) else c == before
    requires o.now == script[i].now && o.armed == script[i].armed.GetOr(was.armed)
    requires o.motors == script[i].motors.GetOr(was.motors) && o.servos == script[i].servos.GetOr(was.servos)
    ensures Progress(added + [o], first, Messages(o.armed, o.motors, o.servos), c, script, i + 1)
  {
    assert script[..i + 1][..i] == script[..i];
    GatedMore(added, o, script, before, c, reloaded);
    ReplaysMore(added, o, first, script[..i + 1]);
  }

  lemma ProgressEnds(added: seq<Observation>, first: Messages, now: Messages, c: Configuration, script: seq<Inputs>)
    ensures Progress([], first, first, c, script, 0)
    ensures Progress(added, first, now, c, script, |script|) ==>
              Replays(added, first, script) && AllGated(added, script)
  {
    assert script[..|script|] == script && script[..0] == [];
  }

  class CanTask {
    const driver: CanOutput
    const mixing: MixingOutput

    ghost predicate Valid()
      reads this, mixing, driver
    {
      mixing.driver == driver && mixing.Valid()
    }

    /** Until a reload that could not stop the old configuration has been made good, the
        parameters count as invalid, so that nothing is driven. */
    ghost predicate Refusing()
      reads driver
    {
      driver.reloadPending ==> !driver.parametersValid
    }

    /** The parameters have been taken over: validity, and if they load, every channel and function. */
    ghost predicate InForce(p: Parameters)
      requires p.Complete()
      reads driver, mixing
    {
      && driver.parametersValid == p.Loads()
      && (p.Loads() ==> Reflects(p))
    }

    function InPlace(): Configuration
      reads driver, mixing
    {
      Configuration(driver.channels, mixing.functions, mixing.failAction, driver.parametersValid)
    }

    ghost predicate Reflects(p: Parameters)
      reads driver, mixing
    {
      Shows(InPlace(), p)
    }

    constructor (driver: CanOutput, mixing: MixingOutput)
      requires mixing.driver == driver && mixing.Valid()
      ensures this.driver == driver && this.mixing == mixing
    {
      this.driver, this.mixing := driver, mixing;
    }

    /** Reads everything; only with nothing enabled. */
    method UpdateParams(p: Parameters) returns (valid: bool)
      requires Valid() && p.Complete() && !driver.protocolArmed && !driver.disablePending
      modifies driver`channels, driver`log, mixing`functions, mixing`failAction
      ensures Valid() && (valid <==> p.Loads())
      ensures old(driver.log) <= driver.log && NoneDriving(driver.log, |old(driver.log)|)
      ensures p.failAction.Some? ==> mixing.failAction == p.failAction.value
      ensures p.Loads() ==> Reflects(p)
    {
      valid := driver.RefreshParameters(p.channels);
      AccountsMore(mixing.history, old(driver.log), driver.log);
      if p.failAction.Some? {
        mixing.failAction := p.failAction.value;
      } else {
        valid := false;
      }
      var known := mixing.UpdateParams(p.functions);
      valid := known && valid;
    }

    /** Stops the old configuration; only if that worked may it be replaced. */
    method StopAndUpdate(p: Parameters) returns (stopped: bool)
      requires Valid() && p.Complete()
      modifies driver, mixing`functions, mixing`failAction
      ensures Valid() && driver.reloadPending == old(driver.reloadPending)
      ensures old(driver.log) <= driver.log && NoneDriving(driver.log, |old(driver.log)|)
      ensures stopped ==> InForce(p) && !driver.protocolArmed && !driver.disablePending
      ensures old(!driver.protocolArmed && !driver.disablePending) ==> stopped
      ensures !stopped ==> Refused(driver.log, |old(driver.log)|)
      ensures !stopped ==> driver.channels == old(driver.channels) && mixing.functions == old(mixing.functions)
      ensures !stopped ==> driver.parametersValid == old(driver.parametersValid)
    {
      stopped := StopNow();
      if stopped {
        var valid := UpdateParams(p);
        driver.parametersValid := valid;
      }
    }

    /** Stops, and lets others in afterwards; nothing that drives comes of it. */
    method StopNow() returns (stopped: bool)
      requires Valid()
      modifies driver`writes, driver`log, driver`turns, driver`protocolArmed, driver`disablePending
      ensures Valid() && old(driver.log) <= driver.log && NoneDriving(driver.log, |old(driver.log)|)
      ensures stopped ==>
                !driver.protocolArmed && !driver.disablePending && MayMove(driver.setup.enabled, driver.log) == {}
      ensures old(!driver.protocolArmed && !driver.disablePending) ==> stopped
      ensures !stopped ==> Refused(driver.log, |old(driver.log)|)
    {
      driver.Yield();
      stopped := driver.Stop();
      if stopped {
        driver.Yield();
      }
      AccountsMore(mixing.history, old(driver.log), driver.log);
    }

    /** Announced parameters: either they are in force now, or a reload is owed. */
    method Announce(p: Parameters)
      requires Valid() && Refusing() && p.Complete()
      modifies driver, mixing`functions, mixing`failAction
      ensures Valid() && Owing() && old(driver.log) <= driver.log
      ensures driver.reloadPending || InForce(p)
      ensures driver.reloadPending && !old(driver.reloadPending) ==> Refused(driver.log, |old(driver.log)|)
    {
      var stopped := StopAndUpdate(p);
      if !stopped {
        Postpone();
      }
    }

    /** The reload is owed, and until it is made good nothing counts as valid. */
    method Postpone()
      requires Valid()
      modifies driver`parametersValid, driver`reloadPending
      ensures Valid() && driver.reloadPending && !driver.parametersValid
    {
      driver.parametersValid, driver.reloadPending := false, true;
    }

    /** A reload that is owed and valid parameters go together only right after a stop. */
    ghost predicate Owing()
      reads driver
    {
      driver.reloadPending && driver.parametersValid ==> !driver.protocolArmed && !driver.disablePending
    }

    /** Makes an owed reload good if the driver stops. */
    method Settle(p: Parameters)
      requires Valid() && Owing() && driver.reloadPending && p.Complete()
      modifies driver, mixing`functions, mixing`failAction
      ensures Valid() && Refusing() && old(driver.log) <= driver.log
      ensures if driver.reloadPending then Refused(driver.log, |old(driver.log)|) else InForce(p)
    {
      var stopped := StopAndUpdate(p);
      if stopped {
        driver.reloadPending := false;
      }
    }

    function Received(): Messages
      reads mixing
    {
      Messages(mixing.armed, mixing.motors, mixing.servos)
    }

    method Reload(inputs: Inputs)
      requires Valid() && Refusing() && inputs.announced.Complete() && inputs.pending.Complete()
      modifies driver, mixing`functions, mixing`failAction
      ensures Valid() && Refusing() && old(driver.log) <= driver.log
      ensures driver.reloadPending ==> Refused(driver.log, |old(driver.log)|)
      ensures inputs.notified && !driver.reloadPending ==> InForce(inputs.announced) || InForce(inputs.pending)
      ensures (inputs.notified || old(driver.reloadPending)) && driver.parametersValid ==>
                Reflects(inputs.announced) || Reflects(inputs.pending)
      ensures !inputs.notified && !old(driver.reloadPending) ==>
                InPlace() == old(InPlace()) && driver.log == old(driver.log) && !driver.reloadPending
      ensures mixing.armed == old(mixing.armed) && mixing.motors == old(mixing.motors)
              && mixing.servos == old(mixing.servos) && mixing.history == old(mixing.history)
    {
      if inputs.notified {
        Announce(inputs.announced);
      }
      if driver.reloadPending {
        Settle(inputs.pending);
      }
    }

    method Cycle(inputs: Inputs) returns (ok: bool, ghost o: Observation)
      requires Valid() && Refusing() && 0 < inputs.now && LastTime(mixing.history) <= inputs.now
      requires inputs.announced.Complete() && inputs.pending.Complete()
      modifies driver, mixing
      ensures Valid() && Refusing() && LastTime(mixing.history) == inputs.now
      ensures mixing.armed == inputs.armed.GetOr(old(mixing.armed)) == o.armed
      ensures mixing.motors == inputs.motors.GetOr(old(mixing.motors)) == o.motors
      ensures mixing.servos == inputs.servos.GetOr(old(mixing.servos)) == o.servos
      ensures mixing.history == old(mixing.history) + [o] && o.now == inputs.now
      ensures old(driver.log) <= driver.log && (driver.reloadPending ==> Refused(driver.log, |old(driver.log)|))
      ensures inputs.notified && !driver.reloadPending ==> InForce(inputs.announced) || InForce(inputs.pending)
      ensures (inputs.notified || old(driver.reloadPending)) && driver.parametersValid ==>
                Reflects(inputs.announced) || Reflects(inputs.pending)
      ensures !inputs.notified && !old(driver.reloadPending) ==> InPlace() == old(InPlace())
      ensures InPlace() == ConfigurationOf(o, driver.parametersValid)
      ensures !driver.parametersValid ==> NoneDriving(o.frames, 0)
    {
      Reload(inputs);
      ok, o := mixing.Update(inputs.now, inputs.armed, inputs.motors, inputs.servos);
    }

    /** One cycle of a run. */
    method Next(script: seq<Inputs>, i: nat, ghost h: seq<Observation>, ghost added: seq<Observation>,
                ghost first: Messages)
      returns (ghost more: seq<Observation>)
      requires Valid() && Refusing() && i < |script| && 0 < script[i].now && LastTime(mixing.history) <= script[i].now
      requires script[i].announced.Complete() && script[i].pending.Complete()
      requires mixing.history == h + added && Progress(added, first, Received(), InPlace(), script, i)
      modifies driver, mixing
      ensures Valid() && Refusing() && LastTime(mixing.history) == script[i].now
      ensures mixing.history == h + more && Progress(more, first, Received(), InPlace(), script, i + 1)
    {
      ghost var was, before, reloaded := Received(), InPlace(), script[i].notified || driver.reloadPending;
      var _, o := Cycle(script[i]);
      ProgressMore(added, o, first, was, before, InPlace(), script, i, reloaded);
      more := added + [o];
    }

    /** Every run: whatever the inputs, write failures and commands of other tasks, the log of
        frames stays safe and the history of updates sound. It gains one update for each cycle, on
        the messages the script has brought by then; and after a change was announced nothing
        drives but with parameters loaded since. */
    method Run(script: seq<Inputs>) returns (ghost added: seq<Observation>)
      requires Valid() && Refusing() && Ordered(LastTime(mixing.history), script)
      modifies driver, mixing
      ensures Valid() && Safe(driver.setup, driver.log)
      ensures Sound(driver.setup.enabled, mixing.history) && Accounts(mixing.history, driver.log)
      ensures mixing.history == old(mixing.history) + added
      ensures Replays(added, old(Received()), script) && AllGated(added, script)
    {
      added := [];
      ghost var first, h := Received(), mixing.history;
      ProgressEnds([], first, first, InPlace(), script);
      for i := 0 to |script|
        invariant Valid() && Refusing() && (i < |script| ==> LastTime(mixing.history) <= script[i].now)
        invariant mixing.history == h + added && Progress(added, first, Received(), InPlace(), script, i)
      {
        added := Next(script, i, h, added, first);
      }
      ProgressEnds(added, first, Received(), InPlace(), script);
    }
  }

  /** The output task comes up only with a configuration that loads and a device that opens, and
      then assumes that any of the configured motors may be enabled. */
  method Instantiate(p: Parameters, opens: bool, accepts: nat -> bool, others: nat -> seq<Management>,
                     ghost enabled: set<nat>)
    returns (task: Option<CanTask>)
    requires p.Complete()
    requires forall id :: id in enabled ==>
               exists i :: 0 <= i < 4 && p.channels[i].protocol == 1 && LoadChannel(KindOf(i), p.channels[i]).Some?
                           && FrameId(LoadChannel(KindOf(i), p.channels[i]).value) == id
    ensures task.Some? <==> p.Loads() && opens
    ensures task.Some? ==>
              fresh(task.value.driver) && fresh(task.value.mixing) && task.value.Valid() && task.value.Refusing()
    ensures task.Some? ==> task.value.driver.setup.enabled == enabled && task.value.driver.log == []
    ensures task.Some? ==> task.value.mixing.history == [] && task.value.mixing.armed == NOTHING_ARMED
  {
    var channels: seq<Channel> := [];
    var functions: seq<Function> := [];
    for i := 0 to 4
      invariant |channels| == i == |functions|
      invariant forall j :: 0 <= j < i ==> LoadChannel(KindOf(j), p.channels[j]) == Some(channels[j])
      invariant forall j :: 0 <= j < i ==>
                  p.functions[j].Some? && FunctionOf(p.functions[j].value) == Some(functions[j])
    {
      var channel := LoadChannel(KindOf(i), p.channels[i]);
      var assignment := if p.functions[i].Some? then FunctionOf(p.functions[i].value) else None;
      if channel.None? || assignment.None? {
        return None;
      }
      channels, functions := channels + [channel.value], functions + [assignment.value];
    }
    if p.failAction.None? || !opens {
      return None;
    }
    forall id | id in enabled
      ensures IsConfigured(channels, id)
    {
      var i :| 0 <= i < 4 && p.channels[i].protocol == 1 && LoadChannel(KindOf(i), p.channels[i]).Some?
               && FrameId(LoadChannel(KindOf(i), p.channels[i]).value) == id;
      assert channels[i].protocol.Damiao?;
    }
    var driver := new CanOutput(channels, accepts, others, enabled);
    var mixing := new MixingOutput(driver, functions, p.failAction.value);
    var t := new CanTask(driver, mixing);
    task := Some(t);
  }
}
