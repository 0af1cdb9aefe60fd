/** The CAN driver: whatever the device does with each frame, motion frames go only to motors
    known to be enabled, and the configuration changes only while none can be enabled. */
module CanOutputs {
  import opened Options
  import opened CanChannels
  import opened CanLog
  import opened Floats

  function KindOf(index: nat): Kind { if index < 2 then MotorKind else ServoKind }

  /** Of the four channels two are motors and two are servos. */
  lemma KindNumbers()
    ensures [KindOf(0), KindOf(1), KindOf(2), KindOf(3)] == [MotorKind, MotorKind, ServoKind, ServoKind]
  {
  }

  ghost predicate IsConfigured(channels: seq<Channel>, id: nat)
  {
    exists c :: 0 <= c < |channels| && channels[c].protocol.Damiao? && FrameId(channels[c]) == id
  }

  /** The motors of all channels with an assigned function are enabled. */
  ghost predicate AllEnabled(channels: seq<Channel>, inUse: seq<bool>, enabled: set<nat>)
  {
    forall c :: 0 <= c < |channels| && c < |inUse| && inUse[c] && channels[c].protocol.Damiao? ==>
      FrameId(channels[c]) in enabled
  }

  ghost predicate SentSince(log: seq<Entry>, from: nat, e: Entry)
  {
    exists k :: from <= k < |log| && log[k] == e
  }

  /** The device has refused a frame. */
  ghost predicate Refused(log: seq<Entry>, from: nat)
  {
    exists k :: from <= k < |log| && log[k].Frame? && !log[k].accepted
  }

  /** Some assigned channel has an output that cannot be encoded. */
  ghost predicate Unencodable(channels: seq<Channel>, inUse: seq<bool>, outputs: seq<Float>)
  {
    exists c :: 0 <= c < |channels| && c < |inUse| && c < |outputs| && inUse[c] && channels[c].protocol.Damiao?
                && PayloadOf(channels[c], outputs[c]).None?
  }

  ghost predicate OfferedDisable(channel: Channel, log: seq<Entry>, from: nat)
  {
    channel.protocol.Damiao? && FrameId(channel) <= 0x7ff ==>
      exists k :: from <= k < |log| && IsDisable(log[k], FrameId(channel))
  }

  /** No motor may move, or every configured motor has been offered a disable frame. */
  ghost predicate Halted(enabled: set<nat>, channels: seq<Channel>, log: seq<Entry>, from: nat)
  {
    MayMove(enabled, log) == {} || forall c :: 0 <= c < |channels| ==> OfferedDisable(channels[c], log, from)
  }

  /** Every assigned channel has had its output accepted in a motion frame. */
  ghost predicate AllCommanded(channels: seq<Channel>, inUse: seq<bool>, outputs: seq<Float>, log: seq<Entry>,
                               from: nat)
  {
    forall c :: 0 <= c < |channels| && c < |inUse| && c < |outputs| && inUse[c] && channels[c].protocol.Damiao? ==>
      && PayloadOf(channels[c], outputs[c]).Some?
      && SentSince(log, from, Frame(FrameId(channels[c]), Motion(PayloadOf(channels[c], outputs[c]).value), true))
  }

  /** The entries that can make a motor move. */
  predicate Driving(e: Entry) { e.Frame? && (e.command.Enable? || e.command.Motion?) }

  /** The frame enables this channel or carries its output. */
  predicate IsFor(channel: Channel, output: Float, e: Entry)
  {
    && e.Frame? && FrameId(channel) == e.id
    && (e.command.Enable?
        || (PayloadOf(channel, output).Some? && e.command == Motion(PayloadOf(channel, output).value)))
  }

  /** The frame is for a channel with an assigned function. */
  ghost predicate IsDriving(channels: seq<Channel>, inUse: seq<bool>, outputs: seq<Float>, e: Entry)
  {
    exists c :: 0 <= c < |channels| && c < |inUse| && c < |outputs| && inUse[c] && IsFor(channels[c], outputs[c], e)
  }

  ghost predicate NoneDriving(log: seq<Entry>, from: nat)
  {
    forall k :: from <= k < |log| ==> !Driving(log[k])
  }

  /** Whatever can make a motor move carries the outputs of the assigned channels. */
  ghost predicate DrivesBy(channels: seq<Channel>, inUse: seq<bool>, outputs: seq<Float>, log: seq<Entry>, from: nat)
  {
    forall k :: from <= k < |log| && Driving(log[k]) ==> IsDriving(channels, inUse, outputs, log[k])
  }

  /** A zero or clear command from another task, with what its gate reads from elsewhere. */
  datatype Management = Management(clear: bool, index: nat, inhibited: bool, published: bool, armed: bool,
                                   lockdown: bool)

  class CanOutput {
    var channels: seq<Channel>
    var parametersValid: bool
    var reloadPending: bool
    /** Motors are not assumed to be disabled after a restart. */
    var disablePending: bool
    var protocolArmed: bool
    /** What the device will do with each frame. */
    const accepts: nat -> bool
    var writes: nat
    /** The commands other tasks get in before each lock acquisition of the output task. */
    const others: nat -> seq<Management>
    var turns: nat
    /** The motors possibly enabled when the driver starts, and its first configuration. */
    ghost const setup: Setup
    ghost var log: seq<Entry>

    ghost predicate Valid()
      reads this
    {
      && |channels| == 4 && channels == ChannelsAt(setup, log)
      && (forall c :: 0 <= c < 4 ==> Loaded(channels[c]))
      && (forall id :: id in MayMove(setup.enabled, log) ==> IsConfigured(channels, id))
      && (MayMove(setup.enabled, log) != {} ==> protocolArmed || disablePending)
      && Safe(setup, log)
    }

    /** The driver may be asked to drive: if it need not enable first, all is enabled. */
    ghost predicate Covers(inUse: seq<bool>)
      reads this
    {
      protocolArmed && !disablePending ==> AllEnabled(channels, inUse, Enabled(log))
    }

    /** The state of a driver whose configuration has been loaded, with any of the configured
        motors possibly enabled. */
    constructor (channels: seq<Channel>, accepts: nat -> bool, others: nat -> seq<Management>, ghost enabled: set<nat>)
      requires |channels| == 4 && forall c :: 0 <= c < 4 ==> Loaded(channels[c])
      requires forall id :: id in enabled ==> IsConfigured(channels, id)
      ensures Valid() && setup == Setup(enabled, channels) && log == [] && this.channels == channels
      ensures disablePending && !protocolArmed && !reloadPending && parametersValid
      ensures this.accepts == accepts && this.others == others && writes == 0 == turns
    {
      this.channels, this.accepts, this.others := channels, accepts, others;
      setup := Setup(enabled, channels);
      parametersValid, reloadPending, disablePending, protocolArmed := true, false, true, false;
      writes, turns, log := 0, 0, [];
    }

    method WriteFrame(id: nat, command: Command) returns (accepted: bool)
      modifies this`writes, this`log
      ensures log == old(log) + [Frame(id, command, accepted)]
      ensures accepted == accepts(old(writes)) && writes == old(writes) + 1
    {
      accepted := accepts(writes);
      writes := writes + 1;
      log := log + [Frame(id, command, accepted)];
    }

    /** One management frame to one channel. */
    method SendSpecial(index: nat, command: Command) returns (success: bool)
      requires index < |channels|
      modifies this`writes, this`log
      ensures log == if channels[index].protocol.Damiao? && FrameId(channels[index]) <= 0x7ff
                     then old(log) + [Frame(FrameId(channels[index]), command, success)] else old(log)
      ensures channels[index].protocol.NoProtocol? ==> success
      ensures channels[index].protocol.Damiao? && FrameId(channels[index]) > 0x7ff ==> !success
    {
      var config := channels[index];
      if config.protocol.NoProtocol? {
        return true;
      }
      if FrameId(config) > 0x7ff {
        return false;
      }
      success := WriteFrame(FrameId(config), command);
    }

    method DisableOne(index: nat) returns (sent: bool)
      requires index < |channels| && Safe(setup, log)
      modifies this`writes, this`log
      ensures Safe(setup, log) && MayMove(setup.enabled, log) <= old(MayMove(setup.enabled, log))
      ensures ChannelsAt(setup, log) == old(ChannelsAt(setup, log))
      ensures sent && channels[index].protocol.Damiao? ==> FrameId(channels[index]) !in MayMove(setup.enabled, log)
      ensures old(log) <= log && NoneDriving(log, |old(log)|) && OfferedDisable(channels[index], log, |old(log)|)
      ensures FrameId(channels[index]) <= 0x7ff && !sent ==> Refused(log, |old(log)|)
    {
      sent := SendSpecial(index, Disable);
      Offer(setup, old(log), Frame(FrameId(channels[index]), Disable, sent));
      assert log != old(log) ==> IsDisable(log[|old(log)|], FrameId(channels[index]));
    }

    /** Disable frames to all channels: nothing new may move, and if every frame was accepted
        nothing may move at all. */
    method DisableAll() returns (success: bool)
      requires Valid()
      modifies this`writes, this`log
      ensures Valid() && MayMove(setup.enabled, log) <= old(MayMove(setup.enabled, log))
      ensures if success then MayMove(setup.enabled, log) == {} else Refused(log, |old(log)|)
      ensures old(log) <= log && NoneDriving(log, |old(log)|) && forall c :: 0 <= c < 4 ==>
                OfferedDisable(channels[c], log, |old(log)|)
    {
      success := true;
      for index := 0 to 4
        invariant Safe(setup, log) && MayMove(setup.enabled, log) <= old(MayMove(setup.enabled, log))
        invariant channels == ChannelsAt(setup, log)
        invariant success ==> forall c :: 0 <= c < index && channels[c].protocol.Damiao? ==>
                    FrameId(channels[c]) !in MayMove(setup.enabled, log)
        invariant !success ==> Refused(log, |old(log)|)
        invariant old(log) <= log && NoneDriving(log, |old(log)|) && forall c :: 0 <= c < index ==>
                    OfferedDisable(channels[c], log, |old(log)|)
      {
        var sent := DisableOne(index);
        success := sent && success;
      }
    }

    /** Enable frames to the channels with a function. */
    method EnableAssigned(inUse: seq<bool>, ghost outputs: seq<Float>) returns (success: bool)
      requires Valid() && |inUse| == 4 == |outputs| && protocolArmed
      modifies this`writes, this`log
      ensures Valid() && old(log) <= log && DrivesBy(channels, inUse, outputs, log, |old(log)|)
      ensures if success then AllEnabled(channels, inUse, Enabled(log)) else Refused(log, |old(log)|)
    {
      success := true;
      for index := 0 to 4
        invariant Valid() && old(log) <= log && DrivesBy(channels, inUse, outputs, log, |old(log)|)
        invariant success ==> AllEnabled(channels, inUse[..index], Enabled(log))
        invariant !success ==> Refused(log, |old(log)|)
      {
        ghost var before := log;
        if inUse[index] {
          var sent := SendSpecial(index, Enable);
          Offer(setup, before, Frame(FrameId(channels[index]), Enable, sent));
          assert log != before ==> IsFor(channels[index], outputs[index], log[|before|]);
          success := sent && success;
        }
      }
      assert inUse[..4] == inUse;
    }

    /** The zero and clear commands: refused unless output is inhibited, the published safety
        state is disarmed and locked, and the driver itself is disarmed for certain. */
    method Manage(m: Management) returns (success: bool)
      requires Valid() && m.index < 4
      modifies this`writes, this`log
      ensures Valid() && Enabled(log) == old(Enabled(log))
              && MayMove(setup.enabled, log) == old(MayMove(setup.enabled, log))
      ensures if !m.inhibited || !m.published || m.armed || !m.lockdown || disablePending || protocolArmed then
                !success && log == old(log)
              else if channels[m.index].protocol.NoProtocol? then success && log == old(log)
              else
                log == old(log) + [Frame(FrameId(channels[m.index]), if m.clear then ClearError else SetZero, success)]
    {
      if !m.inhibited || !m.published || m.armed || !m.lockdown || disablePending || protocolArmed {
        return false;
      }
      success := SendAtStandstill(m.index, if m.clear then ClearError else SetZero);
    }

    method SendAtStandstill(index: nat, command: Command) returns (success: bool)
      requires Valid() && index < 4 && MayMove(setup.enabled, log) == {} && (command.SetZero? || command.ClearError?)
      modifies this`writes, this`log
      ensures Valid() && Enabled(log) == old(Enabled(log)) && MayMove(setup.enabled, log) == {}
      ensures log == if channels[index].protocol.NoProtocol? then old(log)
                     else old(log) + [Frame(FrameId(channels[index]), command, success)]
      ensures channels[index].protocol.NoProtocol? ==> success
    {
      success := SendSpecial(index, command);
      Offer(setup, old(log), Frame(FrameId(channels[index]), command, success));
    }

    /** A command of another task; an index out of range is refused before the lock is taken. */
    method Admit(m: Management)
      requires Valid()
      modifies this`writes, this`log
      ensures Valid() && Enabled(log) == old(Enabled(log))
              && MayMove(setup.enabled, log) == old(MayMove(setup.enabled, log))
      ensures old(log) <= log && (protocolArmed || disablePending ==> log == old(log))
      ensures NoneDriving(log, |old(log)|)
      ensures || m.index >= 4 || !m.inhibited || !m.published || m.armed || !m.lockdown
              || disablePending || protocolArmed || channels[m.index].protocol.NoProtocol? || |log| == |old(log)| + 1
    {
      if m.index < 4 {
        var _ := Manage(m);
      }
    }

    /** Whatever other tasks do before the output task gets the lock. */
    method Yield()
      requires Valid()
      modifies this`writes, this`log, this`turns
      ensures Valid() && Enabled(log) == old(Enabled(log))
              && MayMove(setup.enabled, log) == old(MayMove(setup.enabled, log))
      ensures old(log) <= log && (protocolArmed || disablePending ==> log == old(log))
      ensures NoneDriving(log, |old(log)|) && turns == old(turns) + 1
    {
      var commands := others(turns);
      turns := turns + 1;
      for i := 0 to |commands|
        invariant turns == old(turns) + 1
        invariant Valid() && Enabled(log) == old(Enabled(log))
                  && MayMove(setup.enabled, log) == old(MayMove(setup.enabled, log))
        invariant old(log) <= log && (protocolArmed || disablePending ==> log == old(log))
        invariant NoneDriving(log, |old(log)|)
      {
        Admit(commands[i]);
      }
    }

    /** A motion frame, for the one mode that each kind of actuator is driven in. */
    method SendOne(index: nat, output: Float) returns (success: bool)
      requires Valid() && index < 4
      requires channels[index].protocol.Damiao? ==> FrameId(channels[index]) in Enabled(log)
      modifies this`writes, this`log
      ensures Valid() && Enabled(log) == old(Enabled(log))
      ensures var c := channels[index];
              log == if c.protocol.Damiao? && PayloadOf(c, output).Some? && FrameId(c) <= 0x7ff
                     then old(log) + [Frame(FrameId(c), Motion(PayloadOf(c, output).value), success)] else old(log)
      ensures log == old(log) ==> success == channels[index].protocol.NoProtocol?
    {
      var config := channels[index];
      if config.protocol.NoProtocol? {
        return true;
      }
      var payload := PayloadOf(config, output);
      if payload.None? || FrameId(config) > 0x7ff {
        return false;
      }
      PayloadWithinLimits(config, output);
      success := WriteFrame(FrameId(config), Motion(payload.value));
      Offer(setup, old(log), Frame(FrameId(config), Motion(payload.value), success));
    }

    method Stop() returns (stopped: bool)
      requires Valid()
      modifies this`writes, this`log, this`protocolArmed, this`disablePending
      ensures Valid()
      ensures stopped ==> !protocolArmed && !disablePending && MayMove(setup.enabled, log) == {}
      ensures !stopped ==> disablePending && old(protocolArmed || disablePending) && Refused(log, |old(log)|)
      ensures old(log) <= log && NoneDriving(log, |old(log)|)
      ensures Halted(setup.enabled, channels, log, |old(log)|)
    {
      if !protocolArmed && !disablePending {
        return true;
      }
      stopped := DisableAll();
      if stopped {
        protocolArmed, disablePending := false, false;
      } else {
        disablePending := true;
      }
    }

    /** Enables first if need be. Success means that every assigned channel took its frame. */
    method Drive(outputs: seq<Float>, inUse: seq<bool>) returns (success: bool)
      requires Valid() && Covers(inUse) && |outputs| == 4 == |inUse|
      modifies this`writes, this`log, this`protocolArmed
      ensures Valid() && old(log) <= log && DrivesBy(channels, inUse, outputs, log, |old(log)|)
      ensures !parametersValid || disablePending ==> !success && log == old(log) && protocolArmed == old(protocolArmed)
      ensures success ==> protocolArmed && Covers(inUse)
      ensures success ==> AllCommanded(channels, inUse, outputs, log, |old(log)|)
      ensures !success && parametersValid && !disablePending ==>
                Refused(log, |old(log)|) || Unencodable(channels, inUse, outputs)
    {
      if !parametersValid || disablePending {
        return false;
      }
      if !protocolArmed {
        protocolArmed := true;
        var enabled := EnableAssigned(inUse, outputs);
        if !enabled {
          return false;
        }
      }
      success := CommandAll(outputs, inUse);
    }

    method CommandAll(outputs: seq<Float>, inUse: seq<bool>) returns (success: bool)
      requires Valid() && |outputs| == 4 == |inUse| && AllEnabled(channels, inUse, Enabled(log))
      modifies this`writes, this`log
      ensures Valid() && Enabled(log) == old(Enabled(log)) && old(log) <= log
              && DrivesBy(channels, inUse, outputs, log, |old(log)|)
      ensures if success then AllCommanded(channels, inUse, outputs, log, |old(log)|)
              else Refused(log, |old(log)|) || Unencodable(channels, inUse, outputs)
    {
      success := true;
      for index := 0 to 4
        invariant Valid() && Enabled(log) == old(Enabled(log)) && old(log) <= log
                  && DrivesBy(channels, inUse, outputs, log, |old(log)|)
        invariant success ==> AllCommanded(channels, inUse[..index], outputs, log, |old(log)|)
        invariant !success ==> Refused(log, |old(log)|) || Unencodable(channels, inUse, outputs)
      {
        if inUse[index] {
          ghost var before := log;
          var sent := SendOne(index, outputs[index]);
          assert log != before ==> IsFor(channels[index], outputs[index], log[|before|]);
          success := sent && success;
        }
      }
      assert inUse[..4] == inUse;
    }

    /** Replaces the four channels if all of them load. */
    method RefreshParameters(stored: seq<Stored>) returns (valid: bool)
      requires Valid() && |stored| == 4 && MayMove(setup.enabled, log) == {}
      modifies this`channels, this`log
      ensures Valid() && Enabled(log) == old(Enabled(log)) && MayMove(setup.enabled, log) == {}
      ensures valid <==> forall i :: 0 <= i < 4 ==> LoadChannel(KindOf(i), stored[i]).Some?
      ensures if valid then
                log == old(log) + [Reconfigured(channels)] && forall i :: 0 <= i < 4 ==>
                  LoadChannel(KindOf(i), stored[i]) == Some(channels[i])
              else log == old(log) && channels == old(channels)
    {
      var loaded: seq<Channel> := [];
      for i := 0 to 4
        invariant |loaded| == i
        invariant forall j :: 0 <= j < i ==> LoadChannel(KindOf(j), stored[j]) == Some(loaded[j])
      {
        var channel := LoadChannel(KindOf(i), stored[i]);
        if channel.None? {
          return false;
        }
        loaded := loaded + [channel.value];
      }
      Offer(setup, log, Reconfigured(loaded));
      channels, log := loaded, log + [Reconfigured(loaded)];
      valid := true;
    }
  }
}
