/** The frames offered to the CAN device, in order, and what they say about the motors. */
module CanLog {
  import opened CanChannels

  datatype Command = Enable | Disable | SetZero | ClearError | Motion(payload: Payload)

  /** A frame and whether the device accepted it, or a replacement of the channel configuration. */
  datatype Entry = Frame(id: nat, command: Command, accepted: bool) | Reconfigured(channels: seq<Channel>)

  /** What a driver starts with: motors that may be enabled already, and its configuration. */
  datatype Setup = Setup(enabled: set<nat>, channels: seq<Channel>)

  /** The configuration in force. */
  function ChannelsAt(setup: Setup, log: seq<Entry>): seq<Channel>
  {
    if log == [] then setup.channels
    else if log[|log| - 1].Reconfigured? then log[|log| - 1].channels
    else ChannelsAt(setup, log[..|log| - 1])
  }

  /** The payload respects the limits of a configured channel with this identifier. */
  ghost predicate Respects(channels: seq<Channel>, id: nat, payload: Payload)
  {
    exists c :: 0 <= c < |channels| && channels[c].protocol.Damiao? && FrameId(channels[c]) == id
        && WithinLimits(channels[c], payload)
  }

  /** The motors that may be enabled: an enable frame was offered, or the motor was possibly
      enabled to begin with, and no disable frame has been accepted since. */
  function MayMove(initial: set<nat>, log: seq<Entry>): set<nat>
  {
    if log == [] then initial
    else
      var before, e := MayMove(initial, log[..|log| - 1]), log[|log| - 1];
      if e.Frame? && e.command.Enable? then before + {e.id}
      else if e.Frame? && e.command.Disable? && e.accepted then before - {e.id}
      else before
  }

  /** The motors that are enabled: an enable frame was accepted and no disable frame has even
      been offered since. */
  function Enabled(log: seq<Entry>): set<nat>
  {
    if log == [] then {}
    else
      var before, e := Enabled(log[..|log| - 1]), log[|log| - 1];
      if e.Frame? && e.command.Enable? && e.accepted then before + {e.id}
      else if e.Frame? && e.command.Disable? then before - {e.id}
      else before
  }

  /** What the next entry must respect. */
  ghost predicate Allowed(setup: Setup, log: seq<Entry>, next: Entry)
  {
    match next
    case Reconfigured(_) => MayMove(setup.enabled, log) == {}
    case Frame(id, SetZero, _) => MayMove(setup.enabled, log) == {}
    case Frame(id, ClearError, _) => MayMove(setup.enabled, log) == {}
    case Frame(id, Motion(payload), _) => id in Enabled(log) && Respects(ChannelsAt(setup, log), id, payload)
    case _ => true
  }

  ghost predicate Safe(setup: Setup, log: seq<Entry>)
  {
    log == [] || (Safe(setup, log[..|log| - 1]) && Allowed(setup, log[..|log| - 1], log[|log| - 1]))
  }

  /** One more entry. */
  lemma Offer(setup: Setup, log: seq<Entry>, next: Entry)
    ensures Safe(setup, log) && Allowed(setup, log, next) ==> Safe(setup, log + [next])
    ensures MayMove(setup.enabled, log + [next]) ==
            if next.Frame? && next.command.Enable? then MayMove(setup.enabled, log) + {next.id}
            else if next.Frame? && next.command.Disable? && next.accepted then MayMove(setup.enabled, log) - {next.id}
            else MayMove(setup.enabled, log)
    ensures ChannelsAt(setup, log + [next]) == if next.Reconfigured? then next.channels else ChannelsAt(setup, log)
    ensures Enabled(log + [next]) ==
            if next.Frame? && next.command.Enable? && next.accepted then Enabled(log) + {next.id}
            else if next.Frame? && next.command.Disable? then Enabled(log) - {next.id}
            else Enabled(log)
  {
    assert (log + [next])[..|log|] == log;
  }

  // ---------------------------------------------------------------------------
  // What a safe log means, frame by frame.
  // ---------------------------------------------------------------------------

  predicate IsDisable(e: Entry, id: nat) { e.Frame? && e.id == id && e.command.Disable? }

  ghost predicate NoneFrom(log: seq<Entry>, j: nat, id: nat, acceptedOnly: bool)
  {
    forall k :: j <= k < |log| ==> !(IsDisable(log[k], id) && (log[k].accepted || !acceptedOnly))
  }

  /** At entry j the motor was told to enable, and no disable frame follows. */
  ghost predicate EnabledAt(log: seq<Entry>, j: nat, id: nat)
  {
    j < |log| && log[j] == Frame(id, Enable, true) && NoneFrom(log, j + 1, id, false)
  }

  ghost predicate OfferedAt(log: seq<Entry>, j: nat, id: nat)
  {
    j < |log| && log[j].Frame? && log[j].id == id && log[j].command.Enable? && NoneFrom(log, j + 1, id, true)
  }

  lemma {:induction false} EnabledMeans(log: seq<Entry>, id: nat) returns (j: nat)
    requires id in Enabled(log)
    ensures EnabledAt(log, j, id)
  {
    var n := |log| - 1;
    if log[n] == Frame(id, Enable, true) {
      j := n;
    } else {
      j := EnabledMeans(log[..n], id);
      forall k | j + 1 <= k < |log|
        ensures !IsDisable(log[k], id)
      {
        if k < n {
          assert log[..n][k] == log[k];
        }
      }
    }
  }

  /** A motor not among those that may move has been disabled since each enable frame. */
  lemma {:induction false} MayMoveMeans(initial: set<nat>, log: seq<Entry>, j: nat, id: nat)
    requires OfferedAt(log, j, id)
    ensures id in MayMove(initial, log)
  {
    var n := |log| - 1;
    if j < n {
      assert forall k :: 0 <= k < n ==> log[..n][k] == log[k];
      MayMoveMeans(initial, log[..n], j, id);
      assert !IsDisable(log[n], id) || !log[n].accepted;
    }
  }

  lemma {:induction false} InitialMayMove(initial: set<nat>, log: seq<Entry>, id: nat)
    requires id in initial && NoneFrom(log, 0, id, true)
    ensures id in MayMove(initial, log)
  {
    if log != [] {
      var n := |log| - 1;
      assert forall k :: 0 <= k < n ==> log[..n][k] == log[k];
      InitialMayMove(initial, log[..n], id);
      assert !IsDisable(log[n], id) || !log[n].accepted;
    }
  }

  lemma {:induction false} SafePrefix(setup: Setup, log: seq<Entry>, i: nat)
    requires Safe(setup, log) && i < |log|
    ensures Allowed(setup, log[..i], log[i])
  {
    var n := |log| - 1;
    if i < n {
      SafePrefix(setup, log[..n], i);
      assert log[..n][..i] == log[..i];
    }
  }

  /** Every motion frame of a safe log goes to a motor whose enable frame was accepted, with
      no disable frame offered to it in between. */
  lemma MotionOnlyToEnabled(setup: Setup, log: seq<Entry>, i: nat) returns (j: nat)
    requires Safe(setup, log) && i < |log| && log[i].Frame? && log[i].command.Motion?
    ensures EnabledAt(log[..i], j, log[i].id)
  {
    SafePrefix(setup, log, i);
    j := EnabledMeans(log[..i], log[i].id);
  }

  /** And it commands a speed or position within the limits of a channel that is configured at
      that moment with the frame's identifier. */
  lemma MotionWithinLimits(setup: Setup, log: seq<Entry>, i: nat)
    requires Safe(setup, log) && i < |log| && log[i].Frame? && log[i].command.Motion?
    ensures Respects(ChannelsAt(setup, log[..i]), log[i].id, log[i].command.payload)
  {
    SafePrefix(setup, log, i);
  }

  predicate NeedsStandstill(e: Entry)
  {
    e.Reconfigured? || e.command.SetZero? || e.command.ClearError?
  }

  /** The configuration is replaced, and zero and clear frames are sent, only after every motor
      that was ever offered an enable frame, or possibly enabled at the start, has accepted a
      disable frame that came later. */
  lemma StandstillOnlyWhenDisabled(setup: Setup, log: seq<Entry>, i: nat, id: nat)
    requires Safe(setup, log) && i < |log| && NeedsStandstill(log[i])
    ensures id in setup.enabled ==> !NoneFrom(log[..i], 0, id, true)
    ensures forall j :: !OfferedAt(log[..i], j, id)
  {
    SafePrefix(setup, log, i);
    if id in setup.enabled && NoneFrom(log[..i], 0, id, true) {
      InitialMayMove(setup.enabled, log[..i], id);
    }
    forall j: nat
      ensures !OfferedAt(log[..i], j, id)
    {
      if OfferedAt(log[..i], j, id) {
        MayMoveMeans(setup.enabled, log[..i], j, id);
      }
    }
  }
}
