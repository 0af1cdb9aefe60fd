/** What every update of the output stage must do and must not do, over any run: said of the
    messages it has, the numbers it is configured with and the frames that are its own. */
module OutputRuns {
  import opened Options
  import opened CanChannels
  import opened CanLog
  import opened CanOutputs
  import opened Floats
  import opened MixingOutputs

  /** Which number gives a channel which function, in 16 bits. */
  lemma FunctionNumbers(value: int, i: nat)
    requires i < 8
    ensures FunctionOf(value) == Some(Motor(i)) <==> value % 65536 == 101 + i
    ensures FunctionOf(value) == Some(Servo(i)) <==> value % 65536 == 201 + i
    ensures FunctionOf(value) == Some(Disabled) <==> value % 65536 == 0
  {
  }

  ghost predicate Assigned(o: Observation, c: nat) { c < |o.functions| && !o.functions[c].Disabled? }

  /** The safety state says armed and not locked and is at most 500 ms old, and some channel has a
      function. */
  ghost predicate MayDrive(o: Observation)
  {
    && o.armed.armed && !o.armed.lockdown && 0 < o.armed.timestamp <= o.now <= o.armed.timestamp + 500_000
    && exists c :: Assigned(o, c)
  }

  predicate Supplies(m: Actuators, i: nat, now: Time)
  {
    && m.valid && 0 < m.timestamp <= now <= m.timestamp + 500_000
    && i < m.count && i < |m.control| && m.control[i].Finite?
  }

  /** The channel has what its function needs. */
  ghost predicate Supplied(o: Observation, c: nat)
    requires c < |o.functions|
  {
    match o.functions[c]
    case Disabled => true
    case Motor(i) => Supplies(o.motors, i, o.now)
    case Servo(i) => Supplies(o.servos, i, o.now)
  }

  ghost predicate Faulty(o: Observation)
  {
    exists c :: 0 <= c < |o.functions| && !Supplied(o, c)
  }

  /** The control of the channel's function acts as x. */
  ghost predicate Wants(o: Observation, c: nat, x: real)
    requires c < |o.functions| && Supplied(o, c)
  {
    match o.functions[c]
    case Disabled => x == 0.0
    case Motor(i) => ActsAs(o.motors.control[i], x)
    case Servo(i) => ActsAs(o.servos.control[i], x)
  }

  /** The channel has taken the command for this output. */
  ghost predicate Takes(o: Observation, c: nat, x: real)
    requires c < |o.channels|
  {
    && PayloadOf(o.channels[c], Finite(x)).Some?
    && Frame(FrameId(o.channels[c]), Motion(PayloadOf(o.channels[c], Finite(x)).value), true) in o.frames
  }

  ghost predicate AnyRefused(o: Observation)
  {
    exists k :: 0 <= k < |o.frames| && o.frames[k].Frame? && !o.frames[k].accepted
  }

  /** The driver is called every 20 ms only, unless something has changed. */
  predicate InPeriod(o: Observation)
  {
    !o.turn.last.stopped && 0 < o.turn.last.time <= o.now < o.turn.last.time + 20_000 && !o.turn.changed
  }

  lemma {:induction false} UpdateAt(enabled: set<nat>, h: seq<Observation>, j: nat)
    requires Sound(enabled, h) && j < |h|
    ensures |h[j].functions| == 4 && h[j].turn.last == CallAfter(h[..j])
    ensures Follows(enabled, h[j], FaultStart(h[..j + 1]), Joined(h[..j + 1]), Begin(h, j))
    ensures Begin(h, j) <= |Joined(h[..j + 1])| && h[j].frames == Joined(h[..j + 1])[Begin(h, j)..]
  {
    FollowsAt(enabled, h, j);
    SoundPrefix(enabled, h, j);
    assert h[..j + 1][..j] == h[..j] && h[..j + 1][j] == h[j];
    assert Joined(h[..j + 1]) == Joined(h[..j]) + h[j].before + h[j].frames;
  }

  lemma LiveMeans(o: Observation)
    ensures o.Live() <==> MayDrive(o)
  {
    if o.Live() {
      var c :| 0 <= c < |o.functions| && InUse(o.functions[c]);
      assert Assigned(o, c);
    }
  }

  lemma DataMeans(o: Observation)
    ensures DataValid(o.functions, o.motors, o.servos, o.now) <==> !Faulty(o)
  {
    if DataValid(o.functions, o.motors, o.servos, o.now) {
      forall c | 0 <= c < |o.functions|
        ensures Supplied(o, c)
      {
        assert Available(o.functions[c], o.motors, o.servos);
      }
    }
    if !Faulty(o) {
      forall c | 0 <= c < |o.functions|
        ensures Available(o.functions[c], o.motors, o.servos)
        ensures o.functions[c].Motor? ==> o.motors.valid && Fresh(o.motors.timestamp, o.now)
        ensures o.functions[c].Servo? ==> o.servos.valid && Fresh(o.servos.timestamp, o.now)
      {
        assert Supplied(o, c);
      }
    }
  }

  /** An update that may drive counts as faulty exactly when a channel lacks what it needs. */
  lemma FaultExactly(enabled: set<nat>, h: seq<Observation>, j: nat)
    requires Sound(enabled, h) && j < |h| && MayDrive(h[j])
    ensures h[j].fault <==> Faulty(h[j])
  {
    UpdateAt(enabled, h, j);
    LiveMeans(h[j]);
    DataMeans(h[j]);
  }

  // ---------------------------------------------------------------------------
  // The three kinds of update.
  // ---------------------------------------------------------------------------

  /** The motors are halted: none may move, or each has been offered a disable frame by it. */
  ghost predicate Halts(enabled: set<nat>, h: seq<Observation>, j: nat)
    requires j < |h|
  {
    Halted(enabled, h[j].channels, Joined(h[..j + 1]), Begin(h, j))
  }

  /** The driver is asked to stop, and that fails only if the device refuses a frame. */
  ghost predicate Stops(enabled: set<nat>, h: seq<Observation>, j: nat)
    requires j < |h|
  {
    var o := h[j];
    && NoneDriving(o.frames, 0) && Halts(enabled, h, j)
    && o.turn.next == Call(o.turn.ok, o.now) && (!o.turn.ok ==> AnyRefused(o))
  }

  /** Nothing is sent. */
  predicate Rests(o: Observation) { o.frames == [] && o.turn.ok && o.turn.next == o.turn.last }

  lemma OnFrames(o: Observation, log: seq<Entry>, from: nat)
    requires from <= |log| && o.frames == log[from..]
    ensures Refused(log, from) ==> AnyRefused(o)
    ensures forall e: Entry :: SentSince(log, from, e) ==> e in o.frames
    ensures |log| == from ==> o.frames == []
  {
    if Refused(log, from) {
      var k :| from <= k < |log| && log[k].Frame? && !log[k].accepted;
      assert o.frames[k - from] == log[k];
    }
    forall e: Entry | SentSince(log, from, e)
      ensures e in o.frames
    {
      var k :| from <= k < |log| && log[k] == e;
      assert o.frames[k - from] == e;
    }
  }

  /** An update that may not drive puts no driving frame on the bus. Unless the driver is known to be
      stopped and nothing has changed for 20 ms, it is asked to stop; and if the update succeeds no
      motor may move. */
  lemma IdleUpdate(enabled: set<nat>, h: seq<Observation>, j: nat)
    requires Sound(enabled, h) && j < |h| && !MayDrive(h[j])
    ensures var o := h[j]; var last := CallAfter(h[..j]);
            && NoneDriving(o.frames, 0) && (o.turn.ok ==> MayMove(enabled, Joined(h[..j + 1])) == {})
            && if last.stopped && 0 < last.time <= o.now < last.time + 20_000 && !o.turn.armChanged then Rests(o)
               else Stops(enabled, h, j)
  {
    UpdateAt(enabled, h, j);
    LiveMeans(h[j]);
    OnFrames(h[j], Joined(h[..j + 1]), Begin(h, j));
  }

  /** What channel c is to get is x: zero, or else what its control wants. */
  ghost predicate Due(o: Observation, zero: bool, c: nat, x: real)
  {
    if zero then x == 0.0 else c < |o.functions| && Supplied(o, c) && Wants(o, c, x)
  }

  /** Every assigned channel takes the command for what it is to get, or the motors are halted; and
      that only if the driver could not be asked, a frame was refused, or a command could not be
      encoded. */
  ghost predicate Drives(enabled: set<nat>, h: seq<Observation>, j: nat, zero: bool)
    requires j < |h| && |h[j].channels| == 4
  {
    var o := h[j];
    && o.turn.next.time == o.now
    && if o.turn.ok then
         && o.turn.usable && !o.turn.next.stopped
         && forall c: nat :: c < 4 && Assigned(o, c) && o.channels[c].protocol.Damiao? ==>
              exists x :: Due(o, zero, c, x) && Takes(o, c, x)
       else
         && Halts(enabled, h, j)
         && (o.turn.usable ==>
               || AnyRefused(o)
               || exists c: nat, x :: c < 4 && o.channels[c].protocol.Damiao? && Due(o, zero, c, x)
                     && PayloadOf(o.channels[c], Finite(x)).None?)
  }

  lemma OutputIsDue(o: Observation, c: nat)
    requires |o.functions| == 4 && c < 4 && c < |o.outputs|
    requires if o.fault then AllZero(o.outputs) else IsRouting(o.outputs, o.functions, o.motors, o.servos) && !Faulty(o)
    ensures o.outputs[c].Finite? && Due(o, o.fault, c, o.outputs[c].value)
  {
    if !o.fault {
      assert Supplied(o, c);
    }
  }

  lemma DrivesMeans(enabled: set<nat>, h: seq<Observation>, j: nat)
    requires j < |h| && |h[j].channels| == 4 == |h[j].functions| && |h[j].outputs| == 4
    requires Begin(h, j) <= |Joined(h[..j + 1])| && h[j].frames == Joined(h[..j + 1])[Begin(h, j)..]
    requires Called(enabled, h[j].channels, AllInUse(h[j].functions), h[j].outputs, h[j].turn, Joined(h[..j + 1]),
                    Begin(h, j), h[j].now)
    requires Outputs(h[j]) && (!h[j].fault ==> !Faulty(h[j]))
    ensures Drives(enabled, h, j, h[j].fault)
  {
    var o := h[j];
    OnFrames(o, Joined(h[..j + 1]), Begin(h, j));
    forall c: nat | c < 4
      ensures o.outputs[c].Finite? && Due(o, o.fault, c, o.outputs[c].value)
      ensures AllInUse(o.functions)[c] == Assigned(o, c)
    {
      OutputIsDue(o, c);
    }
    if o.turn.ok {
      forall c: nat | c < 4 && Assigned(o, c) && o.channels[c].protocol.Damiao?
        ensures exists x :: Due(o, o.fault, c, x) && Takes(o, c, x)
      {
        assert Takes(o, c, o.outputs[c].value);
      }
    } else if o.turn.usable && !AnyRefused(o) {
      var c :| 0 <= c < 4 && AllInUse(o.functions)[c] && o.channels[c].protocol.Damiao?
               && PayloadOf(o.channels[c], o.outputs[c]).None?;
      assert Due(o, o.fault, c, o.outputs[c].value);
    }
  }

  /** An update that may drive and lacks nothing rests while its period lasts, and else commands every
      assigned channel what its own control says. */
  lemma LiveUpdate(enabled: set<nat>, h: seq<Observation>, j: nat)
    requires Sound(enabled, h) && j < |h| && MayDrive(h[j]) && !Faulty(h[j])
    ensures |h[j].channels| == 4 && h[j].turn.last == CallAfter(h[..j])
    ensures if InPeriod(h[j]) then Rests(h[j]) else Drives(enabled, h, j, false)
  {
    UpdateAt(enabled, h, j);
    LiveMeans(h[j]);
    FaultExactly(enabled, h, j);
    if InPeriod(h[j]) {
      OnFrames(h[j], Joined(h[..j + 1]), Begin(h, j));
    } else {
      DrivesMeans(enabled, h, j);
    }
  }

  /** Every frame that can make a motor move was put there by an update that may drive, for a
      channel with a function: it enables that channel, or commands what the channel is to get. */
  lemma DrivingMeans(enabled: set<nat>, h: seq<Observation>, log: seq<Entry>, n: nat) returns (j: nat, c: nat)
    requires Sound(enabled, h) && Accounts(h, log) && n < |log| && Driving(log[n])
    ensures AppendedBy(h, n, j) && MayDrive(h[j]) && Assigned(h[j], c) && c < 4 == |h[j].channels|
    ensures log[n].id == FrameId(h[j].channels[c])
    ensures || log[n].command.Enable?
            || exists x :: Due(h[j], Faulty(h[j]), c, x) && PayloadOf(h[j].channels[c], Finite(x)) ==
                             Some(log[n].command.payload)
  {
    j := DrivesOnlyWhenPermitted(enabled, h, log, n);
    UpdateAt(enabled, h, j);
    LiveMeans(h[j]);
    FaultExactly(enabled, h, j);
    c := ChannelOf(h[j], log[n]);
    CarriesDue(h[j], c, log[n]);
  }

  lemma CarriesDue(o: Observation, c: nat, e: Entry)
    requires |o.functions| == 4 && c < 4 && c < |o.outputs| && c < |o.channels| && Outputs(o)
    requires o.fault <==> Faulty(o)
    requires IsFor(o.channels[c], o.outputs[c], e)
    ensures || e.command.Enable?
            || exists x :: Due(o, o.fault, c, x) && PayloadOf(o.channels[c], Finite(x)) == Some(e.command.payload)
  {
    if !e.command.Enable? {
      OutputIsDue(o, c);
      assert o.outputs[c] == Finite(o.outputs[c].value);
    }
  }

  // ---------------------------------------------------------------------------
  // The action in case of a fault.
  // ---------------------------------------------------------------------------

  ghost predicate InFault(o: Observation) { MayDrive(o) && Faulty(o) }

  /** A fault has lasted from update i to update j, and began there. */
  ghost predicate FaultFrom(h: seq<Observation>, i: nat, j: nat)
    requires i <= j < |h|
  {
    && (forall k :: i <= k <= j ==> InFault(h[k]))
    && (0 < i ==> !InFault(h[i - 1]))
  }

  lemma FaultMeans(enabled: set<nat>, h: seq<Observation>, j: nat)
    requires Sound(enabled, h) && j < |h|
    ensures h[j].Live() && h[j].fault <==> InFault(h[j])
  {
    LiveMeans(h[j]);
    if MayDrive(h[j]) {
      FaultExactly(enabled, h, j);
    }
  }

  /** Update k counts as in fault exactly when it is. */
  ghost predicate Marked(h: seq<Observation>, k: nat)
    requires k < |h|
  {
    0 < h[k].now && (h[k].Live() && h[k].fault <==> InFault(h[k]))
  }

  lemma AllMarked(enabled: set<nat>, h: seq<Observation>)
    requires Sound(enabled, h)
    ensures forall k :: 0 <= k < |h| ==> Marked(h, k)
  {
    forall k | 0 <= k < |h|
      ensures Marked(h, k)
    {
      SoundPrefix(enabled, h, k);
      FaultMeans(enabled, h, k);
    }
  }

  lemma {:induction false} FaultStartIs(h: seq<Observation>, i: nat)
    requires i < |h| && FaultFrom(h, i, |h| - 1) && forall k :: 0 <= k < |h| ==> Marked(h, k)
    ensures FaultStart(h) == h[i].now && 0 < h[i].now
  {
    var n := |h| - 1;
    var front := h[..n];
    assert Marked(h, n);
    if i < n {
      assert forall k :: 0 <= k < n ==> Marked(front, k) == Marked(h, k);
      FaultStartIs(front, i);
    } else if 0 < n {
      assert Marked(h, n - 1) && front[n - 1] == h[n - 1];
    }
  }

  /** The three actions. With action 0, or a number there is no action for, an update in fault stops
      the driver at once; with action 1 it goes on commanding zero however long the fault lasts; with
      action 2 it does so until the fault is 500 ms old and then stops the driver. */
  lemma FaultActions(enabled: set<nat>, h: seq<Observation>, i: nat, j: nat)
    requires Sound(enabled, h) && i <= j < |h| && FaultFrom(h, i, j)
    ensures |h[j].channels| == 4 && h[j].turn.last == CallAfter(h[..j])
    ensures h[j].action == 1 || (h[j].action == 2 && h[j].now < h[i].now + 500_000) ==>
              && (forall k :: 0 <= k < |h[j].frames| && Driving(h[j].frames[k]) ==>
                   IsNeutral(h[j].channels, h[j].frames[k]))
              && if InPeriod(h[j]) then Rests(h[j]) else Drives(enabled, h, j, true)
    ensures h[j].action != 1 && !(h[j].action == 2 && h[j].now < h[i].now + 500_000) ==> Stops(enabled, h, j)
  {
    UpdateAt(enabled, h, j);
    FaultMeans(enabled, h, j);
    SoundPrefix(enabled, h, j);
    AllMarked(enabled, h[..j + 1]);
    FaultStartIs(h[..j + 1], i);
    if h[j].action == 1 || (h[j].action == 2 && h[j].now < h[i].now + 500_000) {
      GoesOn(enabled, h, j);
    } else {
      GivesUp(enabled, h, j);
    }
  }

  lemma GoesOn(enabled: set<nat>, h: seq<Observation>, j: nat)
    requires Sound(enabled, h) && j < |h| && InFault(h[j]) && !h[j].Due(FaultStart(h[..j + 1]))
    ensures |h[j].channels| == 4
    ensures forall k :: 0 <= k < |h[j].frames| && Driving(h[j].frames[k]) ==>
              IsNeutral(h[j].channels, h[j].frames[k])
    ensures if InPeriod(h[j]) then Rests(h[j]) else Drives(enabled, h, j, true)
  {
    UpdateAt(enabled, h, j);
    FaultMeans(enabled, h, j);
    forall k | 0 <= k < |h[j].frames| && Driving(h[j].frames[k])
      ensures IsNeutral(h[j].channels, h[j].frames[k])
    {
      NeutralFrame(h[j], h[j].frames[k]);
    }
    if InPeriod(h[j]) {
      OnFrames(h[j], Joined(h[..j + 1]), Begin(h, j));
    } else {
      DrivesMeans(enabled, h, j);
    }
  }

  lemma GivesUp(enabled: set<nat>, h: seq<Observation>, j: nat)
    requires Sound(enabled, h) && j < |h| && InFault(h[j]) && h[j].Due(FaultStart(h[..j + 1]))
    ensures |h[j].channels| == 4 && Stops(enabled, h, j)
  {
    UpdateAt(enabled, h, j);
    FaultMeans(enabled, h, j);
    OnFrames(h[j], Joined(h[..j + 1]), Begin(h, j));
  }
}
