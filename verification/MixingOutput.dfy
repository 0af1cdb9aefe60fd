/** The output stage that maps logical actuator messages to the channels of a driver. */
module MixingOutputs {
  import opened Options
  import opened CanChannels
  import opened CanLog
  import opened CanOutputs
  import opened Floats

  type Time = nat

  datatype Function = Disabled | Motor(index: nat) | Servo(index: nat)

  /** Function numbers are kept in 16 bits: 101..108 are motors, 201..208 servos. */
  function FunctionOf(value: int): (f: Option<Function>)
    ensures f.Some? && !f.value.Disabled? ==> f.value.index < 8
  {
    var v := value % 0x10000;
    if v == 0 then Some(Disabled)
    else if 101 <= v <= 108 then Some(Motor(v - 101))
    else if 201 <= v <= 208 then Some(Servo(v - 201))
    else None
  }

  /** The published safety state. */
  datatype Armed = Armed(timestamp: Time, armed: bool, valid: bool, lockdown: bool)

  /** Normalised targets for motors or for servos. */
  datatype Actuators = Actuators(timestamp: Time, timestampSample: Time, valid: bool, count: nat, control: seq<Float>)

  const NEUTRAL := [ZERO, ZERO, ZERO, ZERO, ZERO, ZERO, ZERO, ZERO]

  const NO_ACTUATORS := Actuators(0, 0, false, 0, NEUTRAL)

  const NOTHING_ARMED := Armed(0, false, false, false)

  predicate Fresh(timestamp: Time, now: Time)
  {
    timestamp != 0 && timestamp <= now && now - timestamp <= 500_000
  }

  predicate Permitted(a: Armed, now: Time) { a.armed && !a.lockdown && Fresh(a.timestamp, now) }

  // ---------------------------------------------------------------------------
  // Routing.
  // ---------------------------------------------------------------------------

  predicate HasControl(m: Actuators, index: nat)
  {
    index < m.count && index < |m.control| && m.control[index].Finite?
  }

  predicate Available(f: Function, motors: Actuators, servos: Actuators)
  {
    match f
    case Disabled => true
    case Motor(i) => HasControl(motors, i)
    case Servo(i) => HasControl(servos, i)
  }

  ghost predicate DataValid(functions: seq<Function>, motors: Actuators, servos: Actuators, now: Time)
  {
    forall c :: 0 <= c < |functions| ==>
      && (functions[c].Motor? ==> motors.valid && Fresh(motors.timestamp, now))
      && (functions[c].Servo? ==> servos.valid && Fresh(servos.timestamp, now))
      && Available(functions[c], motors, servos)
  }

  /** The value that belongs on a channel with the given function. */
  function Routed(f: Function, motors: Actuators, servos: Actuators): (r: Float)
    requires Available(f, motors, servos)
    ensures r.Finite? && -1.0 <= r.value <= 1.0
  {
    match f
    case Disabled => ZERO
    case Motor(i) => ConstrainUnit(motors.control[i])
    case Servo(i) => ConstrainUnit(servos.control[i])
  }

  /** The outputs carry each channel's logical control, clamped. */
  ghost predicate IsRouting(outputs: seq<Float>, functions: seq<Function>, motors: Actuators, servos: Actuators)
  {
    && |outputs| == |functions|
    && forall c :: 0 <= c < |functions| ==>
         Available(functions[c], motors, servos) && outputs[c] == Routed(functions[c], motors, servos)
  }

  ghost predicate AllZero(outputs: seq<Float>)
  {
    forall c :: 0 <= c < |outputs| ==> outputs[c] == ZERO
  }

  predicate InUse(f: Function) { !f.Disabled? }

  function AllInUse(functions: seq<Function>): (r: seq<bool>)
    requires |functions| == 4
  {
    [InUse(functions[0]), InUse(functions[1]), InUse(functions[2]), InUse(functions[3])]
  }

  ghost predicate AnyInUse(functions: seq<Function>)
  {
    exists c :: 0 <= c < |functions| && InUse(functions[c])
  }

  // ---------------------------------------------------------------------------
  // The history of updates.
  // ---------------------------------------------------------------------------

  /** Whether the last call has left the driver stopped, and when it was; time 0 is no call. */
  datatype Call = Call(stopped: bool, time: Time)

  /** The calls before and after an update, which messages it found new, whether the driver could
      be asked to drive (valid parameters and no disable frame owed), and what the update returned. */
  datatype Turn = Turn(last: Call, next: Call, armChanged: bool, changed: bool, usable: bool, ok: bool)

  /** One update: when it ran, what it saw and was configured with, the outputs it had for the
      channels, the frames and reconfigurations since the previous update, its own frames, and how
      it went. */
  datatype Observation = Observation(
    now: Time, armed: Armed, motors: Actuators, servos: Actuators,
    functions: seq<Function>, channels: seq<Channel>, action: int,
    fault: bool, outputs: seq<Float>, before: seq<Entry>, frames: seq<Entry>, turn: Turn)
  {
    /** Permitted to drive, and something to drive. */
    ghost predicate Live() { Permitted(armed, now) && AnyInUse(functions) }

    ghost predicate Due(faultStart: Time) { Live() && fault && MustStop(action, now, faultStart) }
  }

  ghost function NextFaultStart(start: Time, o: Observation): Time
  {
    if !o.Live() || !o.fault then 0 else if start == 0 then o.now else start
  }

  /** When the fault began that has lasted through all updates up to the last; else 0. */
  ghost function FaultStart(h: seq<Observation>): Time
  {
    if h == [] then 0 else NextFaultStart(FaultStart(h[..|h| - 1]), h[|h| - 1])
  }

  predicate MustStop(action: int, now: Time, faultStart: Time)
  {
    !(0 <= action <= 2) || action == 0 || (action == 2 && now - faultStart >= 500_000)
  }

  /** The driver was last called less than 20 ms ago. */
  predicate Recent(lastOutput: Time, now: Time) { lastOutput != 0 && lastOutput <= now && now - lastOutput < 20_000 }

  /** Nothing is put on the bus. */
  ghost predicate Skipped(t: Turn, log: seq<Entry>, from: nat)
  {
    t.ok && |log| == from && t.next == t.last
  }

  /** The driver is called to stop, and fails only if the device refuses a frame. */
  ghost predicate Stopping(enabled: set<nat>, channels: seq<Channel>, t: Turn, log: seq<Entry>, from: nat, now: Time)
  {
    Halted(enabled, channels, log, from) && t.next == Call(t.ok, now) && (!t.ok ==> Refused(log, from))
  }

  /** The driver is called: every assigned channel takes its output, or the motors are halted, but
      only if the driver could not be asked, a frame was refused or an output not encodable. */
  ghost predicate Called(enabled: set<nat>, channels: seq<Channel>, inUse: seq<bool>, outputs: seq<Float>, t: Turn,
                         log: seq<Entry>, from: nat, now: Time)
  {
    && t.next.time == now && |outputs| == 4
    && if t.ok then t.usable && !t.next.stopped && AllCommanded(channels, inUse, outputs, log, from)
       else
         && Halted(enabled, channels, log, from)
         && (t.usable ==> Refused(log, from) || Unencodable(channels, inUse, outputs))
  }

  /** What an update does not fail to put on the bus: it skips the driver exactly when the last call
      is less than 20 ms old, nothing has changed and the driver is already stopped, if the update
      may not drive, or already driving, if it may; else it stops or drives. */
  ghost predicate Prompt(enabled: set<nat>, o: Observation, faultStart: Time, log: seq<Entry>, from: nat)
    requires |o.functions| == 4
  {
    var recent := Recent(o.turn.last.time, o.now);
    if !o.Live() then
      && (if o.turn.last.stopped && recent && !o.turn.armChanged then Skipped(o.turn, log, from)
          else Stopping(enabled, o.channels, o.turn, log, from, o.now))
      && (o.turn.ok ==> MayMove(enabled, log) == {})
    else if o.Due(faultStart) then
      Stopping(enabled, o.channels, o.turn, log, from, o.now)
    else if !o.turn.last.stopped && recent && !o.turn.changed then
      Skipped(o.turn, log, from)
    else
      Called(enabled, o.channels, AllInUse(o.functions), o.outputs, o.turn, log, from, o.now)
  }

  /** What an update may put on the bus, given when the present fault began: it drives only
      when live and not due for a stop, and then only the outputs of the assigned channels, which
      are zeros during a fault and else the routing of valid data; a stop that is due halts. */
  ghost predicate Follows(enabled: set<nat>, o: Observation, faultStart: Time, log: seq<Entry>, from: nat)
  {
    && |o.functions| == 4 == |o.channels|
    && (o.Live() ==> o.fault == !DataValid(o.functions, o.motors, o.servos, o.now))
    && NoneDriving(o.before, 0)
    && (!o.Live() || o.Due(faultStart) ==> NoneDriving(o.frames, 0))
    && DrivesBy(o.channels, AllInUse(o.functions), o.outputs, o.frames, 0)
    && Outputs(o)
    && (o.Due(faultStart) ==> Halted(enabled, o.channels, log, from))
    && Prompt(enabled, o, faultStart, log, from)
  }

  ghost predicate Outputs(o: Observation)
  {
    o.outputs == [] || if o.fault then AllZero(o.outputs) else IsRouting(o.outputs, o.functions, o.motors, o.servos)
  }

  /** Everything on the bus up to the end of the last update. */
  function Joined(h: seq<Observation>): seq<Entry>
  {
    if h == [] then [] else Joined(h[..|h| - 1]) + h[|h| - 1].before + h[|h| - 1].frames
  }

  /** The frames of update j are the entries from Begin to End. */
  function Begin(h: seq<Observation>, j: nat): nat
    requires j < |h|
  {
    |Joined(h[..j])| + |h[j].before|
  }

  function End(h: seq<Observation>, j: nat): nat
    requires j < |h|
  {
    |Joined(h[..j + 1])|
  }

  /** Entry n on the bus was put there by update j. */
  ghost predicate AppendedBy(h: seq<Observation>, n: nat, j: nat)
  {
    j < |h| && Begin(h, j) <= n < End(h, j)
  }

  function LastTime(h: seq<Observation>): Time { if h == [] then 0 else h[|h| - 1].now }

  /** The last call; at the start the driver counts as stopped. */
  function CallAfter(h: seq<Observation>): Call { if h == [] then Call(true, 0) else h[|h| - 1].turn.next }

  ghost predicate Sound(enabled: set<nat>, h: seq<Observation>)
  {
    h == [] ||
    var front, o := h[..|h| - 1], h[|h| - 1];
    Sound(enabled, front) && 0 < o.now && LastTime(front) <= o.now && o.turn.last == CallAfter(front)
        && Follows(enabled, o, FaultStart(h), Joined(h), |Joined(front)| + |o.before|)
  }

  lemma SoundSnoc(enabled: set<nat>, h: seq<Observation>, o: Observation)
    requires Sound(enabled, h) && 0 < o.now && LastTime(h) <= o.now && o.turn.last == CallAfter(h)
    requires Follows(enabled, o, NextFaultStart(FaultStart(h), o), Joined(h) + o.before + o.frames,
                     |Joined(h)| + |o.before|)
    ensures Sound(enabled, h + [o]) && FaultStart(h + [o]) == NextFaultStart(FaultStart(h), o)
            && LastTime(h + [o]) == o.now
    ensures Joined(h + [o]) == Joined(h) + o.before + o.frames
  {
    assert (h + [o])[..|h|] == h;
  }

  ghost predicate FaultyThroughout(h: seq<Observation>, i: nat, j: nat)
    requires j < |h|
  {
    forall k :: i <= k <= j ==> h[k].Live() && h[k].fault && h[k].action == 2
  }

  lemma {:induction false} FaultStartBound(enabled: set<nat>, h: seq<Observation>, i: nat)
    requires Sound(enabled, h) && i < |h| && forall k :: i <= k < |h| ==> h[k].Live() && h[k].fault
    ensures 0 < FaultStart(h) <= h[i].now
  {
    var front := h[..|h| - 1];
    if i < |front| {
      FaultStartBound(enabled, front, i);
    } else {
      FaultStartPast(enabled, front);
    }
  }

  lemma {:induction false} FaultStartPast(enabled: set<nat>, h: seq<Observation>)
    requires Sound(enabled, h)
    ensures FaultStart(h) <= LastTime(h)
  {
    if h != [] {
      FaultStartPast(enabled, h[..|h| - 1]);
    }
  }

  lemma {:induction false} SoundPrefix(enabled: set<nat>, h: seq<Observation>, j: nat)
    requires Sound(enabled, h) && j < |h|
    ensures Sound(enabled, h[..j + 1]) && Joined(h[..j + 1]) <= Joined(h)
  {
    if j < |h| - 1 {
      SoundPrefix(enabled, h[..|h| - 1], j);
      assert h[..|h| - 1][..j + 1] == h[..j + 1];
    } else {
      assert h[..j + 1] == h;
    }
  }

  lemma FollowsAt(enabled: set<nat>, h: seq<Observation>, j: nat)
    requires Sound(enabled, h) && j < |h|
    ensures Follows(enabled, h[j], FaultStart(h[..j + 1]), Joined(h[..j + 1]), Begin(h, j))
    ensures Joined(h[..j + 1]) <= Joined(h) && Joined(h[..j + 1]) == Joined(h[..j]) + h[j].before + h[j].frames
  {
    SoundPrefix(enabled, h, j);
    assert h[..j + 1][j] == h[j] && h[..j + 1][..j] == h[..j];
  }

  lemma {:induction false} JoinedGrows(h: seq<Observation>, j: nat, k: nat)
    requires j <= k <= |h|
    ensures |Joined(h[..j])| <= |Joined(h[..k])|
  {
    if j < k {
      JoinedGrows(h, j, k - 1);
      assert h[..k][..k - 1] == h[..k - 1];
    }
  }

  /** An entry of an update is one of its frames. */
  lemma AppendedMeans(enabled: set<nat>, h: seq<Observation>, n: nat, j: nat)
    requires Sound(enabled, h) && AppendedBy(h, n, j)
    ensures n < |Joined(h)| && n - Begin(h, j) < |h[j].frames| && Joined(h)[n] == h[j].frames[n - Begin(h, j)]
  {
    FollowsAt(enabled, h, j);
    assert Joined(h)[n] == Joined(h[..j + 1])[n];
  }

  /** No two updates put an entry there. */
  lemma AppendedOnce(h: seq<Observation>, n: nat, j: nat, k: nat)
    requires AppendedBy(h, n, j) && AppendedBy(h, n, k)
    ensures j == k
  {
    if k < j {
      JoinedGrows(h, k + 1, j);
    } else if j < k {
      JoinedGrows(h, j + 1, k);
    }
  }

  /** The frame enables an assigned channel, or commands zero to it. */
  ghost predicate IsNeutral(channels: seq<Channel>, e: Entry)
  {
    exists c :: 0 <= c < |channels| && IsFor(channels[c], ZERO, e)
  }

  /** The channel that a driving frame is for. */
  lemma ChannelOf(o: Observation, e: Entry) returns (c: nat)
    requires |o.functions| == 4 && IsDriving(o.channels, AllInUse(o.functions), o.outputs, e)
    ensures c < 4 && c < |o.outputs| && c < |o.channels| && InUse(o.functions[c])
    ensures IsFor(o.channels[c], o.outputs[c], e)
  {
    c :| 0 <= c < |o.channels| && c < 4 && c < |o.outputs| && AllInUse(o.functions)[c]
         && IsFor(o.channels[c], o.outputs[c], e);
  }

  lemma NeutralFrame(o: Observation, e: Entry)
    requires AllZero(o.outputs) && |o.functions| == 4 && IsDriving(o.channels, AllInUse(o.functions), o.outputs, e)
    ensures IsNeutral(o.channels, e)
  {
    var c := ChannelOf(o, e);
    assert IsFor(o.channels[c], ZERO, e);
  }

  /** The entries after the last update do not drive. */
  ghost predicate Accounts(h: seq<Observation>, log: seq<Entry>)
  {
    Joined(h) <= log && NoneDriving(log, |Joined(h)|)
  }

  lemma AccountsMore(h: seq<Observation>, log: seq<Entry>, more: seq<Entry>)
    requires Accounts(h, log) && log <= more && NoneDriving(more, |log|)
    ensures Accounts(h, more)
  {
    forall k | |Joined(h)| <= k < |more|
      ensures !Driving(more[k])
    {
      if k < |log| {
        assert more[k] == log[k];
      }
    }
  }

  lemma InLast(a: seq<Entry>, b: seq<Entry>, c: seq<Entry>, n: nat)
    requires |a| <= n < |a + b + c| && NoneDriving(b, 0) && Driving((a + b + c)[n])
    ensures |a| + |b| <= n
  {
    assert forall k :: 0 <= k < |b| ==> (a + b + c)[|a| + k] == b[k];
  }

  /** The update that a driving entry comes from. */
  lemma {:induction false} SentBy(enabled: set<nat>, h: seq<Observation>, n: nat) returns (j: nat)
    requires Sound(enabled, h) && n < |Joined(h)| && Driving(Joined(h)[n])
    ensures AppendedBy(h, n, j)
  {
    var front, o := h[..|h| - 1], h[|h| - 1];
    if n < |Joined(front)| {
      j := SentBy(enabled, front, n);
      assert front[..j] == h[..j] && front[..j + 1] == h[..j + 1];
    } else {
      InLast(Joined(front), o.before, o.frames, n);
      j := |h| - 1;
      assert h[..j + 1] == h;
    }
  }

  /** Every frame on the bus that can make a motor move was put there by an update that had an
      armed, unlocked safety state at most 500 ms old and was not due for a stop, and it carries
      what that update had for an assigned channel. */
  lemma DrivesOnlyWhenPermitted(enabled: set<nat>, h: seq<Observation>, log: seq<Entry>, n: nat) returns (j: nat)
    requires Sound(enabled, h) && Accounts(h, log) && n < |log| && Driving(log[n])
    ensures AppendedBy(h, n, j) && h[j].Live() && Permitted(h[j].armed, h[j].now)
    ensures !h[j].Due(FaultStart(h[..j + 1])) && |h[j].functions| == 4
    ensures IsDriving(h[j].channels, AllInUse(h[j].functions), h[j].outputs, log[n]) && Outputs(h[j])
  {
    assert log[n] == Joined(h)[n];
    j := SentBy(enabled, h, n);
    FollowsAt(enabled, h, j);
    AppendedMeans(enabled, h, n, j);
  }

  /** By update k a fault that has lasted since update i is recorded as begun by then. */
  lemma FaultBegun(enabled: set<nat>, h: seq<Observation>, i: nat, k: nat)
    requires Sound(enabled, h) && i <= k < |h| && FaultyThroughout(h, i, k)
    ensures 0 < FaultStart(h[..k + 1]) <= h[i].now
  {
    SoundPrefix(enabled, h, k);
    FaultStartBound(enabled, h[..k + 1], i);
  }

  /** An update that has put an entry into the stretch of updates i to j is one of these. */
  lemma Between(h: seq<Observation>, n: nat, i: nat, k: nat, j: nat)
    requires i <= j < |h| && AppendedBy(h, n, k) && |Joined(h[..i])| <= n < End(h, j)
    ensures i <= k <= j
  {
    if k < i {
      JoinedGrows(h, k + 1, i);
    } else if j < k {
      JoinedGrows(h, j + 1, k);
    }
  }

  /** With the neutral-then-disable action, while a fault lasts from update i to update j of any
      run, whatever is put on the bus, by the updates or in between, moves a motor only if it is
      an update's command of zero, or its enable frame, while the fault is less than 500 ms old. */
  lemma FaultWindow(enabled: set<nat>, h: seq<Observation>, log: seq<Entry>, i: nat, j: nat, n: nat) returns (k: nat)
    requires Sound(enabled, h) && Accounts(h, log) && i <= j < |h| && FaultyThroughout(h, i, j)
    requires |Joined(h[..i])| <= n < End(h, j) && n < |log| && Driving(log[n])
    ensures i <= k <= j && AppendedBy(h, n, k) && IsNeutral(h[k].channels, log[n])
    ensures h[k].now - h[i].now < 500_000
  {
    k := DrivesOnlyWhenPermitted(enabled, h, log, n);
    Between(h, n, i, k, j);
    NeutralFrame(h[k], log[n]);
    FaultBegun(enabled, h, i, k);
  }

  /** And by the end of each update that finds the fault 500 ms old no motor may move, or each has
      been offered a disable frame by it. */
  lemma FaultHalts(enabled: set<nat>, h: seq<Observation>, i: nat, j: nat)
    requires Sound(enabled, h) && i <= j < |h| && FaultyThroughout(h, i, j) && h[j].now - h[i].now >= 500_000
    ensures Halted(enabled, h[j].channels, Joined(h[..j + 1]), Begin(h, j))
  {
    FollowsAt(enabled, h, j);
    FaultBegun(enabled, h, i, j);
  }

  lemma QuietSince(h: seq<Observation>, log: seq<Entry>)
    requires Accounts(h, log)
    ensures NoneDriving(log[|Joined(h)|..], 0)
  {
    var before := log[|Joined(h)|..];
    assert forall k :: 0 <= k < |before| ==> before[k] == log[|Joined(h)| + k];
  }

  /** An update that follows the history and has put the rest of the log there. */
  lemma Continues(enabled: set<nat>, h: seq<Observation>, log: seq<Entry>, more: seq<Entry>, o: Observation)
    requires Sound(enabled, h) && Accounts(h, log) && log <= more && 0 < o.now && LastTime(h) <= o.now
    requires o.turn.last == CallAfter(h)
    requires o.before == log[|Joined(h)|..] && o.frames == more[|log|..]
    requires Follows(enabled, o, NextFaultStart(FaultStart(h), o), more, |log|)
    ensures Sound(enabled, h + [o]) && FaultStart(h + [o]) == NextFaultStart(FaultStart(h), o)
            && LastTime(h + [o]) == o.now
    ensures Joined(h + [o]) == more && Accounts(h + [o], more)
  {
    assert Joined(h) + o.before + o.frames == more;
    assert |Joined(h)| + |o.before| == |log|;
    SoundSnoc(enabled, h, o);
  }

  /** What holds of a log from an index on holds of the entries from there. */
  lemma OnItsFrames(o: Observation, log: seq<Entry>, from: nat)
    requires |o.functions| == 4 && from <= |log| && o.frames == log[from..]
    ensures NoneDriving(log, from) ==> NoneDriving(o.frames, 0)
    ensures DrivesBy(o.channels, AllInUse(o.functions), o.outputs, log, from) ==>
              DrivesBy(o.channels, AllInUse(o.functions), o.outputs, o.frames, 0)
  {
    assert forall k :: 0 <= k < |o.frames| ==> o.frames[k] == log[from + k];
  }

  class MixingOutput {
    const driver: CanOutput
    var functions: seq<Function>
    var failAction: int
    var armed: Armed
    var motors: Actuators
    var servos: Actuators
    var lastOutput: Time
    var dataFaultSince: Time
    var stopped: bool
    ghost var history: seq<Observation>

    ghost predicate Valid()
      reads this, driver
    {
      Ready() && Recorded() && Accounts(history, driver.log)
    }

    /** A driver last called to stop, with success, is disarmed for certain. */
    ghost predicate Ready()
      reads `functions, `stopped, `lastOutput, driver
    {
      && driver.Valid() && |functions| == 4 && driver.Covers(AllInUse(functions))
      && (stopped && lastOutput != 0 ==> !driver.protocolArmed && !driver.disablePending)
    }

    function LastCall(): Call
      reads `stopped, `lastOutput
    {
      Call(stopped, lastOutput)
    }

    ghost predicate Recorded()
      reads this
    {
      && Sound(driver.setup.enabled, history) && dataFaultSince == FaultStart(history)
      && lastOutput <= LastTime(history) && LastCall() == CallAfter(history)
    }

    constructor (driver: CanOutput, functions: seq<Function>, failAction: int)
      requires driver.Valid() && |functions| == 4 && !driver.protocolArmed && driver.log == []
      ensures Valid() && this.driver == driver && history == []
      ensures this.functions == functions && stopped && lastOutput == 0 && armed == NOTHING_ARMED
    {
      this.driver, this.functions, this.failAction := driver, functions, failAction;
      armed := NOTHING_ARMED;
      motors, servos := NO_ACTUATORS, NO_ACTUATORS;
      lastOutput, dataFaultSince, stopped, history := 0, 0, true, [];
    }

    /** Reads the function of each channel; an unreadable or unknown number disables it. */
    method UpdateParams(values: seq<Option<int>>) returns (valid: bool)
      requires Valid() && |values| == 4 && !driver.protocolArmed
      modifies this`functions
      ensures Valid()
      ensures forall c :: 0 <= c < 4 ==>
                functions[c] == if values[c].Some? && FunctionOf(values[c].value).Some?
                    then FunctionOf(values[c].value).value else Disabled
      ensures valid <==> forall c :: 0 <= c < 4 ==> values[c].Some? && FunctionOf(values[c].value).Some?
    {
      valid := true;
      for c := 0 to 4
        invariant |functions| == 4
        invariant forall k :: 0 <= k < c ==>
                    functions[k] == if values[k].Some? && FunctionOf(values[k].value).Some?
                        then FunctionOf(values[k].value).value else Disabled
        invariant valid <==> forall k :: 0 <= k < c ==> values[k].Some? && FunctionOf(values[k].value).Some?
      {
        var f := if values[c].Some? then FunctionOf(values[c].value) else None;
        if f.None? {
          functions := functions[c := Disabled];
          valid := false;
        } else {
          functions := functions[c := f.value];
        }
      }
    }

    method HasAssignedFunctions() returns (any: bool)
      ensures any <==> AnyInUse(functions)
    {
      for c := 0 to |functions|
        invariant forall k :: 0 <= k < c ==> !InUse(functions[k])
      {
        if InUse(functions[c]) {
          return true;
        }
      }
      any := false;
    }

    method SourceDataValid(now: Time) returns (valid: bool)
      ensures valid <==> DataValid(functions, motors, servos, now)
    {
      var needsMotors, needsServos := false, false;
      for c := 0 to |functions|
        invariant needsMotors <==> exists k :: 0 <= k < c && functions[k].Motor?
        invariant needsServos <==> exists k :: 0 <= k < c && functions[k].Servo?
      {
        needsMotors := needsMotors || functions[c].Motor?;
        needsServos := needsServos || functions[c].Servo?;
      }
      if needsMotors && (!motors.valid || !Fresh(motors.timestamp, now)) {
        return false;
      }
      if needsServos && (!servos.valid || !Fresh(servos.timestamp, now)) {
        return false;
      }
      for c := 0 to |functions|
        invariant forall k :: 0 <= k < c ==> Available(functions[k], motors, servos)
      {
        if !Available(functions[c], motors, servos) {
          return false;
        }
      }
      valid := true;
    }

    method FillPhysicalOutputs(outputs: array<Float>, now: Time)
      requires |functions| <= outputs.Length && DataValid(functions, motors, servos, now)
      modifies outputs
      ensures IsRouting(outputs[..|functions|], functions, motors, servos)
      ensures outputs[|functions|..] == old(outputs[|functions|..])
    {
      for c := 0 to |functions|
        invariant forall k :: 0 <= k < c ==>
                    Available(functions[k], motors, servos) && outputs[k] == Routed(functions[k], motors, servos)
        invariant outputs[|functions|..] == old(outputs[|functions|..])
      {
        match functions[c] {
          case Disabled => outputs[c] := ZERO;
          case Motor(i) => outputs[c] := ConstrainUnit(motors.control[i]);
          case Servo(i) => outputs[c] := ConstrainUnit(servos.control[i]);
        }
      }
    }

    /** Calls the driver to stop: nothing drives, and the motors are halted. */
    method StopOutputs(now: Time) returns (ok: bool)
      requires driver.Valid() && |functions| == 4
      modifies this`stopped, this`lastOutput
      modifies driver`writes, driver`log, driver`turns, driver`protocolArmed, driver`disablePending
      ensures Ready() && (ok ==> !driver.protocolArmed && !driver.disablePending)
      ensures old(driver.log) <= driver.log && NoneDriving(driver.log, |old(driver.log)|)
      ensures Halted(driver.setup.enabled, driver.channels, driver.log, |old(driver.log)|)
      ensures LastCall() == Call(ok, now) && (!ok ==> Refused(driver.log, |old(driver.log)|))
    {
      driver.Yield();
      ok := driver.Stop();
      stopped, lastOutput := ok, now;
    }

    /** Not permitted, or nothing assigned: makes sure the driver has stopped. */
    method Idle(now: Time, armChanged: bool) returns (ok: bool)
      requires Ready() && lastOutput <= now
      modifies this`stopped, this`lastOutput
      modifies driver`writes, driver`log, driver`turns, driver`protocolArmed, driver`disablePending
      ensures Ready() && lastOutput <= now
      ensures old(driver.log) <= driver.log && NoneDriving(driver.log, |old(driver.log)|)
      ensures if old(stopped) && Recent(old(lastOutput), now) && !armChanged then
                ok && driver.log == old(driver.log) && LastCall() == old(LastCall())
              else
                && Halted(driver.setup.enabled, driver.channels, driver.log, |old(driver.log)|)
                && LastCall() == Call(ok, now) && (!ok ==> Refused(driver.log, |old(driver.log)|))
      ensures ok ==> MayMove(driver.setup.enabled, driver.log) == {}
    {
      if stopped && !armChanged && lastOutput != 0 && now - lastOutput < 20_000 {
        return true;
      }
      ok := StopOutputs(now);
    }

    ghost predicate Usable()
      reads driver
    {
      driver.parametersValid && !driver.disablePending
    }

    method AskToDrive(outputs: seq<Float>) returns (ok: bool)
      requires Ready() && |outputs| == 4
      modifies driver`writes, driver`log, driver`turns, driver`protocolArmed
      ensures driver.Valid() && old(driver.log) <= driver.log
      ensures DrivesBy(driver.channels, AllInUse(functions), outputs, driver.log, |old(driver.log)|)
      ensures !driver.parametersValid ==> NoneDriving(driver.log, |old(driver.log)|)
      ensures if ok then
                && Usable() && driver.Covers(AllInUse(functions))
                && AllCommanded(driver.channels, AllInUse(functions), outputs, driver.log, |old(driver.log)|)
              else
                Usable() ==>
                  || Refused(driver.log, |old(driver.log)|)
                  || Unencodable(driver.channels, AllInUse(functions), outputs)
    {
      driver.Yield();
      ok := driver.Drive(outputs, AllInUse(functions));
    }

    /** Drives the channels; a failure is always followed by a stop. */
    method DriveOutputs(fault: bool, now: Time) returns (ok: bool, ghost outputs: seq<Float>)
      requires Ready() && (!fault ==> DataValid(functions, motors, servos, now))
      modifies this`stopped, this`lastOutput
      modifies driver`writes, driver`log, driver`turns, driver`protocolArmed, driver`disablePending
      ensures Ready() && lastOutput == now
      ensures if fault then AllZero(outputs) else IsRouting(outputs, functions, motors, servos)
      ensures |outputs| == 4 && old(driver.log) <= driver.log
      ensures DrivesBy(driver.channels, AllInUse(functions), outputs, driver.log, |old(driver.log)|)
      ensures !driver.parametersValid ==> NoneDriving(driver.log, |old(driver.log)|)
      ensures Called(driver.setup.enabled, driver.channels, AllInUse(functions), outputs,
                     Turn(old(LastCall()), LastCall(), false, false, old(Usable()), ok), driver.log,
                     |old(driver.log)|, now)
    {
      var buffer := new Float[8](_ => ZERO);
      if !fault {
        FillPhysicalOutputs(buffer, now);
      }
      var values := buffer[..4];
      outputs := values;
      ok := AskToDrive(values);
      if !ok {
        var _ := StopOutputs(now);
        return;
      }
      stopped, lastOutput := false, now;
    }

    /** Follows the fault: when it began, as far back as it has lasted. */
    method TrackFault(now: Time) returns (fault: bool)
      requires dataFaultSince <= now
      modifies this`dataFaultSince
      ensures fault == !DataValid(functions, motors, servos, now) && dataFaultSince <= now
      ensures dataFaultSince == if !fault then 0 else if old(dataFaultSince) == 0 then now else old(dataFaultSince)
    {
      var valid := SourceDataValid(now);
      if !valid && dataFaultSince == 0 {
        dataFaultSince := now;
      }
      if valid {
        dataFaultSince := 0;
      }
      fault := !valid;
    }

    /** Permitted and assigned: stops, waits for the next period or drives. */
    method Refresh(fault: bool, now: Time, changed: bool) returns (ok: bool, ghost outputs: seq<Float>)
      requires Ready() && lastOutput <= now && dataFaultSince <= now
      requires fault == !DataValid(functions, motors, servos, now)
      modifies this`stopped, this`lastOutput
      modifies driver`writes, driver`log, driver`turns, driver`protocolArmed, driver`disablePending
      ensures Ready() && lastOutput <= now && old(driver.log) <= driver.log
      ensures outputs == [] || if fault then AllZero(outputs) else IsRouting(outputs, functions, motors, servos)
      ensures DrivesBy(driver.channels, AllInUse(functions), outputs, driver.log, |old(driver.log)|)
      ensures !driver.parametersValid ==> NoneDriving(driver.log, |old(driver.log)|)
      ensures if fault && MustStop(failAction, now, dataFaultSince) then
                && NoneDriving(driver.log, |old(driver.log)|)
                && Halted(driver.setup.enabled, driver.channels, driver.log, |old(driver.log)|)
                && LastCall() == Call(ok, now) && (!ok ==> Refused(driver.log, |old(driver.log)|))
              else if !old(stopped) && Recent(old(lastOutput), now) && !changed then
                ok && driver.log == old(driver.log) && LastCall() == old(LastCall())
              else
                Called(driver.setup.enabled, driver.channels, AllInUse(functions), outputs,
                       Turn(old(LastCall()), LastCall(), false, false, old(Usable()), ok), driver.log,
                       |old(driver.log)|, now)
    {
      var faultAction := if 0 <= failAction <= 2 then failAction else 0;
      outputs := [];
      if fault && (faultAction == 0 || (faultAction == 2 && now - dataFaultSince >= 500_000)) {
        ok := StopOutputs(now);
        return;
      }
      if !changed && !stopped && lastOutput != 0 && now - lastOutput < 20_000 {
        ok := true;
        return;
      }
      ok, outputs := DriveOutputs(fault, now);
    }

    /** One update. What it puts on the bus is the frames of the observation it records; see
        Follows for what these may be, and Prompt in it for what they must be. */
    method Update(now: Time, armedMessage: Option<Armed>, motorsMessage: Option<Actuators>,
                  servosMessage: Option<Actuators>)
      returns (ok: bool, ghost o: Observation)
      requires Valid() && 0 < now && LastTime(history) <= now
      modifies this, driver`writes, driver`log, driver`turns, driver`protocolArmed, driver`disablePending
      ensures Valid() && functions == old(functions) && failAction == old(failAction)
      ensures armed == armedMessage.GetOr(old(armed))
      ensures motors == motorsMessage.GetOr(old(motors)) && servos == servosMessage.GetOr(old(servos))
      ensures history == old(history) + [o] && Joined(history) == driver.log
      ensures old(driver.log) <= driver.log && Observed(o, now, |old(driver.log)|)
      ensures !driver.parametersValid ==> NoneDriving(o.frames, 0)
      ensures o.turn == Turn(old(LastCall()), LastCall(), armedMessage.Some?,
                             armedMessage.Some? || motorsMessage.Some? || servosMessage.Some?, old(Usable()), ok)
    {
      Take(armedMessage, motorsMessage, servosMessage);
      ok, o := Step(now, armedMessage.Some?, armedMessage.Some? || motorsMessage.Some? || servosMessage.Some?);
    }

    method Take(armedMessage: Option<Armed>, motorsMessage: Option<Actuators>, servosMessage: Option<Actuators>)
      requires Valid()
      modifies this`armed, this`motors, this`servos
      ensures Valid() && armed == armedMessage.GetOr(old(armed))
      ensures motors == motorsMessage.GetOr(old(motors)) && servos == servosMessage.GetOr(old(servos))
    {
      armed := armedMessage.GetOr(armed);
      motors := motorsMessage.GetOr(motors);
      servos := servosMessage.GetOr(servos);
    }

    /** The update goes into the history. */
    ghost method Note(o: Observation, log: seq<Entry>)
      requires Ready() && 0 < o.now && LastTime(history) <= o.now && lastOutput <= o.now
      requires Sound(driver.setup.enabled, history) && Accounts(history, log) && log <= driver.log
      requires o.turn.last == CallAfter(history) && o.turn.next == LastCall()
      requires o.before == log[|Joined(history)|..] && o.frames == driver.log[|log|..]
      requires dataFaultSince == NextFaultStart(FaultStart(history), o)
      requires Follows(driver.setup.enabled, o, dataFaultSince, driver.log, |log|)
      modifies this`history
      ensures Valid() && history == old(history) + [o] && Joined(history) == driver.log
    {
      Continues(driver.setup.enabled, history, log, driver.log, o);
      history := history + [o];
    }

    method Step(now: Time, armChanged: bool, changed: bool) returns (ok: bool, ghost o: Observation)
      requires Valid() && 0 < now && LastTime(history) <= now
      modifies this`stopped, this`lastOutput, this`dataFaultSince, this`history
      modifies driver`writes, driver`log, driver`turns, driver`protocolArmed, driver`disablePending
      ensures Valid() && history == old(history) + [o] && Joined(history) == driver.log
      ensures old(driver.log) <= driver.log && Observed(o, now, |old(driver.log)|)
      ensures !driver.parametersValid ==> NoneDriving(o.frames, 0)
      ensures o.turn == Turn(old(LastCall()), LastCall(), armChanged, changed, old(Usable()), ok)
    {
      FaultStartPast(driver.setup.enabled, history);
      QuietSince(history, driver.log);
      ok, o := Act(now, armChanged, changed, driver.log[|Joined(history)|..]);
      Note(o, old(driver.log));
    }

    method Act(now: Time, armChanged: bool, changed: bool, ghost before: seq<Entry>)
      returns (ok: bool, ghost o: Observation)
      requires Ready() && lastOutput <= now && dataFaultSince <= now && NoneDriving(before, 0)
      modifies this`stopped, this`lastOutput, this`dataFaultSince
      modifies driver`writes, driver`log, driver`turns, driver`protocolArmed, driver`disablePending
      ensures Ready() && lastOutput <= now && old(driver.log) <= driver.log
      ensures Observed(o, now, |old(driver.log)|) && o.before == before
              && dataFaultSince == NextFaultStart(old(dataFaultSince), o)
      ensures Follows(driver.setup.enabled, o, dataFaultSince, driver.log, |old(driver.log)|)
      ensures !driver.parametersValid ==> NoneDriving(o.frames, 0)
      ensures o.turn == Turn(old(LastCall()), LastCall(), armChanged, changed, old(Usable()), ok)
    {
      var inUse := HasAssignedFunctions();
      var fault := false;
      ghost var outputs: seq<Float> := [];
      if Permitted(armed, now) && inUse {
        fault := TrackFault(now);
        ok, outputs := Refresh(fault, now, changed);
      } else {
        dataFaultSince := 0;
        ok := Idle(now, armChanged);
      }
      o := Observation(now, armed, motors, servos, functions, driver.channels, failAction, fault, outputs,
                       before, driver.log[|old(driver.log)|..],
                       Turn(old(LastCall()), LastCall(), armChanged, changed, old(Usable()), ok));
      OnItsFrames(o, driver.log, |old(driver.log)|);
    }

    /** The observation says what the update saw, and what it has put on the bus. */
    ghost predicate Observed(o: Observation, now: Time, from: nat)
      reads `armed, `motors, `servos, `functions, `failAction, driver
    {
      && o.now == now && o.armed == armed && o.motors == motors && o.servos == servos
      && o.functions == functions && |functions| == 4 && o.channels == driver.channels && o.action == failAction
      && from <= |driver.log| && o.frames == driver.log[from..]
    }
  }
}
