/** The arming interlock: after a restart the switch must be seen off before on counts. */
module Arming {
  import opened Options
  import opened MixingOutputs

  datatype Position = NoPosition | On | Middle | Off

  datatype State = WaitForOff | ReadyForOn | ArmedState

  /** What one update is told; an invalid one carries no position that counts. */
  datatype Sighting = Sighting(valid: bool, position: Position)

  function Next(s: State, o: Sighting): State
  {
    if !o.valid then s
    else
      match s
      case WaitForOff => if o.position.Off? then ReadyForOn else WaitForOff
      case _ => if o.position.On? then ArmedState else ReadyForOn
  }

  /** The state after the observations since the last reset. */
  function Fold(obs: seq<Sighting>): State
  {
    if obs == [] then WaitForOff else Next(Fold(obs[..|obs| - 1]), obs[|obs| - 1])
  }

  /** Sighting i is the latest valid one, and the switch was on. */
  ghost predicate LatestValidIsOn(obs: seq<Sighting>, i: nat)
  {
    && i < |obs| && obs[i] == Sighting(true, On)
    && forall k :: i < k < |obs| ==> !obs[k].valid
  }

  ghost predicate OffSeen(obs: seq<Sighting>, end: nat)
    requires end <= |obs|
  {
    Sighting(true, Off) in obs[..end]
  }

  lemma {:induction false} WaitsUntilOff(obs: seq<Sighting>)
    ensures Fold(obs).WaitForOff? <==> !OffSeen(obs, |obs|)
  {
    if obs != [] {
      var n := |obs| - 1;
      WaitsUntilOff(obs[..n]);
      assert obs[..n][..n] == obs[..n];
      assert obs[..|obs|] == obs[..n] + [obs[n]];
    }
  }

  /** The interlock is armed exactly when the latest valid observation since the reset is on
      and a valid off came before it, however many invalid ones lie between. */
  lemma {:induction false} ArmedMeans(obs: seq<Sighting>)
    ensures Fold(obs).ArmedState? <==> exists i :: LatestValidIsOn(obs, i) && OffSeen(obs, i)
  {
    if obs != [] {
      var n := |obs| - 1;
      ArmedMeans(obs[..n]);
      WaitsUntilOff(obs[..n]);
      assert obs[..n][..n] == obs[..n];
      if obs[n].valid {
        if obs[n].position.On? {
          assert LatestValidIsOn(obs, n);
        }
      } else {
        ArmedThroughInvalid(obs);
      }
    }
  }

  lemma ArmedThroughInvalid(obs: seq<Sighting>)
    requires obs != [] && !obs[|obs| - 1].valid
    ensures var front := obs[..|obs| - 1];
            (exists i :: LatestValidIsOn(obs, i) && OffSeen(obs, i)) <==>
              (exists i :: LatestValidIsOn(front, i) && OffSeen(front, i))
  {
    var n := |obs| - 1;
    var front := obs[..n];
    if i: nat :| LatestValidIsOn(obs, i) && OffSeen(obs, i) {
      assert front[..i] == obs[..i];
      assert LatestValidIsOn(front, i);
    }
    if i: nat :| LatestValidIsOn(front, i) && OffSeen(front, i) {
      assert front[..i] == obs[..i];
      assert obs[i] == front[i] && forall k :: i < k < n ==> obs[k] == front[k];
      assert LatestValidIsOn(obs, i);
    }
  }

  class ArmSafety {
    var state: State
    /** The observations since the last reset. */
    ghost var observations: seq<Sighting>

    ghost predicate Valid()
      reads this
    {
      state == Fold(observations)
    }

    constructor ()
      ensures Valid() && observations == []
    {
      state, observations := WaitForOff, [];
    }

    method Reset()
      modifies this
      ensures Valid() && observations == []
    {
      state, observations := WaitForOff, [];
    }

    method Update(valid: bool, position: Position) returns (armed: bool)
      requires Valid()
      modifies this
      ensures Valid() && observations == old(observations) + [Sighting(valid, position)]
      ensures armed <==> Fold(observations).ArmedState?
    {
      assert (observations + [Sighting(valid, position)])[..|observations|] == observations;
      observations := observations + [Sighting(valid, position)];
      if !valid {
        return state.ArmedState?;
      }
      if state.WaitForOff? {
        if position.Off? {
          state := ReadyForOn;
        }
        return false;
      }
      if state.ReadyForOn? {
        if position.On? {
          state := ArmedState;
          return true;
        }
        return false;
      }
      if position.On? {
        return true;
      }
      state := ReadyForOn;
      armed := false;
    }
  }

  // ---------------------------------------------------------------------------
  // The command module that publishes the safety state.
  // ---------------------------------------------------------------------------

  datatype Sticks = Sticks(timestampSample: Time, valid: bool)

  /** Positions as published: 1 on, 2 middle, 3 off. */
  datatype Switches = Switches(timestampSample: Time, valid: bool, switchCount: nat, positions: seq<nat>)

  function PositionOf(value: nat): Position
  {
    if value == 1 then On else if value == 2 then Middle else if value == 3 then Off else NoPosition
  }

  /** The position of the arming switch: none unless both inputs are valid and at most 500 ms
      old and the switch number is one of those published. */
  function SwitchPosition(sticks: Sticks, switches: Switches, armSwitch: int, now: Time): Position
  {
    if sticks.valid && switches.valid && 1 <= armSwitch <= switches.switchCount && armSwitch <= 12
        && armSwitch <= |switches.positions|
       && Fresh(sticks.timestampSample, now) && Fresh(switches.timestampSample, now) then
      PositionOf(switches.positions[armSwitch - 1])
    else NoPosition
  }

  /** The arming switch reads as this number: both messages are valid and were sampled at most
      500 ms ago, and the switch is one of the twelve that are there. */
  predicate Reads(sticks: Sticks, switches: Switches, armSwitch: int, now: Time, number: nat)
  {
    && sticks.valid && 0 < sticks.timestampSample <= now <= sticks.timestampSample + 500_000
    && switches.valid && 0 < switches.timestampSample <= now <= switches.timestampSample + 500_000
    && 1 <= armSwitch <= 12 && armSwitch <= switches.switchCount && armSwitch <= |switches.positions|
    && switches.positions[armSwitch - 1] == number
  }

  /** What the numbers mean: 1 is on, 2 the middle and 3 off, and anything else is no position. */
  lemma PositionNumbers(sticks: Sticks, switches: Switches, armSwitch: int, now: Time)
    ensures var p := SwitchPosition(sticks, switches, armSwitch, now);
            && (p == On <==> Reads(sticks, switches, armSwitch, now, 1))
            && (p == Middle <==> Reads(sticks, switches, armSwitch, now, 2))
            && (p == Off <==> Reads(sticks, switches, armSwitch, now, 3))
            && (p == NoPosition <==>
              !Reads(sticks, switches, armSwitch, now, 1) && !Reads(sticks, switches, armSwitch, now, 2)
              && !Reads(sticks, switches, armSwitch, now, 3))
  {
  }

  /** The latest valid position was on, and a valid off had come before. */
  ghost predicate OnAfterOff(sightings: seq<Sighting>)
  {
    exists i :: LatestValidIsOn(sightings, i) && OffSeen(sightings, i)
  }

  const NO_STICKS := Sticks(0, false)
  const NO_SWITCHES := Switches(0, false, 0, [])

  /** What the module goes by: the switch number, its latest inputs, and what it has seen of the
      switch since it was started or the number last changed. */
  datatype Watch = Watch(armSwitch: int, sticks: Sticks, switches: Switches, sightings: seq<Sighting>)
  {
    function Sees(now: Time): Position { SwitchPosition(sticks, switches, armSwitch, now) }

    function Looking(now: Time): Watch
    {
      this.(sightings := sightings + [Sighting(Sees(now) != NoPosition, Sees(now))])
    }

    function Renumbered(number: int): Watch
    {
      this.(armSwitch := number, sightings := if number == armSwitch then sightings else [])
    }

    /** The message that says whether the switch arms. */
    ghost function Message(inhibited: bool, now: Time): Armed
    {
      Armed(now, !inhibited && OnAfterOff(sightings), Sees(now) != NoPosition, inhibited)
    }
  }

  class Command {
    const armSafety: ArmSafety
    var sticks: Sticks
    var switches: Switches
    var armSwitch: int
    var lastWarning: Time
    var status: Armed

    ghost predicate Valid()
      reads this, armSafety
    {
      armSafety.Valid()
    }

    ghost function State(): Watch
      reads this, armSafety
    {
      Watch(armSwitch, sticks, switches, armSafety.observations)
    }

    constructor (armSwitch: int)
      ensures Valid() && fresh(armSafety) && lastWarning == 0
      ensures State() == Watch(armSwitch, NO_STICKS, NO_SWITCHES, []) && status == NOTHING_ARMED
    {
      armSafety := new ArmSafety();
      sticks, switches := NO_STICKS, NO_SWITCHES;
      this.armSwitch, lastWarning, status := armSwitch, 0, NOTHING_ARMED;
    }

    /** A changed switch number demands a new off. */
    method UpdateParameters(mapping: int)
      requires Valid()
      modifies this`armSwitch, this`lastWarning, armSafety
      ensures Valid() && State() == old(State()).Renumbered(mapping)
      ensures lastWarning == if mapping == old(armSwitch) then old(lastWarning) else 0
    {
      if armSwitch != mapping {
        armSwitch := mapping;
        armSafety.Reset();
        lastWarning := 0;
      }
    }

    /** The message that is published says armed exactly when, since the switch number last
        changed, the latest valid position is on after a valid off, and output is not inhibited. */
    method UpdateSafety(inhibited: bool, now: Time) returns (warning: Option<int>)
      requires Valid() && lastWarning <= now
      modifies this`status, this`lastWarning, armSafety
      ensures Valid() && State() == old(State()).Looking(now) && status == State().Message(inhibited, now)
      ensures var position := SwitchPosition(sticks, switches, armSwitch, now);
              warning.Some? <==>
                && position != NoPosition && position != Off
                && !OffSeen(armSafety.observations, |armSafety.observations|)
                && (old(lastWarning) == 0 || now - old(lastWarning) >= 5_000_000)
      ensures warning.Some? ==> warning.value == armSwitch
      ensures lastWarning == if warning.Some? then now else old(lastWarning)
    {
      var position := SwitchPosition(sticks, switches, armSwitch, now);
      var armed := armSafety.Update(position != NoPosition, position);
      ArmedMeans(armSafety.observations);
      WaitsUntilOff(armSafety.observations);
      status := Armed(now, armed && !inhibited, position != NoPosition, inhibited);
      warning := None;
      if armSafety.state.WaitForOff? && status.valid && position != Off
          && (lastWarning == 0 || now - lastWarning >= 5_000_000) {
        warning, lastWarning := Some(armSwitch), now;
      }
    }

    /** Takes over what is new, then advances the interlock and publishes. */
    method Update(mapping: Option<int>, newSticks: Option<Sticks>, newSwitches: Option<Switches>, inhibited: bool,
                  now: Time)
      returns (published: Armed, warning: Option<int>)
      requires Valid() && lastWarning <= now
      modifies this, armSafety
      ensures Valid() && lastWarning <= now
      ensures armSwitch == mapping.GetOr(old(armSwitch))
      ensures sticks == newSticks.GetOr(old(sticks)) && switches == newSwitches.GetOr(old(switches))
      ensures var position := SwitchPosition(sticks, switches, armSwitch, now);
              && armSafety.observations ==
                 (if armSwitch == old(armSwitch) then old(armSafety.observations) else [])
                 + [Sighting(position != NoPosition, position)]
              && published == status ==
                  Armed(now, !inhibited && OnAfterOff(armSafety.observations), position != NoPosition, inhibited)
    {
      if mapping.Some? {
        UpdateParameters(mapping.value);
      }
      sticks := newSticks.GetOr(sticks);
      switches := newSwitches.GetOr(switches);
      warning := UpdateSafety(inhibited, now);
      published := status;
    }

    /** Stopping publishes a message that arms nothing. */
    method Stopped(now: Time) returns (published: Armed)
      ensures published == Armed(now, false, false, false)
    {
      published := Armed(now, false, false, false);
    }
  }
}
