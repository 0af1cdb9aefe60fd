/** What the command module publishes over any run, and exactly when that arms, said of the events
    alone: of what the switch was at which update, with no word of an interlock. */
module ArmingRuns {
  import opened Options
  import opened MixingOutputs
  import opened Arming

  /** An update with what it finds new, or a stop and start of the module. */
  datatype Event =
    | Updating(now: Time, mapping: Option<int>, sticks: Option<Sticks>, switches: Option<Switches>, inhibited: bool)
    | Restarting(now: Time, armSwitch: int)

  function Started(armSwitch: int): Watch { Watch(armSwitch, NO_STICKS, NO_SWITCHES, []) }

  function After(w: Watch, e: Event): Watch
  {
    match e
    case Updating(now, mapping, sticks, switches, _) =>
      w.Renumbered(mapping.GetOr(w.armSwitch)).(sticks := sticks.GetOr(w.sticks),
                                                switches := switches.GetOr(w.switches))
       .Looking(now)
    case Restarting(_, armSwitch) => Started(armSwitch)
  }

  function Front(s: seq<Event>): seq<Event>
    requires s != []
  {
    s[..|s| - 1]
  }

  function Last(s: seq<Event>): Event
    requires s != []
  {
    s[|s| - 1]
  }

  /** What a module started with that switch number goes by after the events. */
  function WatchIn(armSwitch: int, s: seq<Event>): Watch
  {
    if s == [] then Started(armSwitch) else After(WatchIn(armSwitch, Front(s)), Last(s))
  }

  /** What event e publishes, when it leaves the module going by w. */
  ghost function Published(w: Watch, e: Event): Armed
  {
    match e
    case Updating(now, _, _, _, inhibited) => w.Message(inhibited, now)
    case Restarting(now, _) => Armed(now, false, false, false)
  }

  /** The message last published. */
  ghost function Topic(armSwitch: int, s: seq<Event>): Armed
  {
    if s == [] then NOTHING_ARMED else Published(WatchIn(armSwitch, s), Last(s))
  }

  lemma Snoc(armSwitch: int, s: seq<Event>, e: Event)
    ensures WatchIn(armSwitch, s + [e]) == After(WatchIn(armSwitch, s), e)
    ensures Topic(armSwitch, s + [e]) == Published(After(WatchIn(armSwitch, s), e), e)
  {
    assert Front(s + [e]) == s && Last(s + [e]) == e;
  }

  /** Event k is an update, and by the messages and the switch number the module has with it the
      arming switch reads as this number. */
  predicate ReadsAt(armSwitch: int, s: seq<Event>, k: nat, number: nat)
    requires k < |s|
  {
    s[k].Updating? &&
    var w := WatchIn(armSwitch, s[..k + 1]);
    Reads(w.sticks, w.switches, w.armSwitch, s[k].now, number)
  }

  predicate Unread(armSwitch: int, s: seq<Event>, k: nat)
    requires k < |s|
  {
    !ReadsAt(armSwitch, s, k, 1) && !ReadsAt(armSwitch, s, k, 2) && !ReadsAt(armSwitch, s, k, 3)
  }

  /** Where event k finds the switch. */
  function SeenAt(armSwitch: int, s: seq<Event>, k: nat): Position
    requires k < |s|
  {
    if s[k].Updating? then WatchIn(armSwitch, s[..k + 1]).Sees(s[k].now) else NoPosition
  }

  lemma SeenNumbers(armSwitch: int, s: seq<Event>, k: nat)
    requires k < |s|
    ensures SeenAt(armSwitch, s, k) == On <==> ReadsAt(armSwitch, s, k, 1)
    ensures SeenAt(armSwitch, s, k) == Off <==> ReadsAt(armSwitch, s, k, 3)
    ensures SeenAt(armSwitch, s, k) == NoPosition <==> Unread(armSwitch, s, k)
  {
    if s[k].Updating? {
      var w := WatchIn(armSwitch, s[..k + 1]);
      PositionNumbers(w.sticks, w.switches, w.armSwitch, s[k].now);
    }
  }

  /** Event k neither restarts the module nor changes the switch number. */
  predicate SameSwitch(armSwitch: int, s: seq<Event>, k: nat)
    requires k < |s|
  {
    s[k].Updating? && WatchIn(armSwitch, s[..k + 1]).armSwitch == WatchIn(armSwitch, s[..k]).armSwitch
  }

  /** The switch read as 3, which is off, at event a, and has been the same switch of the same
      module since. */
  ghost predicate OffAt(armSwitch: int, s: seq<Event>, a: nat)
  {
    && a < |s| && ReadsAt(armSwitch, s, a, 3)
    && forall k :: a < k < |s| ==> SameSwitch(armSwitch, s, k)
  }

  /** It read as 1, which is on, at event b, and at no event since as 1, 2 or 3. */
  ghost predicate OnSince(armSwitch: int, s: seq<Event>, b: nat)
  {
    && b < |s| && ReadsAt(armSwitch, s, b, 1)
    && forall k :: b < k < |s| ==> Unread(armSwitch, s, k)
  }

  ghost predicate Arms(armSwitch: int, s: seq<Event>, a: nat, b: nat)
  {
    a < b && OffAt(armSwitch, s, a) && OnSince(armSwitch, s, b)
  }

  lemma FrontSees(armSwitch: int, s: seq<Event>, k: nat)
    requires k < |s| - 1
    ensures SameSwitch(armSwitch, Front(s), k) == SameSwitch(armSwitch, s, k)
    ensures Unread(armSwitch, Front(s), k) == Unread(armSwitch, s, k)
    ensures forall n: nat :: ReadsAt(armSwitch, Front(s), k, n) == ReadsAt(armSwitch, s, k, n)
  {
    assert Front(s)[..k + 1] == s[..k + 1] && Front(s)[..k] == s[..k];
  }

  lemma LastSees(armSwitch: int, s: seq<Event>)
    requires s != []
    ensures var w, n := WatchIn(armSwitch, s), |s| - 1;
            && (Last(s).Updating? ==> SeenAt(armSwitch, s, n) == w.Sees(Last(s).now))
            && (SameSwitch(armSwitch, s, n) <==>
              Last(s).Updating? && w.armSwitch == WatchIn(armSwitch, Front(s)).armSwitch)
  {
    assert s[..|s|] == s;
  }

  lemma OffAtFront(armSwitch: int, s: seq<Event>, a: nat)
    requires s != [] && a < |s| - 1
    ensures OffAt(armSwitch, s, a) <==> OffAt(armSwitch, Front(s), a) && SameSwitch(armSwitch, s, |s| - 1)
  {
    forall k | k < |s| - 1 && 0 <= k
      ensures SameSwitch(armSwitch, Front(s), k) == SameSwitch(armSwitch, s, k)
      ensures ReadsAt(armSwitch, Front(s), k, 3) == ReadsAt(armSwitch, s, k, 3)
    {
      FrontSees(armSwitch, s, k);
    }
  }

  lemma OnSinceFront(armSwitch: int, s: seq<Event>, b: nat)
    requires s != [] && b < |s| - 1
    ensures OnSince(armSwitch, s, b) <==> OnSince(armSwitch, Front(s), b) && Unread(armSwitch, s, |s| - 1)
  {
    FrontSees(armSwitch, s, b);
    forall k | k < |s| - 1 && 0 <= k
      ensures Unread(armSwitch, Front(s), k) == Unread(armSwitch, s, k)
    {
      FrontSees(armSwitch, s, k);
    }
  }

  /** An off among the sightings is one of the events, and the other way round. */
  lemma {:induction false} OffIsSeen(armSwitch: int, s: seq<Event>)
    ensures var seen := WatchIn(armSwitch, s).sightings;
            OffSeen(seen, |seen|) <==> exists a :: OffAt(armSwitch, s, a)
    decreases |s|
  {
    if s != [] {
      var n, seen := |s| - 1, WatchIn(armSwitch, s).sightings;
      OffIsSeen(armSwitch, Front(s));
      LastSees(armSwitch, s);
      forall a: nat | a < n
        ensures OffAt(armSwitch, s, a) <==> OffAt(armSwitch, Front(s), a) && SameSwitch(armSwitch, s, n)
      {
        OffAtFront(armSwitch, s, a);
      }
      var before := WatchIn(armSwitch, Front(s)).sightings;
      assert before[..|before|] == before && seen[..|seen|] == seen;
      if Last(s).Updating? {
        assert seen == (if SameSwitch(armSwitch, s, n) then before else []) + [seen[|seen| - 1]];
        OffAtLast(armSwitch, s);
      }
    }
  }

  lemma OffAtLast(armSwitch: int, s: seq<Event>)
    requires s != [] && Last(s).Updating?
    ensures var seen := WatchIn(armSwitch, s).sightings;
            OffAt(armSwitch, s, |s| - 1) <==> seen[|seen| - 1] == Sighting(true, Off)
  {
    LastSees(armSwitch, s);
    SeenNumbers(armSwitch, s, |s| - 1);
  }

  lemma ArmedSnoc(obs: seq<Sighting>, o: Sighting)
    ensures OnAfterOff(obs + [o]) <==> if o.valid then o.position.On? && OffSeen(obs, |obs|) else OnAfterOff(obs)
  {
    var all := obs + [o];
    assert all[..|obs|] == obs == obs[..|obs|];
    ArmedMeans(all);
    ArmedMeans(obs);
    WaitsUntilOff(obs);
  }

  lemma LastLook(armSwitch: int, s: seq<Event>)
    requires s != [] && Last(s).Updating?
    ensures var before, seen, p := WatchIn(armSwitch, Front(s)).sightings, WatchIn(armSwitch, s).sightings,
            SeenAt(armSwitch, s, |s| - 1);
            seen == (if SameSwitch(armSwitch, s, |s| - 1) then before else []) + [Sighting(p != NoPosition, p)]
  {
    LastSees(armSwitch, s);
  }

  /** An update that finds the switch somewhere decides; one that does not leaves things as they
      were, unless the switch number has changed. */
  lemma ArmsByLast(armSwitch: int, s: seq<Event>, a: nat, b: nat)
    requires s != [] && a < b < |s|
    ensures var n := |s| - 1;
            Arms(armSwitch, s, a, b) <==>
              && SameSwitch(armSwitch, s, n)
              && if b == n then SeenAt(armSwitch, s, n).On? && OffAt(armSwitch, Front(s), a)
                 else SeenAt(armSwitch, s, n).NoPosition? && Arms(armSwitch, Front(s), a, b)
  {
    OffAtFront(armSwitch, s, a);
    if b < |s| - 1 {
      OnSinceFront(armSwitch, s, b);
    }
    SeenNumbers(armSwitch, s, |s| - 1);
  }

  lemma OnByUpdate(armSwitch: int, s: seq<Event>)
    requires s != [] && Last(s).Updating?
    requires OnAfterOff(WatchIn(armSwitch, Front(s)).sightings) <==> exists a, b :: Arms(armSwitch, Front(s), a, b)
    ensures OnAfterOff(WatchIn(armSwitch, s).sightings) <==> exists a, b :: Arms(armSwitch, s, a, b)
  {
    var n, before := |s| - 1, WatchIn(armSwitch, Front(s)).sightings;
    var p, same := SeenAt(armSwitch, s, n), SameSwitch(armSwitch, s, n);
    LastLook(armSwitch, s);
    ArmedSnoc(if same then before else [], Sighting(p != NoPosition, p));
    OffIsSeen(armSwitch, Front(s));
    forall a: nat, b: nat | a < b < |s|
      ensures Arms(armSwitch, s, a, b) <==>
                && same
                && if b == n then p.On? && OffAt(armSwitch, Front(s), a)
                    else p.NoPosition? && Arms(armSwitch, Front(s), a, b)
    {
      ArmsByLast(armSwitch, s, a, b);
    }
    if p.On? && same {
      if a :| OffAt(armSwitch, Front(s), a) {
        assert Arms(armSwitch, s, a, n);
      }
    } else if p.NoPosition? && same {
      if a, b :| Arms(armSwitch, Front(s), a, b) {
        assert Arms(armSwitch, s, a, b);
      }
    }
  }

  /** So is an on that counts. */
  lemma {:induction false} OnIsSeen(armSwitch: int, s: seq<Event>)
    ensures OnAfterOff(WatchIn(armSwitch, s).sightings) <==> exists a, b :: Arms(armSwitch, s, a, b)
    decreases |s|
  {
    if s != [] {
      OnIsSeen(armSwitch, Front(s));
      if Last(s).Updating? {
        OnByUpdate(armSwitch, s);
      } else {
        forall a: nat, b: nat | a < b < |s|
          ensures !Arms(armSwitch, s, a, b)
        {
          ArmsByLast(armSwitch, s, a, b);
        }
      }
    }
  }

  /** The message last published arms exactly when it is that of an update with output not
      inhibited, the switch was on at some update and nowhere at any since, and it was off at an
      earlier one, with no restart and no change of the switch number since then. */
  lemma ArmedExactly(armSwitch: int, s: seq<Event>)
    ensures Topic(armSwitch, s).armed <==>
              s != [] && Last(s).Updating? && !Last(s).inhibited && exists a, b :: Arms(armSwitch, s, a, b)
  {
    OnIsSeen(armSwitch, s);
  }
}
