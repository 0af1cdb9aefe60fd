/** The parameter manager over its storage: setters run between the regions of a save or load,
    and power may fail at any point. */
module ParamRuns {
  import opened Counters
  import opened Options
  import opened Bits
  import opened Params
  import opened FlashPages
  import opened FlashStorage
  import Flash = FlashRuns

  /** The table, its values, and how many changes there have been since power-up; the 32-bit
      generation is that count, wrapped. */
  datatype Store = Store(defs: seq<Definition>, values: seq<Raw>, dirty: bool, changes: nat, sequence: nat)

  /** The storage operation under way, between its regions: a save before and after it has gone
      to the storage, a load, or the load at power-up. */
  datatype Op =
    | Idle
    | Captured(snapshot: Snapshot, capturedChanges: nat)
    | Finished(snapshot: Snapshot, capturedChanges: nat, ok: bool)
    | Fetched(snapshot: Snapshot)
    | Booting(found: Option<Snapshot>)

  datatype System = System(store: Store, machine: Flash.Machine, op: Op)

  datatype Step =
    | SetRaw(handle: nat, kind: Byte, raw: Raw)
    | SetDefault(handle: nat, kind: Byte, raw: Raw)
    | ResetAll
    | SaveBegin
    | SaveStore(outcome: Outcome)
    | SaveEnd
    | LoadBegin
    | LoadEnd
    | PowerUp
    | BootEnd

  // ---------------------------------------------------------------------------
  // The regions.
  // ---------------------------------------------------------------------------

  /** A value that is already there is no change. */
  function Setting(s: Store, handle: nat, kind: Byte, raw: Raw): Store
    requires |s.values| == |s.defs|
  {
    if handle >= |s.defs| || s.defs[handle].kind != kind || s.values[handle] == raw then s
    else s.(values := s.values[handle := raw], dirty := true, changes := s.changes + 1)
  }

  /** A value equal to the old default follows the new one; the store does not become dirty. */
  function SettingDefault(s: Store, handle: nat, kind: Byte, raw: Raw): Store
    requires |s.values| == |s.defs|
  {
    if handle >= |s.defs| || s.defs[handle].kind != kind || s.defs[handle].defaultValue == raw then s
    else
      var follows := s.values[handle] == s.defs[handle].defaultValue;
      s.(values := if follows then s.values[handle := raw] else s.values,
         defs := s.defs[handle := s.defs[handle].(defaultValue := raw)], changes := s.changes + 1)
  }

  function ResettingAll(s: Store): Store
  {
    if s.values == Defaults(s.defs) then s else s.(values := Defaults(s.defs), dirty := true, changes := s.changes + 1)
  }

  function SnapshotOf(s: Store): Snapshot
    requires |s.values| == |s.defs|
  {
    var records := MakeRecords(s.defs, s.values);
    Snapshot(Increment(s.sequence), |records|, Params.Encode(records))
  }

  /** Clears dirty only if nothing has changed since the snapshot was made. */
  function EndingSave(s: Store, snapshot: Snapshot, capturedChanges: nat): Store
  {
    s.(sequence := snapshot.sequence,
       dirty := s.dirty && Wrap(s.changes) != Wrap(capturedChanges))
  }

  function RecordsOf(s: Snapshot): seq<Record>
  {
    if |s.payload| == 24 * s.count then Decode(s.payload, s.count) else []
  }

  function EndingLoad(s: Store, snapshot: Snapshot): Store
  {
    s.(values := ApplyRecords(s.defs, Defaults(s.defs), RecordsOf(snapshot)),
       sequence := snapshot.sequence, dirty := false, changes := s.changes + 1)
  }

  /** At power-up the snapshot goes on top of what is there, and dirty stays as it is. */
  function EndingBoot(s: Store, found: Option<Snapshot>): Store
    requires |s.values| == |s.defs|
  {
    if found.None? then s
    else s.(values := ApplyRecords(s.defs, s.values, RecordsOf(found.value)), sequence := found.value.sequence)
  }

  /** What a reload would make of the table. */
  function Reloaded(defs: seq<Definition>, current: Option<Snapshot>): (values: seq<Raw>)
    ensures |values| == |defs|
  {
    if current.None? then Defaults(defs) else ApplyRecords(defs, Defaults(defs), RecordsOf(current.value))
  }

  ghost predicate Regular(s: Store)
  {
    && |s.values| == |s.defs| && |s.defs| <= 160
    && DistinctNames(s.defs) && NamedTable(s.defs)
  }

  function Apply(y: System, step: Step, built: seq<Definition>): System
    requires |y.store.values| == |y.store.defs|
  {
    match step
    case SetRaw(h, kind, raw) => y.(store := Setting(y.store, h, kind, raw))
    case SetDefault(h, kind, raw) => y.(store := SettingDefault(y.store, h, kind, raw))
    case ResetAll => y.(store := ResettingAll(y.store))
    case SaveBegin =>
      if y.op.Idle? && y.store.dirty then y.(op := Captured(SnapshotOf(y.store), y.store.changes)) else y
    case SaveStore(outcome) =>
      if !y.op.Captured? then y
      else y.(machine := Flash.Saving(y.machine, y.op.snapshot, outcome),
              op := Finished(y.op.snapshot, y.op.capturedChanges, outcome == Written(true)))
    case SaveEnd =>
      if !y.op.Finished? then y
      else if !y.op.ok then y.(op := Idle)
      else y.(store := EndingSave(y.store, y.op.snapshot, y.op.capturedChanges), op := Idle)
    case LoadBegin =>
      if !y.op.Idle? then y
      else
        var m := Flash.Reloading(y.machine);
        var found := y.machine.pages.Current();
        y.(machine := m, op := if found.Some? then Fetched(found.value) else Idle)
    case LoadEnd =>
      if !y.op.Fetched? then y else y.(store := EndingLoad(y.store, y.op.snapshot), op := Idle)
    case PowerUp =>
      var m := Flash.Apply(y.machine, Flash.Reboot);
      System(Store(built, Defaults(built), false, 0, 0), m, Booting(m.pages.Current()))
    case BootEnd =>
      if !y.op.Booting? then y else y.(store := EndingBoot(y.store, y.op.found), op := Idle)
  }

  // ---------------------------------------------------------------------------
  // Dirty and what a reload would give.
  // ---------------------------------------------------------------------------

  ghost predicate Agree(y: System)
  {
    !y.store.dirty ==> y.store.values == Reloaded(y.store.defs, y.machine.pages.Current())
  }

  /** What each operation under way relies on. */
  ghost predicate OpInv(y: System)
    requires |y.store.values| == |y.store.defs|
  {
    match y.op
    case Idle => Agree(y) && y.store.sequence == y.machine.sequence
    case Captured(s, captured) =>
      && y.store.dirty && captured <= y.store.changes && y.store.sequence == y.machine.sequence
      && s.sequence == Increment(y.machine.sequence)
      && (captured == y.store.changes ==> RecordsOf(s) == MakeRecords(y.store.defs, y.store.values))
    case Finished(s, captured, ok) =>
      && y.store.dirty && captured <= y.store.changes
      && (if ok then y.machine.pages.Current() == Some(s) && s.sequence == y.machine.sequence
          else y.store.sequence == y.machine.sequence)
      && (captured == y.store.changes ==> RecordsOf(s) == MakeRecords(y.store.defs, y.store.values))
    case Fetched(s) => y.machine.pages.Current() == Some(s) && s.sequence == y.machine.sequence
    case Booting(found) =>
      && y.machine.pages.Current() == found
      && (found.Some? ==> found.value.sequence == y.machine.sequence)
      && (found.None? ==> y.store.sequence == y.machine.sequence)
      && (!y.store.dirty ==> y.store.values == Defaults(y.store.defs))
  }

  ghost predicate Inv(y: System)
  {
    Regular(y.store) && Flash.Inv(y.machine) && OpInv(y)
  }

  /** What the storage holds for the parameter is not the default about to be replaced. */
  ghost predicate Harmless(y: System, handle: nat, kind: Byte, raw: Raw)
  {
    var defs := y.store.defs;
    handle < |defs| && defs[handle].kind == kind && raw != defs[handle].defaultValue ==>
      var current := y.machine.pages.Current();
      current.None? || Held(RecordsOf(current.value), defs[handle]) != Some(defs[handle].defaultValue)
  }

  /** Fewer than 2^32 changes happen during a save; and default changes made while the store is
      clean and no operation is under way are harmless. */
  ghost predicate Tame(y: System, step: Step)
  {
    && (step.SaveEnd? && y.op.Finished? ==> y.store.changes < y.op.capturedChanges + 0x1_0000_0000)
    && (step.SetDefault? && y.op.Idle? && !y.store.dirty ==> Harmless(y, step.handle, step.kind, step.raw))
  }

  lemma {:induction false} HeldSameName(records: seq<Record>, d: Definition, e: Definition)
    requires d.name == e.name && d.kind == e.kind
    ensures Held(records, d) == Held(records, e)
  {
    if records != [] {
      HeldSameName(records[..|records| - 1], d, e);
    }
  }

  lemma ReloadedIs(defs: seq<Definition>, current: Option<Snapshot>, i: nat)
    requires DistinctNames(defs) && i < |defs|
    ensures Reloaded(defs, current)[i] ==
            if current.None? then defs[i].defaultValue
                else Held(RecordsOf(current.value), defs[i]).GetOr(defs[i].defaultValue)
  {
    if current.Some? {
      AppliedIsHeld(defs, Defaults(defs), RecordsOf(current.value), i);
    }
  }

  /** A reload after a default change differs from one before at that parameter only. */
  lemma ReloadedElsewhere(s: Store, handle: nat, raw: Raw, current: Option<Snapshot>, i: nat)
    requires Regular(s) && handle < |s.defs| && i < |s.defs| && i != handle
    ensures var defs' := s.defs[handle := s.defs[handle].(defaultValue := raw)];
            DistinctNames(defs') && Reloaded(defs', current)[i] == Reloaded(s.defs, current)[i]
  {
    var defs' := s.defs[handle := s.defs[handle].(defaultValue := raw)];
    assert DistinctNames(defs');
    ReloadedIs(s.defs, current, i);
    ReloadedIs(defs', current, i);
  }

  lemma SettingDefaultRegular(s: Store, handle: nat, kind: Byte, raw: Raw)
    requires Regular(s)
    ensures Regular(SettingDefault(s, handle, kind, raw))
  {
  }

  /** A default change while the store is clean keeps the agreement if and only if the storage
      does not hold the replaced default for that parameter. */
  lemma DefaultChangeAgrees(y: System, handle: nat, kind: Byte, raw: Raw)
    requires Regular(y.store) && !y.store.dirty && Agree(y)
    ensures Agree(y.(store := SettingDefault(y.store, handle, kind, raw))) <==> Harmless(y, handle, kind, raw)
  {
    var s, s' := y.store, SettingDefault(y.store, handle, kind, raw);
    var current := y.machine.pages.Current();
    if s' != s {
      SettingDefaultRegular(s, handle, kind, raw);
      var replaced := s.defs[handle];
      forall i | 0 <= i < |s.defs| && i != handle
        ensures s'.values[i] == Reloaded(s'.defs, current)[i]
      {
        ReloadedElsewhere(s, handle, raw, current, i);
      }
      ReloadedIs(s.defs, current, handle);
      ReloadedIs(s'.defs, current, handle);
      if current.Some? {
        HeldSameName(RecordsOf(current.value), replaced, s'.defs[handle]);
      }
      assert s'.values[handle] == Reloaded(s'.defs, current)[handle] <==> Harmless(y, handle, kind, raw);
    }
  }

  // ---------------------------------------------------------------------------
  // Every step.
  // ---------------------------------------------------------------------------

  lemma SetKeeps(y: System, handle: nat, kind: Byte, raw: Raw, built: seq<Definition>)
    requires Inv(y)
    ensures Inv(Apply(y, SetRaw(handle, kind, raw), built))
  {
  }

  lemma ResetKeeps(y: System, built: seq<Definition>)
    requires Inv(y)
    ensures Inv(Apply(y, ResetAll, built))
  {
  }

  lemma SetDefaultKeeps(y: System, handle: nat, kind: Byte, raw: Raw, built: seq<Definition>)
    requires Inv(y) && Tame(y, SetDefault(handle, kind, raw))
    ensures Inv(Apply(y, SetDefault(handle, kind, raw), built))
  {
    SettingDefaultRegular(y.store, handle, kind, raw);
    if y.op.Idle? && !y.store.dirty {
      DefaultChangeAgrees(y, handle, kind, raw);
    }
    if y.op.Booting? && !y.store.dirty {
      assert SettingDefault(y.store, handle, kind, raw).values ==
          Defaults(SettingDefault(y.store, handle, kind, raw).defs);
    }
  }

  /** The payload of a snapshot reads back as the records it was made from. */
  lemma SnapshotHolds(s: Store)
    requires Regular(s)
    ensures RecordsOf(SnapshotOf(s)) == MakeRecords(s.defs, s.values) && SnapshotOf(s).sequence == Increment(s.sequence)
  {
    MadeNamed(s.defs, s.values);
    PayloadRoundTrip(MakeRecords(s.defs, s.values));
  }

  lemma SaveBeginKeeps(y: System, built: seq<Definition>)
    requires Inv(y)
    ensures Inv(Apply(y, SaveBegin, built))
  {
    SnapshotHolds(y.store);
  }

  lemma SaveStoreKeeps(y: System, outcome: Outcome, built: seq<Definition>)
    requires Inv(y)
    ensures Inv(Apply(y, SaveStore(outcome), built))
  {
    if y.op.Captured? {
      Flash.SavingKeeps(y.machine, y.op.snapshot, outcome);
      Flash.CurrentIs(Flash.Saving(y.machine, y.op.snapshot, outcome));
    }
  }

  lemma SaveEndKeeps(y: System, built: seq<Definition>)
    requires Inv(y) && Tame(y, SaveEnd)
    ensures Inv(Apply(y, SaveEnd, built))
  {
    if y.op.Finished? && y.op.ok {
      WrapTells(y.op.capturedChanges, y.store.changes);
      SnapshotRoundTrip(y.store.defs, y.store.values);
    }
  }

  lemma LoadKeeps(y: System, built: seq<Definition>)
    requires Inv(y)
    ensures Inv(Apply(y, LoadBegin, built)) && Inv(Apply(y, LoadEnd, built))
  {
    Flash.ReloadingKeeps(y.machine);
    Flash.CurrentIs(y.machine);
    Flash.CurrentIs(Flash.Reloading(y.machine));
  }

  lemma PowerUpKeeps(y: System, built: seq<Definition>)
    requires Inv(y) && Regular(Store(built, Defaults(built), false, 0, 0))
    ensures Inv(Apply(y, PowerUp, built))
  {
    Flash.RebootKeeps(y.machine);
    var m := Flash.Apply(y.machine, Flash.Reboot);
    Flash.CurrentIs(m);
    Flash.CurrentIs(y.machine);
  }

  lemma BootEndKeeps(y: System, built: seq<Definition>)
    requires Inv(y)
    ensures Inv(Apply(y, BootEnd, built))
  {
  }

  lemma StepKeepsInv(y: System, step: Step, built: seq<Definition>)
    requires Inv(y) && Tame(y, step) && Regular(Store(built, Defaults(built), false, 0, 0))
    ensures Inv(Apply(y, step, built))
  {
    match step
    case SetRaw(h, kind, raw) => SetKeeps(y, h, kind, raw, built);
    case SetDefault(h, kind, raw) => SetDefaultKeeps(y, h, kind, raw, built);
    case ResetAll => ResetKeeps(y, built);
    case SaveBegin => SaveBeginKeeps(y, built);
    case SaveStore(outcome) => SaveStoreKeeps(y, outcome, built);
    case SaveEnd => SaveEndKeeps(y, built);
    case LoadBegin => LoadKeeps(y, built);
    case LoadEnd => LoadKeeps(y, built);
    case PowerUp => PowerUpKeeps(y, built);
    case BootEnd => BootEndKeeps(y, built);
  }

  // ---------------------------------------------------------------------------
  // Every run.
  // ---------------------------------------------------------------------------

  /** First power-up, with nothing stored. */
  function Start(built: seq<Definition>): System
  {
    System(Store(built, Defaults(built), false, 0, 0), Flash.START, Idle)
  }

  lemma ApplyRegular(y: System, step: Step, built: seq<Definition>)
    requires |y.store.values| == |y.store.defs|
    ensures |Apply(y, step, built).store.values| == |Apply(y, step, built).store.defs|
  {
  }

  function Run(y: System, trace: seq<Step>, built: seq<Definition>): System
    requires |y.store.values| == |y.store.defs|
    decreases trace
  {
    if trace == [] then y
    else
      ApplyRegular(y, trace[0], built);
      Run(Apply(y, trace[0], built), trace[1..], built)
  }

  ghost predicate TameRun(y: System, trace: seq<Step>, built: seq<Definition>)
    requires |y.store.values| == |y.store.defs|
    decreases trace
  {
    trace == [] ||
    (ApplyRegular(y, trace[0], built);
     Tame(y, trace[0]) && TameRun(Apply(y, trace[0], built), trace[1..], built))
  }

  lemma {:induction false} RunKeepsInv(y: System, trace: seq<Step>, built: seq<Definition>)
    requires Inv(y) && TameRun(y, trace, built) && Regular(Start(built).store)
    ensures Inv(Run(y, trace, built))
    decreases trace
  {
    if trace != [] {
      StepKeepsInv(y, trace[0], built);
      RunKeepsInv(Apply(y, trace[0], built), trace[1..], built);
    }
  }

  /** Over all runs, with setters interleaved anywhere, saves failing anyhow and power lost at
      any point: whenever nothing is under way and the store is clean, a reload would give
      exactly the current values. */
  lemma CleanMeansStored(trace: seq<Step>, built: seq<Definition>)
    requires Regular(Start(built).store) && TameRun(Start(built), trace, built)
    ensures var y := Run(Start(built), trace, built);
            y.op.Idle? && !y.store.dirty ==> y.store.values == Reloaded(y.store.defs, y.machine.pages.Current())
  {
    RunKeepsInv(Start(built), trace, built);
  }

  function Redefault(kind: Byte, r5: Raw, r7: Raw): seq<Step>
  {
    [SetRaw(0, kind, r5), SaveBegin, SaveStore(Written(true)), SaveEnd, SetDefault(0, kind, r5),
     SetDefault(0, kind, r7)]
  }

  /** Clean, with a single parameter whose saved value is not its default. */
  ghost predicate SavedOne(y: System, kind: Byte, r5: Raw)
  {
    && Inv(y) && y.op.Idle? && !y.store.dirty
    && |y.store.defs| == 1 && y.store.defs[0].kind == kind && y.store.defs[0].defaultValue != r5
    && y.store.values == [r5]
    && y.machine.pages.Current().Some? && Held(RecordsOf(y.machine.pages.Current().value), y.store.defs[0]) == Some(r5)
  }

  lemma SaveStored(y: System, built: seq<Definition>)
    requires Inv(y) && y.op.Captured?
    ensures var y' := Apply(y, SaveStore(Written(true)), built);
            && Inv(y') && y'.store == y.store && y'.op == Finished(y.op.snapshot, y.op.capturedChanges, true)
            && y'.machine.pages.Current() == Some(y.op.snapshot)
  {
    SaveStoreKeeps(y, Written(true), built);
  }

  lemma SaveEnded(y: System, built: seq<Definition>)
    requires Inv(y) && y.op.Finished? && y.op.ok && y.op.capturedChanges == y.store.changes
    ensures var y' := Apply(y, SaveEnd, built);
            && Inv(y') && y'.op.Idle? && y'.store == y.store.(dirty := false, sequence := y.op.snapshot.sequence)
            && y'.machine == y.machine
  {
    SaveEndKeeps(y, built);
  }

  function SaveSteps(y: System, built: seq<Definition>): System
    requires |y.store.values| == |y.store.defs|
  {
    Apply(Apply(Apply(y, SaveBegin, built), SaveStore(Written(true)), built), SaveEnd, built)
  }

  /** A save of a dirty store that succeeds with no setter in between leaves it clean, and the
      storage holds exactly the values that differ from their defaults. */
  lemma SaveAlone(y: System, built: seq<Definition>)
    requires Inv(y) && y.op.Idle? && y.store.dirty
    ensures var y' := SaveSteps(y, built);
            && Inv(y') && y'.op.Idle? && !y'.store.dirty
            && y'.store.values == y.store.values && y'.store.defs == y.store.defs
            && y'.machine.pages.Current().Some?
            && RecordsOf(y'.machine.pages.Current().value) == MakeRecords(y.store.defs, y.store.values)
  {
    SaveBeginKeeps(y, built);
    var y1 := Apply(y, SaveBegin, built);
    SaveStored(y1, built);
    SaveEnded(Apply(y1, SaveStore(Written(true)), built), built);
  }

  /** With nothing to save nothing is done. */
  lemma SaveNothing(y: System, built: seq<Definition>)
    requires Inv(y) && y.op.Idle? && !y.store.dirty
    ensures SaveSteps(y, built) == y
  {
  }

  function LoadSteps(y: System, built: seq<Definition>): System
    requires |y.store.values| == |y.store.defs|
  {
    Apply(Apply(y, LoadBegin, built), LoadEnd, built)
  }

  /** Each parameter has what the storage holds for it, or else its default. */
  ghost predicate AsStored(s: Store, current: Option<Snapshot>)
    requires |s.values| == |s.defs|
  {
    forall i :: 0 <= i < |s.defs| ==>
      s.values[i] ==
      if current.None? then s.defs[i].defaultValue
      else Held(RecordsOf(current.value), s.defs[i]).GetOr(s.defs[i].defaultValue)
  }

  lemma ReloadedAsStored(s: Store, current: Option<Snapshot>)
    requires |s.values| == |s.defs| && DistinctNames(s.defs) && s.values == Reloaded(s.defs, current)
    ensures AsStored(s, current)
  {
    forall i | 0 <= i < |s.defs|
      ensures s.values[i] ==
              if current.None? then s.defs[i].defaultValue
              else Held(RecordsOf(current.value), s.defs[i]).GetOr(s.defs[i].defaultValue)
    {
      ReloadedIs(s.defs, current, i);
    }
  }

  /** An undisturbed load, whatever the values were before, leaves the store clean and each parameter
      as stored; so it changes nothing in a store that is clean. */
  lemma LoadAlone(y: System, built: seq<Definition>)
    requires Inv(y) && y.op.Idle? && y.machine.pages.Current().Some?
    ensures var y' := LoadSteps(y, built);
            && y'.op.Idle? && !y'.store.dirty && y'.store.defs == y.store.defs
            && |y'.store.values| == |y'.store.defs| && AsStored(y'.store, y.machine.pages.Current())
            && (!y.store.dirty ==> y'.store.values == y.store.values)
  {
    LoadKeeps(y, built);
    ReloadedAsStored(LoadSteps(y, built).store, y.machine.pages.Current());
  }

  /** So does power-up, with the defaults it was built with. */
  lemma BootAlone(y: System, built: seq<Definition>)
    requires Inv(y) && Regular(Start(built).store)
    ensures var y' := Apply(Apply(y, PowerUp, built), BootEnd, built);
            && y'.op.Idle? && !y'.store.dirty && y'.store.changes == 0 && y'.store.defs == built
            && |y'.store.values| == |y'.store.defs| && AsStored(y'.store, y'.machine.pages.Current())
            && y'.machine.pages.Current() == y.machine.pages.Current()
  {
    PowerUpKeeps(y, built);
    var up := Apply(y, PowerUp, built);
    BootEndKeeps(up, built);
    ReloadedAsStored(Apply(up, BootEnd, built).store, up.machine.pages.Current());
  }

  /** Resetting gives every parameter its default. An undisturbed save after it stores no record,
      if there is anything to save, and when the storage holds anything a load then gives every
      parameter its default again. */
  lemma ResetSavesNothing(y: System, built: seq<Definition>)
    requires Inv(y) && y.op.Idle?
    ensures var reset := Apply(y, ResetAll, built);
            var saved := SaveSteps(reset, built);
            && reset.store.defs == saved.store.defs == y.store.defs && !saved.store.dirty
            && (forall i :: 0 <= i < |y.store.defs| ==>
                 reset.store.values[i] == saved.store.values[i] == y.store.defs[i].defaultValue)
            && (reset.store.dirty ==>
                  && saved.machine.pages.Current().Some?
                  && RecordsOf(saved.machine.pages.Current().value) == [])
            && (saved.machine.pages.Current().Some? ==>
                  forall i :: 0 <= i < |y.store.defs| ==>
                    LoadSteps(saved, built).store.values[i] == y.store.defs[i].defaultValue)
  {
    ResetKeeps(y, built);
    var reset := Apply(y, ResetAll, built);
    if reset.store.dirty {
      SaveAlone(reset, built);
      NoRecords(y.store.defs);
    } else {
      SaveNothing(reset, built);
    }
    if SaveSteps(reset, built).machine.pages.Current().Some? {
      LoadAlone(SaveSteps(reset, built), built);
    }
  }

  lemma {:induction false} NoRecords(defs: seq<Definition>)
    ensures MakeRecords(defs, Defaults(defs)) == []
  {
    if defs != [] {
      NoRecords(defs[..|defs| - 1]);
      assert Defaults(defs)[..|defs| - 1] == Defaults(defs[..|defs| - 1]);
    }
  }

  lemma SaveOne(y: System, kind: Byte, r5: Raw, built: seq<Definition>)
    requires Inv(y) && y.op.Idle? && |y.store.defs| == 1 && y.store.defs[0].kind == kind
    requires y.store.values[0] != r5 && y.store.defs[0].defaultValue != r5
    ensures SavedOne(SaveSteps(Apply(y, SetRaw(0, kind, r5), built), built), kind, r5)
  {
    var y1 := Apply(y, SetRaw(0, kind, r5), built);
    SetKeeps(y, 0, kind, r5, built);
    assert y1.store.values == [r5];
    MadeHolds(y1.store.defs, [r5], 0);
    SaveAlone(y1, built);
  }

  lemma TwoDefaults(y: System, kind: Byte, r5: Raw, r7: Raw, built: seq<Definition>)
    requires SavedOne(y, kind, r5) && r5 != r7
    ensures var y' := Apply(Apply(y, SetDefault(0, kind, r5), built), SetDefault(0, kind, r7), built);
            y'.op.Idle? && !y'.store.dirty && !Agree(y')
  {
    SetDefaultKeeps(y, 0, kind, r5, built);
    var y1 := Apply(y, SetDefault(0, kind, r5), built);
    HeldSameName(RecordsOf(y.machine.pages.Current().value), y.store.defs[0], y1.store.defs[0]);
    DefaultChangeAgrees(y1, 0, kind, r7);
  }

  /** Without that condition the agreement can be lost: set a value, save it, make it the
      default, then change the default again. The store stays clean, the value has followed the
      default, and a reload would bring back the saved value. */
  lemma DisagreementReachable(name: seq<Byte>, kind: Byte, r3: Raw, r5: Raw, r7: Raw)
    requires |name| == 17 && r3 != r5 && r5 != r7
    ensures var built := [Definition(name, kind, r3)];
            var y := Run(Start(built), Redefault(kind, r5, r7), built);
            y.op.Idle? && !y.store.dirty && !Agree(y)
  {
    var built := [Definition(name, kind, r3)];
    var t := Redefault(kind, r5, r7);
    RunSix(Start(built), t, built);
    SaveOne(Start(built), kind, r5, built);
    TwoDefaults(Apply(Apply(Apply(Apply(Start(built), t[0], built), t[1], built), t[2], built), t[3], built), kind, r5,
                r7, built);
  }

  lemma RunSix(y: System, t: seq<Step>, built: seq<Definition>)
    requires |y.store.values| == |y.store.defs| && |t| == 6
    ensures forall s: System, step: Step :: |s.store.values| == |s.store.defs| ==>
              |Apply(s, step, built).store.values| == |Apply(s, step, built).store.defs|
    ensures Run(y, t, built) ==
            Apply(Apply(Apply(Apply(Apply(Apply(y, t[0], built), t[1], built), t[2], built), t[3], built), t[4], built),
                  t[5], built)
  {
    forall s: System, step: Step | |s.store.values| == |s.store.defs|
      ensures |Apply(s, step, built).store.values| == |Apply(s, step, built).store.defs|
    {
      ApplyRegular(s, step, built);
    }
    var y1 := Apply(y, t[0], built);
    var y2 := Apply(y1, t[1], built);
    var y3 := Apply(y2, t[2], built);
    var y4 := Apply(y3, t[3], built);
    var y5 := Apply(y4, t[4], built);
    assert t[5..][1..] == [] && t[4..][1..] == t[5..] && t[3..][1..] == t[4..] && t[2..][1..] == t[3..]
        && t[1..][1..] == t[2..];
    assert Run(y5, t[5..], built) == Apply(y5, t[5], built);
    assert Run(y4, t[4..], built) == Run(y5, t[5..], built);
    assert Run(y3, t[3..], built) == Run(y4, t[4..], built);
    assert Run(y2, t[2..], built) == Run(y3, t[3..], built);
    assert Run(y1, t[1..], built) == Run(y2, t[2..], built);
  }
}
