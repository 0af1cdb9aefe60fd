/** The parameter manager object. Each method is one region under its lock and does to the
    table what the functions of ParamRuns say. */
module ParamManagers {
  import opened Counters
  import opened Options
  import opened Bits
  import opened Params
  import opened ParamRuns
  import opened FlashPages

  lemma Restored(defs: seq<Definition>, values: seq<Raw>, records: seq<Record>)
    requires |values| == |defs| && DistinctNames(defs)
    ensures forall i :: 0 <= i < |defs| ==>
              ApplyRecords(defs, values, records)[i] == Held(records, defs[i]).GetOr(values[i])
  {
    forall i | 0 <= i < |defs|
      ensures ApplyRecords(defs, values, records)[i] == Held(records, defs[i]).GetOr(values[i])
    {
      AppliedIsHeld(defs, values, records, i);
    }
  }

  /** The snapshot holds the value of each parameter that differs from its default, and no other. */
  ghost predicate Says(snapshot: Snapshot, defs: seq<Definition>, values: seq<Raw>)
    requires |values| == |defs|
  {
    forall i :: 0 <= i < |defs| ==>
      Held(RecordsOf(snapshot), defs[i]) == if values[i] == defs[i].defaultValue then None else Some(values[i])
  }

  lemma SnapshotSays(s: Store)
    requires Regular(s)
    ensures Says(SnapshotOf(s), s.defs, s.values)
  {
    SnapshotHolds(s);
    forall i | 0 <= i < |s.defs|
      ensures Held(RecordsOf(SnapshotOf(s)), s.defs[i]) ==
              if s.values[i] == s.defs[i].defaultValue then None else Some(s.values[i])
    {
      MadeHolds(s.defs, s.values, i);
    }
  }

  class ParamManager {
    var definitions: seq<Definition>
    var values: seq<Raw>
    var dirty: bool
    var generation: nat
    var storageSequence: nat
    /** How many changes there have been. */
    ghost var changes: nat

    ghost predicate Valid()
      reads this
    {
      Regular(State()) && generation == Wrap(changes)
    }

    ghost function State(): Store
      reads this
    {
      Store(definitions, values, dirty, changes, storageSequence)
    }

    constructor (built: seq<Definition>)
      requires Regular(Start(built).store)
      ensures Valid() && State() == Start(built).store
      ensures definitions == built && !dirty && changes == 0 && storageSequence == 0
      ensures forall i :: 0 <= i < |built| ==> values[i] == built[i].defaultValue
    {
      definitions, values := built, Defaults(built);
      dirty, generation, storageSequence, changes := false, 0, 0, 0;
    }

    method CountChange()
      requires generation == Wrap(changes)
      modifies this`generation, this`changes
      ensures generation == Wrap(changes) && changes == old(changes) + 1
    {
      WrapNext(changes);
      generation := Increment(generation);
      changes := changes + 1;
    }

    /** The handle of the first parameter with the given name. */
    method Find(name: seq<Byte>) returns (handle: Option<nat>)
      ensures handle.Some? ==> handle.value < |definitions| && definitions[handle.value].name == name
                               && forall i :: 0 <= i < handle.value ==> definitions[i].name != name
      ensures handle.None? ==> forall i :: 0 <= i < |definitions| ==> definitions[i].name != name
    {
      for index := 0 to |definitions|
        invariant forall i :: 0 <= i < index ==> definitions[i].name != name
      {
        if definitions[index].name == name {
          return Some(index);
        }
      }
      handle := None;
    }

    method SetRaw(handle: nat, kind: Byte, raw: Raw) returns (ok: bool)
      requires Valid()
      modifies this
      ensures Valid() && State() == Setting(old(State()), handle, kind, raw)
      ensures ok <==> handle < |definitions| && definitions[handle].kind == kind
      ensures definitions == old(definitions) && storageSequence == old(storageSequence)
      ensures values == if ok then old(values)[handle := raw] else old(values)
      ensures dirty == (old(dirty) || values != old(values))
      ensures changes == old(changes) + if values != old(values) then 1 else 0
    {
      if handle >= |definitions| || definitions[handle].kind != kind {
        return false;
      }
      if values[handle] != raw {
        values := values[handle := raw];
        dirty := true;
        CountChange();
      }
      ok := true;
    }

    method SetDefaultRaw(handle: nat, kind: Byte, raw: Raw) returns (ok: bool)
      requires Valid()
      modifies this
      ensures Valid() && State() == SettingDefault(old(State()), handle, kind, raw)
      ensures ok <==> handle < |definitions| && definitions[handle].kind == kind
      ensures dirty == old(dirty) && storageSequence == old(storageSequence)
      ensures definitions == if ok then old(definitions)[handle := old(definitions)[handle].(defaultValue := raw)]
                             else old(definitions)
      ensures values == if ok && old(values)[handle] == old(definitions)[handle].defaultValue
                        then old(values)[handle := raw] else old(values)
      ensures changes == old(changes) + if definitions != old(definitions) then 1 else 0
    {
      if handle >= |definitions| || definitions[handle].kind != kind {
        return false;
      }
      var oldDefault := definitions[handle].defaultValue;
      if oldDefault == raw {
        return true;
      }
      SettingDefaultRegular(State(), handle, kind, raw);
      if values[handle] == oldDefault {
        values := values[handle := raw];
      }
      definitions := definitions[handle := definitions[handle].(defaultValue := raw)];
      CountChange();
      ok := true;
    }

    /** One change however many values it resets, and none if it resets none. */
    method ResetAll()
      requires Valid()
      modifies this
      ensures Valid() && State() == ResettingAll(old(State()))
      ensures definitions == old(definitions) && storageSequence == old(storageSequence)
      ensures forall i :: 0 <= i < |definitions| ==> values[i] == definitions[i].defaultValue
      ensures dirty == (old(dirty) || values != old(values))
      ensures changes == old(changes) + if values != old(values) then 1 else 0
    {
      var changed := false;
      for index := 0 to |definitions|
        invariant |values| == |definitions| == |old(definitions)| && definitions == old(definitions)
        invariant forall i :: 0 <= i < index ==> values[i] == definitions[i].defaultValue
        invariant forall i :: index <= i < |values| ==> values[i] == old(values[i])
        invariant changed <==> values != old(values)
        invariant dirty == old(dirty) && generation == old(generation) && changes == old(changes)
                  && storageSequence == old(storageSequence)
      {
        if values[index] != definitions[index].defaultValue {
          assert values[index] == old(values[index]);
          values := values[index := definitions[index].defaultValue];
          changed := true;
        }
      }
      assert values == Defaults(definitions);
      if changed {
        dirty := true;
        CountChange();
      }
    }

    method CollectRecords() returns (records: seq<Record>)
      requires |values| == |definitions| <= 160
      ensures records == MakeRecords(definitions, values)
    {
      records := [];
      var index := 0;
      while index < |definitions| && |records| < 160
        invariant index <= |definitions| && |records| <= index
        invariant records == MakeRecords(definitions[..index], values[..index])
      {
        assert definitions[..index + 1][..index] == definitions[..index];
        assert values[..index + 1][..index] == values[..index];
        if values[index] != definitions[index].defaultValue {
          records := records + [Record(definitions[index].name, definitions[index].kind, values[index])];
        }
        index := index + 1;
      }
      assert definitions[..|definitions|] == definitions && values[..|values|] == values;
    }

    method MakeSnapshot() returns (snapshot: Snapshot)
      requires Valid()
      ensures snapshot == SnapshotOf(State()) && snapshot.sequence == Increment(storageSequence)
      ensures Says(snapshot, definitions, values)
    {
      var records := CollectRecords();
      snapshot := Snapshot(Increment(storageSequence), |records|, Params.Encode(records));
      SnapshotSays(State());
    }

    /** Restores each record to the first parameter of its name and kind; others are ignored. */
    method ApplySnapshot(records: seq<Record>)
      requires |values| == |definitions|
      modifies this`values
      ensures values == ApplyRecords(definitions, old(values), records)
    {
      for r := 0 to |records|
        invariant values == ApplyRecords(definitions, old(values), records[..r])
      {
        assert records[..r + 1][..r] == records[..r];
        ghost var k := Lookup(definitions, records[r]);
        ghost var before := values;
        var index := 0;
        while index < |definitions|
          invariant index <= |definitions| && values == before
          invariant k.Some? ==> index <= k.value
        {
          if Matches(definitions[index], records[r]) {
            values := values[index := records[r].value];
            break;
          }
          index := index + 1;
        }
      }
      assert records[..|records|] == records;
    }

    /** The first region of a save: nothing to do when clean. */
    method BeginSave() returns (snapshot: Option<Snapshot>, captured: nat)
      requires Valid()
      ensures snapshot == if dirty then Some(SnapshotOf(State())) else None
      ensures captured == Wrap(changes)
    {
      captured := generation;
      if !dirty {
        return None, captured;
      }
      var made := MakeSnapshot();
      snapshot := Some(made);
    }

    /** The region after the storage has accepted the snapshot. */
    method EndSave(snapshot: Snapshot, captured: nat, ghost capturedChanges: nat) returns (allSaved: bool)
      requires Valid() && captured == Wrap(capturedChanges)
      modifies this
      ensures Valid() && State() == EndingSave(old(State()), snapshot, capturedChanges)
      ensures definitions == old(definitions) && values == old(values) && storageSequence == snapshot.sequence
      ensures allSaved == (generation == captured) && generation == old(generation)
      ensures dirty == (old(dirty) && !allSaved)
    {
      storageSequence := snapshot.sequence;
      allSaved := generation == captured;
      if allSaved {
        dirty := false;
      }
    }

    /** The region after a load: defaults first, then the snapshot. */
    method EndLoad(snapshot: Snapshot)
      requires Valid()
      modifies this
      ensures Valid() && State() == EndingLoad(old(State()), snapshot)
      ensures definitions == old(definitions) && !dirty && storageSequence == snapshot.sequence
      ensures changes == old(changes) + 1
      ensures forall i :: 0 <= i < |definitions| ==>
                values[i] == Held(RecordsOf(snapshot), definitions[i]).GetOr(definitions[i].defaultValue)
    {
      for index := 0 to |definitions|
        invariant |values| == |definitions| && definitions == old(definitions)
        invariant forall i :: 0 <= i < index ==> values[i] == definitions[i].defaultValue
        invariant generation == old(generation) && changes == old(changes)
      {
        values := values[index := definitions[index].defaultValue];
      }
      assert values == Defaults(definitions);
      ApplySnapshot(RecordsOf(snapshot));
      Restored(definitions, Defaults(definitions), RecordsOf(snapshot));
      storageSequence := snapshot.sequence;
      dirty := false;
      CountChange();
    }

    /** The last region of the initialisation: the snapshot goes on top. */
    method EndBoot(found: Option<Snapshot>)
      requires Valid()
      modifies this
      ensures Valid() && State() == EndingBoot(old(State()), found)
      ensures definitions == old(definitions) && dirty == old(dirty) && changes == old(changes)
      ensures storageSequence == if found.Some? then found.value.sequence else old(storageSequence)
      ensures forall i :: 0 <= i < |definitions| ==>
                values[i] == if found.None? then old(values)[i]
                             else Held(RecordsOf(found.value), definitions[i]).GetOr(old(values)[i])
    {
      if found.Some? {
        Restored(definitions, values, RecordsOf(found.value));
        ApplySnapshot(RecordsOf(found.value));
        storageSequence := found.value.sequence;
      }
    }
  }
}
