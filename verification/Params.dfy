/** The parameter table, and snapshots of the values that differ from their defaults. */
module Params {
  import opened Options
  import opened Bits

  /** The raw 32 bits of a value. */
  datatype Raw = Raw(b0: Byte, b1: Byte, b2: Byte, b3: Byte)

  /** Names fill 17 bytes, padded with zeros. */
  datatype Definition = Definition(name: seq<Byte>, kind: Byte, defaultValue: Raw)

  datatype Record = Record(name: seq<Byte>, kind: Byte, value: Raw)

  predicate Matches(d: Definition, r: Record) { d.name == r.name && d.kind == r.kind }

  ghost predicate DistinctNames(defs: seq<Definition>)
  {
    forall i, j :: 0 <= i < j < |defs| ==> defs[i].name != defs[j].name
  }

  function Defaults(defs: seq<Definition>): (values: seq<Raw>)
    ensures |values| == |defs|
    ensures forall i :: 0 <= i < |defs| ==> values[i] == defs[i].defaultValue
  {
    if defs == [] then [] else Defaults(defs[..|defs| - 1]) + [defs[|defs| - 1].defaultValue]
  }

  /** One record for each value that differs from its default, in table order. */
  function MakeRecords(defs: seq<Definition>, values: seq<Raw>): (records: seq<Record>)
    requires |values| == |defs|
    ensures |records| <= |defs|
  {
    if defs == [] then []
    else
      var n := |defs| - 1;
      var before := MakeRecords(defs[..n], values[..n]);
      if values[n] == defs[n].defaultValue then before
      else before + [Record(defs[n].name, defs[n].kind, values[n])]
  }

  /** The index of the first definition that the record matches. */
  function Lookup(defs: seq<Definition>, r: Record): (k: Option<nat>)
    ensures k.Some? ==> k.value < |defs| && Matches(defs[k.value], r) && forall i :: 0 <= i < k.value ==>
              !Matches(defs[i], r)
    ensures k.None? ==> forall i :: 0 <= i < |defs| ==> !Matches(defs[i], r)
  {
    if defs == [] then None
    else
      var n := |defs| - 1;
      var k := Lookup(defs[..n], r);
      if k.Some? then k else if Matches(defs[n], r) then Some(n) else None
  }

  function ApplyOne(defs: seq<Definition>, values: seq<Raw>, r: Record): (values': seq<Raw>)
    requires |values| == |defs|
    ensures |values'| == |defs|
  {
    var k := Lookup(defs, r);
    if k.Some? then values[k.value := r.value] else values
  }

  function ApplyRecords(defs: seq<Definition>, values: seq<Raw>, records: seq<Record>): (values': seq<Raw>)
    requires |values| == |defs|
    ensures |values'| == |defs|
  {
    if records == [] then values
    else ApplyOne(defs, ApplyRecords(defs, values, records[..|records| - 1]), records[|records| - 1])
  }

  /** The value that the records hold for a definition: the last one counts. */
  function Held(records: seq<Record>, d: Definition): Option<Raw>
  {
    if records == [] then None
    else
      var r := records[|records| - 1];
      if Matches(d, r) then Some(r.value) else Held(records[..|records| - 1], d)
  }

  /** Exactly that: the value of a matching record with no matching one after it. */
  lemma {:induction false} HeldIs(records: seq<Record>, d: Definition, v: Raw)
    ensures Held(records, d) == Some(v) <==>
              exists k :: 0 <= k < |records| && LastFor(records, d, k) && records[k].value == v
  {
    if records != [] {
      var n := |records| - 1;
      HeldIs(records[..n], d, v);
      forall k | 0 <= k < n
        ensures LastFor(records, d, k) <==> LastFor(records[..n], d, k) && !LastFor(records, d, n)
      {
      }
    }
  }

  predicate LastFor(records: seq<Record>, d: Definition, k: nat)
    requires k < |records|
  {
    && records[k].name == d.name && records[k].kind == d.kind
    && forall i :: k < i < |records| ==> records[i].name != d.name || records[i].kind != d.kind
  }

  /** Applying records gives each parameter what they hold for it, and leaves the others. */
  lemma {:induction false} AppliedIsHeld(defs: seq<Definition>, values: seq<Raw>, records: seq<Record>, i: nat)
    requires |values| == |defs| && i < |defs| && DistinctNames(defs)
    ensures ApplyRecords(defs, values, records)[i] == Held(records, defs[i]).GetOr(values[i])
  {
    if records != [] {
      var n := |records| - 1;
      AppliedIsHeld(defs, values, records[..n], i);
      var k := Lookup(defs, records[n]);
      if k.Some? && k.value != i {
        assert defs[k.value].name != defs[i].name;
      }
    }
  }

  lemma HeldSnoc(records: seq<Record>, r: Record, d: Definition)
    ensures Held(records + [r], d) == if Matches(d, r) then Some(r.value) else Held(records, d)
  {
    assert (records + [r])[..|records|] == records;
  }

  /** What a snapshot holds for a parameter: its value if that differs from the default. */
  lemma {:induction false} MadeHolds(defs: seq<Definition>, values: seq<Raw>, i: nat)
    requires |values| == |defs| && DistinctNames(defs) && i < |defs|
    ensures Held(MakeRecords(defs, values), defs[i]) == if values[i] == defs[i].defaultValue then None
            else Some(values[i])
  {
    var n := |defs| - 1;
    var before := MakeRecords(defs[..n], values[..n]);
    HeldSnoc(before, Record(defs[n].name, defs[n].kind, values[n]), defs[i]);
    if i < n {
      MadeHolds(defs[..n], values[..n], i);
      assert defs[..n][i] == defs[i];
      assert defs[i].name != defs[n].name;
    } else {
      NoneForOthers(defs[..n], values[..n], defs[n]);
    }
  }

  lemma {:induction false} NoneForOthers(defs: seq<Definition>, values: seq<Raw>, d: Definition)
    requires |values| == |defs| && forall i :: 0 <= i < |defs| ==> defs[i].name != d.name
    ensures Held(MakeRecords(defs, values), d) == None
  {
    if defs != [] {
      var n := |defs| - 1;
      NoneForOthers(defs[..n], values[..n], d);
      HeldSnoc(MakeRecords(defs[..n], values[..n]), Record(defs[n].name, defs[n].kind, values[n]), d);
    }
  }

  /** Making a snapshot and applying it to the defaults undo each other. */
  lemma SnapshotRoundTrip(defs: seq<Definition>, values: seq<Raw>)
    requires |values| == |defs| && DistinctNames(defs)
    ensures ApplyRecords(defs, Defaults(defs), MakeRecords(defs, values)) == values
  {
    forall i | 0 <= i < |defs|
      ensures ApplyRecords(defs, Defaults(defs), MakeRecords(defs, values))[i] == values[i]
    {
      AppliedIsHeld(defs, Defaults(defs), MakeRecords(defs, values), i);
      MadeHolds(defs, values, i);
    }
  }

  // ---------------------------------------------------------------------------
  // The image of records in the payload.
  // ---------------------------------------------------------------------------

  ghost predicate Named(records: seq<Record>) { forall i :: 0 <= i < |records| ==> |records[i].name| == 17 }

  /** 17 bytes of name, the kind, two reserved bytes, and the value: 24 bytes. */
  function Image(r: Record): (image: seq<Byte>)
    ensures |r.name| == 17 ==> |image| == 24
  {
    r.name + [r.kind, ZERO_BYTE, ZERO_BYTE, r.value.b0, r.value.b1, r.value.b2, r.value.b3]
  }

  function Encode(records: seq<Record>): (payload: seq<Byte>)
  {
    if records == [] then [] else Encode(records[..|records| - 1]) + Image(records[|records| - 1])
  }

  function RecordOf(image: seq<Byte>): Record
    requires |image| == 24
  {
    Record(image[..17], image[17], Raw(image[20], image[21], image[22], image[23]))
  }

  function Decode(payload: seq<Byte>, count: nat): seq<Record>
    requires |payload| == 24 * count
    decreases count
  {
    if count == 0 then []
    else Decode(payload[..|payload| - 24], count - 1) + [RecordOf(payload[|payload| - 24..])]
  }

  lemma ImageRoundTrip(r: Record)
    requires |r.name| == 17
    ensures RecordOf(Image(r)) == r
  {
    assert Image(r)[..17] == r.name;
  }

  lemma DecodeSnoc(payload: seq<Byte>, image: seq<Byte>, n: nat)
    requires |payload| == 24 * n && |image| == 24
    ensures |payload + image| == 24 * (n + 1)
            && Decode(payload + image, n + 1) == Decode(payload, n) + [RecordOf(image)]
  {
    var whole := payload + image;
    assert whole[..|whole| - 24] == payload && whole[|whole| - 24..] == image;
  }

  lemma {:induction false} PayloadRoundTrip(records: seq<Record>)
    requires Named(records)
    ensures |Encode(records)| == 24 * |records| && Decode(Encode(records), |records|) == records
  {
    if records != [] {
      var n := |records| - 1;
      PayloadRoundTrip(records[..n]);
      DecodeSnoc(Encode(records[..n]), Image(records[n]), n);
      ImageRoundTrip(records[n]);
      assert records == records[..n] + [records[n]];
    }
  }

  ghost predicate NamedTable(defs: seq<Definition>) { forall i :: 0 <= i < |defs| ==> |defs[i].name| == 17 }

  lemma {:induction false} MadeNamed(defs: seq<Definition>, values: seq<Raw>)
    requires |values| == |defs| && NamedTable(defs)
    ensures Named(MakeRecords(defs, values))
  {
    if defs != [] {
      var n := |defs| - 1;
      MadeNamed(defs[..n], values[..n]);
    }
  }
}
