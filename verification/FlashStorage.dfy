/** The two-page parameter storage. A save is carried out step by step on a device that may
    fail at any of them; whatever happens, the page not being written is left alone. */
module FlashStorage {
  import opened Options
  import opened Bits
  import opened FlashPages

  datatype Slot = A | B

  function Other(s: Slot): Slot { if s.A? then B else A }

  /** The signed difference of two 32-bit numbers is positive. */
  predicate SequenceNewer(left: nat, right: nat)
  {
    var d := if left >= right then left - right else left - right + 0x1_0000_0000;
    0 < d < 0x8000_0000
  }

  /** The slot that a load picks. */
  function Pick(a: Option<Snapshot>, b: Option<Snapshot>): Option<Slot>
  {
    if a.None? && b.None? then None
    else if a.Some? && (b.None? || SequenceNewer(a.value.sequence, b.value.sequence)) then Some(A)
    else Some(B)
  }

  /** What the two pages validate to, and which of them is active. */
  datatype Pages = Pages(a: Option<Snapshot>, b: Option<Snapshot>, active: Option<Slot>)
  {
    function At(s: Slot): Option<Snapshot> { if s.A? then a else b }

    function Target(): Slot { if active == Some(A) then B else A }

    function With(s: Slot, page: Option<Snapshot>): Pages { if s.A? then this.(a := page) else this.(b := page) }

    /** What a load returns. */
    function Current(): Option<Snapshot>
    {
      var slot := Pick(a, b);
      if slot.Some? then At(slot.value) else None
    }
  }

  /** How a save ends: the target page is as it was, holds nothing valid, or holds the new
      snapshot; in the last case the device may still have reported a failure. */
  datatype Outcome = Kept | Wiped | Written(reported: bool)

  function Saved(p: Pages, s: Snapshot, o: Outcome): Pages
  {
    match o
    case Kept => p
    case Wiped => p.With(p.Target(), None)
    case Written(reported) =>
      var q := p.With(p.Target(), Some(s));
      if reported then q.(active := Some(p.Target())) else q
  }

  function Loaded(p: Pages): Pages { p.(active := Pick(p.a, p.b)) }

  /** What a device operation reports and leaves in the page; a failed one may have got anywhere. */
  datatype Operation = Operation(ok: bool, after: Page)

  /** The device during one save: whether it knows the page, and its four operations. */
  datatype Device = Device(knows: bool, erase: Operation, header: Operation, payload: Operation, commit: Operation)

  /** An interrupted erase leaves the old page or one that does not validate. */
  ghost predicate Erases(before: Page, op: Operation, pageBytes: nat)
  {
    && WellSized(op.after, pageBytes)
    && (if op.ok then IsErased(op.after) else op.after == before || Validate(op.after) == None)
  }

  function ClearedHeader(h: Header, data: Header): Header
    requires Sized(h) && Sized(data)
  {
    Header(Cleared(h.magic, data.magic), Cleared(h.version, data.version), Cleared(h.recordCount, data.recordCount),
           Cleared(h.sequence, data.sequence), Cleared(h.payloadBytes, data.payloadBytes),
           Cleared(h.payloadCrc, data.payloadCrc),
           Cleared(h.committed, data.committed))
  }

  ghost predicate WritesHeader(before: Page, data: Header, op: Operation)
    requires Sized(before.header) && Sized(data)
  {
    && op.after.body == before.body
    && (if op.ok then op.after.header == ClearedHeader(before.header, data)
        else HeaderBetween(before.header, data, op.after.header))
  }

  ghost predicate WritesPayload(before: Page, data: seq<Byte>, op: Operation)
    requires |data| <= |before.body|
  {
    && op.after.header == before.header && BodyBetween(before.body, data, op.after.body)
    && (op.ok ==> forall i :: 0 <= i < |data| ==>
      op.after.body[i].Bits() == Cleared(before.body[i].Bits(), data[i].Bits()))
  }

  ghost predicate WritesCommit(before: Page, op: Operation)
    requires |before.header.committed| == 32
  {
    var word := op.after.header.committed;
    && op.after == before.(header := before.header.(committed := word))
    && (if op.ok then word == Cleared(before.header.committed, COMMITTED)
        else Between(before.header.committed, COMMITTED, word))
  }

  /** Each operation that is reached does what flash can do to what the one before left; an
      empty payload is not written at all. */
  ghost predicate Plausible(d: Device, before: Page, s: Snapshot, pageBytes: nat)
    requires Fits(s, pageBytes)
  {
    && Erases(before, d.erase, pageBytes)
    && WellSized(d.header.after, pageBytes) && WellSized(d.payload.after, pageBytes)
    && WellSized(d.commit.after, pageBytes)
    && (d.erase.ok ==> WritesHeader(d.erase.after, Encode(s), d.header))
    && (d.erase.ok && d.header.ok ==>
          && (s.payload != [] ==> WritesPayload(d.header.after, s.payload, d.payload))
          && (s.payload == [] || d.payload.ok ==> WritesCommit(BeforeCommit(d, s), d.commit)))
  }

  function BeforeCommit(d: Device, s: Snapshot): Page { if s.payload == [] then d.header.after else d.payload.after }

  lemma HeaderStored(before: Page, s: Snapshot, op: Operation)
    requires IsErased(before) && WritesHeader(before, Encode(s), op) && op.ok
    ensures op.after.header == Encode(s)
  {
    ClearedOnes(MAGIC);
    ClearedOnes(VERSION);
    ClearedOnes(Encode(s).recordCount);
    ClearedOnes(Encode(s).sequence);
    ClearedOnes(Encode(s).payloadBytes);
    ClearedOnes(Encode(s).payloadCrc);
    ClearedOnes(Ones(32));
  }

  lemma HeaderInterrupted(before: Page, s: Snapshot, op: Operation)
    requires IsErased(before) && WritesHeader(before, Encode(s), op)
    ensures op.after.header.committed == Ones(32)
  {
    if op.ok {
      HeaderStored(before, s, op);
    } else {
      OnesStay(op.after.header.committed, 32);
    }
  }

  lemma ByteFromBits(a: Byte, b: Byte)
    requires a.Bits() == b.Bits()
    ensures a == b
  {
    assert a == Byte(a.Bits()[0], a.Bits()[1], a.Bits()[2], a.Bits()[3], a.Bits()[4], a.Bits()[5], a.Bits()[6],
                     a.Bits()[7]);
    assert b == Byte(b.Bits()[0], b.Bits()[1], b.Bits()[2], b.Bits()[3], b.Bits()[4], b.Bits()[5], b.Bits()[6],
                     b.Bits()[7]);
  }

  lemma PayloadStored(before: Page, data: seq<Byte>, op: Operation)
    requires |data| <= |before.body| && WritesPayload(before, data, op) && op.ok
    requires forall i :: 0 <= i < |before.body| ==> before.body[i] == ONES_BYTE
    ensures op.after.body[..|data|] == data
  {
    forall i | 0 <= i < |data|
      ensures op.after.body[i] == data[i]
    {
      assert ONES_BYTE.Bits() == Ones(8);
      ClearedOnes(data[i].Bits());
      ByteFromBits(op.after.body[i], data[i]);
    }
  }

  lemma CommitStored(before: Page, s: Snapshot, op: Operation, pageBytes: nat)
    requires before.header == Encode(s) && |s.payload| <= |before.body| && before.body[..|s.payload|] == s.payload
    requires WritesCommit(before, op) && Formed(s) && Fits(s, pageBytes)
    ensures Validate(op.after) == None || Validate(op.after) == Some(s)
    ensures op.ok ==> Validate(op.after) == Some(s)
  {
    CommitInterrupted(op.after, s, pageBytes);
    if op.ok {
      CommittedDiffers();
      ClearedOnes(COMMITTED);
      CompleteRoundTrip(op.after, s, pageBytes);
    }
  }

  class FlashParamStorage {
    const pageBytes: nat
    var slotA: Page
    var slotB: Page
    var activeSlot: Option<Slot>

    ghost predicate Valid()
      reads this
    {
      WellSized(slotA, pageBytes) && WellSized(slotB, pageBytes)
    }

    function At(s: Slot): Page
      reads this
    {
      if s.A? then slotA else slotB
    }

    function TargetSlot(): Slot
      reads this
    {
      if activeSlot == Some(A) then B else A
    }

    function Abs(): Pages
      reads this
    {
      Pages(Validate(slotA), Validate(slotB), activeSlot)
    }

    constructor (pageBytes: nat, slotA: Page, slotB: Page)
      requires WellSized(slotA, pageBytes) && WellSized(slotB, pageBytes)
      ensures Valid() && activeSlot == None
    {
      this.pageBytes, this.slotA, this.slotB, activeSlot := pageBytes, slotA, slotB, None;
    }

    method Load() returns (r: Option<Snapshot>)
      modifies this`activeSlot
      ensures Abs() == Loaded(old(Abs())) && r == Abs().Current()
    {
      var a, b := Validate(slotA), Validate(slotB);
      if a.None? && b.None? {
        activeSlot := None;
        return None;
      }
      activeSlot := if a.Some? && (b.None? || SequenceNewer(a.value.sequence, b.value.sequence)) then Some(A)
          else Some(B);
      r := Validate(At(activeSlot.value));
    }

    method Put(target: Slot, p: Page)
      requires Valid() && WellSized(p, pageBytes)
      modifies this`slotA, this`slotB
      ensures Valid() && At(target) == p && At(Other(target)) == old(At(Other(target)))
    {
      if target.A? {
        slotA := p;
      } else {
        slotB := p;
      }
    }

    /** Whatever the device does, a save has one of the outcomes, and it reports success
        exactly when the new snapshot is stored and has become active. */
    method Save(s: Snapshot, d: Device) returns (ok: bool, ghost outcome: Outcome)
      requires Valid() && Formed(s)
      requires Fits(s, pageBytes) ==> Plausible(d, At(TargetSlot()), s, pageBytes)
      modifies this
      ensures Valid() && Abs() == Saved(old(Abs()), s, outcome) && (ok <==> outcome == Written(true))
      ensures s.count > 160 || 24 + |s.payload| > pageBytes || !d.knows ==> outcome == Kept
      ensures ok <==>
                && s.count <= 160 && 24 + |s.payload| <= pageBytes && d.knows
                && d.erase.ok && d.header.ok && (s.payload == [] || d.payload.ok) && d.commit.ok
    {
      outcome := Kept;
      if s.count > 160 || 24 + |s.payload| > pageBytes {
        return false, outcome;
      }
      if !d.knows {
        return false, outcome;
      }
      var target := TargetSlot();
      ok := Program(target, s, d);
      outcome := if Validate(At(target)) == Some(s) then Written(ok) else if Validate(At(target)) == None then Wiped
          else Kept;
      if ok {
        activeSlot := Some(target);
      }
    }

    /** Erases the page, then writes header, payload and commit word, and reads the page back. */
    method Program(target: Slot, s: Snapshot, d: Device) returns (ok: bool)
      requires Valid() && Formed(s) && Fits(s, pageBytes) && Plausible(d, At(target), s, pageBytes)
      modifies this`slotA, this`slotB
      ensures Valid() && At(Other(target)) == old(At(Other(target)))
      ensures Validate(At(target)) == old(Validate(At(target))) || Validate(At(target)) == None
              || Validate(At(target)) == Some(s)
      ensures ok ==> Validate(At(target)) == Some(s)
      ensures ok <==> d.erase.ok && d.header.ok && (s.payload == [] || d.payload.ok) && d.commit.ok
      ensures At(target) ==
              if !d.erase.ok then d.erase.after
              else if !d.header.ok then d.header.after
              else if s.payload != [] && !d.payload.ok then d.payload.after
              else d.commit.after
    {
      Put(target, d.erase.after);
      if !d.erase.ok {
        return false;
      }
      HeaderInterrupted(d.erase.after, s, d.header);
      UncommittedInvalid(d.header.after);
      Put(target, d.header.after);
      if !d.header.ok {
        return false;
      }
      HeaderStored(d.erase.after, s, d.header);
      ok := WritePayload(target, s, d);
      if ok {
        ok := Commit(target, BeforeCommit(d, s), s, d.commit);
      }
    }

    method WritePayload(target: Slot, s: Snapshot, d: Device) returns (ok: bool)
      requires Valid() && |s.payload| <= |At(target).body|
      requires At(target) == d.header.after && At(target).header == Encode(s)
      requires forall i :: 0 <= i < |At(target).body| ==> At(target).body[i] == ONES_BYTE
      requires WellSized(d.payload.after, pageBytes)
      requires s.payload != [] ==> WritesPayload(At(target), s.payload, d.payload)
      modifies this`slotA, this`slotB
      ensures Valid() && At(Other(target)) == old(At(Other(target))) && Validate(At(target)) == None
      ensures ok <==> s.payload == [] || d.payload.ok
      ensures At(target) == BeforeCommit(d, s)
      ensures ok ==> At(target) == BeforeCommit(d, s) && At(target).header == Encode(s) && Filled(At(target), s)
    {
      UncommittedInvalid(d.header.after);
      if s.payload == [] {
        return true;
      }
      UncommittedInvalid(d.payload.after);
      Put(target, d.payload.after);
      if d.payload.ok {
        PayloadStored(d.header.after, s.payload, d.payload);
      }
      ok := d.payload.ok;
    }

    method Commit(target: Slot, ghost before: Page, s: Snapshot, op: Operation) returns (ok: bool)
      requires Valid() && Formed(s) && Fits(s, pageBytes)
      requires At(target) == before && before.header == Encode(s) && Filled(before, s)
      requires WellSized(op.after, pageBytes) && WritesCommit(before, op)
      modifies this`slotA, this`slotB
      ensures Valid() && At(Other(target)) == old(At(Other(target)))
      ensures Validate(At(target)) == None || Validate(At(target)) == Some(s)
      ensures ok ==> Validate(At(target)) == Some(s)
      ensures ok == op.ok && At(target) == op.after
    {
      CommitStored(before, s, op, pageBytes);
      Put(target, op.after);
      if !op.ok {
        return false;
      }
      var verified := Validate(At(target));
      ok := verified.Some? && verified.value.sequence == s.sequence;
    }
  }
}
