/** A parameter page in flash. Programming only clears bits and may stop anywhere; the commit
    word is programmed last, so that a page validates only when it is complete. */
module FlashPages {
  import opened Options
  import opened Bits
  import opened Crc32

  /** The 24 bytes at the start of a page, field by field, lowest bit first. */
  datatype Header = Header(
    magic: seq<bool>, version: seq<bool>, recordCount: seq<bool>, sequence: seq<bool>,
    payloadBytes: seq<bool>, payloadCrc: seq<bool>, committed: seq<bool>)

  datatype Page = Page(header: Header, body: seq<Byte>)

  /** What is stored: records of 24 bytes under a sequence number. */
  datatype Snapshot = Snapshot(sequence: nat, count: nat, payload: seq<Byte>)

  const MAGIC := ToBits(0x5041524d, 32)
  const VERSION := ToBits(1, 16)
  const COMMITTED := ToBits(0x434f4d54, 32)

  ghost predicate Formed(s: Snapshot)
  {
    s.sequence < Pow2(32) && |s.payload| == 24 * s.count
  }

  /** At most 160 records, and they fit the page. */
  predicate Fits(s: Snapshot, pageBytes: nat) { s.count <= 160 && 24 + |s.payload| <= pageBytes }

  ghost predicate Sized(h: Header)
  {
    && |h.magic| == 32 && |h.version| == 16 && |h.recordCount| == 16 && |h.sequence| == 32
    && |h.payloadBytes| == 32 && |h.payloadCrc| == 32 && |h.committed| == 32
  }

  ghost predicate WellSized(p: Page, pageBytes: nat)
  {
    Sized(p.header) && |p.body| + 24 == pageBytes
  }

  const ERASED_HEADER := Header(Ones(32), Ones(16), Ones(16), Ones(32), Ones(32), Ones(32), Ones(32))
  const ONES_BYTE := Byte(true, true, true, true, true, true, true, true)

  predicate IsErased(p: Page)
  {
    p.header == ERASED_HEADER && forall i :: 0 <= i < |p.body| ==> p.body[i] == ONES_BYTE
  }

  /** The header as first programmed: everything but the commit word. */
  function Encode(s: Snapshot): Header
  {
    Header(MAGIC, VERSION, ToBits(s.count, 16), ToBits(s.sequence, 32), ToBits(|s.payload|, 32), Crc(s.payload),
           Ones(32))
  }

  /** The checks of a page, in the order in which they are made. */
  function Validate(p: Page): Option<Snapshot>
  {
    var count := Number(p.header.recordCount);
    var bytes := Number(p.header.payloadBytes);
    if p.header.magic != MAGIC || p.header.version != VERSION || p.header.committed != COMMITTED then None
    else if count > 160 || bytes != 24 * count || bytes > |p.body| then None
    else if Crc(p.body[..bytes]) != p.header.payloadCrc then None
    else Some(Snapshot(Number(p.header.sequence), count, p.body[..bytes]))
  }

  // ---------------------------------------------------------------------------
  // Programming.
  // ---------------------------------------------------------------------------

  /** Programming clears the bits that are clear in the data. */
  function Cleared(before: seq<bool>, data: seq<bool>): (r: seq<bool>)
    requires |before| == |data|
    ensures |r| == |before|
  {
    seq(|before|, i requires 0 <= i < |before| => before[i] && data[i])
  }

  /** Interrupted anywhere, some of those bits have been cleared and no others. */
  ghost predicate Between(before: seq<bool>, data: seq<bool>, now: seq<bool>)
  {
    && |before| == |data| == |now|
    && forall i :: 0 <= i < |now| ==> (before[i] && data[i] ==> now[i]) && (now[i] ==> before[i])
  }

  ghost predicate HeaderBetween(before: Header, data: Header, now: Header)
  {
    && Between(before.magic, data.magic, now.magic) && Between(before.version, data.version, now.version)
    && Between(before.recordCount, data.recordCount, now.recordCount)
    && Between(before.sequence, data.sequence, now.sequence)
    && Between(before.payloadBytes, data.payloadBytes, now.payloadBytes)
    && Between(before.payloadCrc, data.payloadCrc, now.payloadCrc)
    && Between(before.committed, data.committed, now.committed)
  }

  ghost predicate BodyBetween(before: seq<Byte>, data: seq<Byte>, now: seq<Byte>)
    requires |data| <= |before|
  {
    && |now| == |before|
    && (forall i :: 0 <= i < |data| ==> Between(before[i].Bits(), data[i].Bits(), now[i].Bits()))
    && (forall i :: |data| <= i < |before| ==> now[i] == before[i])
  }

  /** On erased flash, complete programming stores the data. */
  lemma ClearedOnes(data: seq<bool>)
    ensures Cleared(Ones(|data|), data) == data
  {
  }

  lemma OnesStay(now: seq<bool>, n: nat)
    requires Between(Ones(n), Ones(n), now)
    ensures now == Ones(n)
  {
  }

  lemma CommittedDiffers()
    ensures COMMITTED != Ones(32) && |COMMITTED| == 32
  {
    assert COMMITTED[0] == (0x434f4d54 % 2 == 1);
  }

  /** Before the commit word no page validates, whatever else it holds. */
  lemma UncommittedInvalid(p: Page)
    requires p.header.committed == Ones(32)
    ensures Validate(p) == None
  {
    CommittedDiffers();
  }

  /** What the page holds after all but the commit word has been programmed. */
  ghost predicate Filled(p: Page, s: Snapshot)
  {
    && |s.payload| <= |p.body|
    && p.header.(committed := Ones(32)) == Encode(s)
    && p.body[..|s.payload|] == s.payload
  }

  lemma SmallNumbers()
    ensures Pow2(16) == 0x10000 && Pow2(32) == 0x1_0000_0000
  {
    assert Pow2(4) == 16;
    assert Pow2(8) == 256;
    assert Pow2(12) == 0x1000;
    assert Pow2(16) == 0x10000;
    assert Pow2(20) == 0x100000;
    assert Pow2(24) == 0x1000000;
    assert Pow2(28) == 0x10000000;
  }

  /** A committed page yields exactly the snapshot that was written. */
  lemma CompleteRoundTrip(p: Page, s: Snapshot, pageBytes: nat)
    requires Filled(p, s) && p.header.committed == COMMITTED
    requires Formed(s) && Fits(s, pageBytes)
    ensures Validate(p) == Some(s)
  {
    SmallNumbers();
    NumberOfBits(s.count, 16);
    NumberOfBits(s.sequence, 32);
    NumberOfBits(|s.payload|, 32);
  }

  /** While the commit word is programmed the page is either invalid or complete. */
  lemma CommitInterrupted(p: Page, s: Snapshot, pageBytes: nat)
    requires Filled(p, s) && Formed(s) && Fits(s, pageBytes)
    ensures Validate(p) == None || Validate(p) == Some(s)
  {
    if p.header.committed == COMMITTED {
      CompleteRoundTrip(p, s, pageBytes);
    }
  }

  /** A page that validates holds what it says: its payload has the checksum it carries. */
  lemma ValidMeans(p: Page, s: Snapshot)
    requires Sized(p.header) && Validate(p) == Some(s)
    ensures Formed(s) && s.count <= 160 && p.header.committed == COMMITTED && p.header.payloadCrc == Crc(s.payload)
    ensures |s.payload| <= |p.body| && p.body[..|s.payload|] == s.payload
  {
    NumberBound(p.header.sequence);
  }

  lemma WordIs(word: seq<bool>, width: nat, n: nat)
    requires |word| == width && n < Pow2(width)
    ensures word == ToBits(n, width) <==> Number(word) == n
  {
    NumberOfBits(n, width);
    BitsOfNumber(word);
  }

  /** The words by which a page is told to be one of this storage, and committed. */
  predicate Marked(h: Header)
  {
    Number(h.magic) == 0x5041524d && Number(h.version) == 1 && Number(h.committed) == 0x434f4d54
  }

  lemma MarkedMeans(h: Header)
    requires Sized(h)
    ensures Marked(h) <==> h.magic == MAGIC && h.version == VERSION && h.committed == COMMITTED
  {
    SmallNumbers();
    WordIs(h.magic, 32, 0x5041524d);
    WordIs(h.version, 16, 1);
    WordIs(h.committed, 32, 0x434f4d54);
  }

  /** Exactly which pages validate, field by field in numbers, and as what. */
  lemma ValidExactly(p: Page)
    requires Sized(p.header)
    ensures var h, count := p.header, Number(p.header.recordCount);
            && (Validate(p).Some? <==>
                 && Marked(h) && count <= 160 && Number(h.payloadBytes) == 24 * count && 24 * count <= |p.body|
                 && Crc(p.body[..24 * count]) == h.payloadCrc)
            && (Validate(p).Some? ==> Validate(p) == Some(Snapshot(Number(h.sequence), count, p.body[..24 * count])))
  {
    MarkedMeans(p.header);
  }
}
