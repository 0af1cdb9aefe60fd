/** The byte-at-a-time SBUS frame decoder, which resynchronises inside a rejected
    frame, proved to compute what a simple scanner computes from the whole stream. */
module Sbus {
  import opened Options
  import opened Bits
  import opened Counters
  import opened SbusPacking

  const START_BYTE: Byte := Byte(true, true, true, true, false, false, false, false)

  datatype SbusFrame = SbusFrame(values: seq<nat>, channelCount: nat, failsafe: bool, frameLost: bool)

  /** 0x00, 0x04, 0x14, 0x24 or 0x34. */
  predicate ValidEndByte(value: Byte)
  {
    || value == ZERO_BYTE
    || (value.b2 && !value.b0 && !value.b1 && !value.b3 && !value.b6 && !value.b7)
  }

  /** The framing bytes as numbers. */
  lemma FramingBytes(value: Byte)
    ensures value == START_BYTE <==> ByteValue(value) == 0x0f
    ensures ValidEndByte(value) <==> ByteValue(value) in {0x00, 0x04, 0x14, 0x24, 0x34}
  {
  }

  predicate FrameLost(frame: Frame) { frame[23].b2 }

  /** The pulse width of one channel. */
  function Channel(frame: Frame, c: nat): nat
    requires c < 16
  {
    RawToPwm(Number(RawChannel(frame, c)))
  }

  function DecodeFrame(frame: Frame): SbusFrame
  {
    SbusFrame(
      seq(16, c requires 0 <= c < 16 => Channel(frame, c)),
      16,
      frame[23].b3,
      FrameLost(frame))
  }

  /** The flags are bits 2 and 3 of byte 23. */
  lemma FlagBits(frame: Frame)
    ensures DecodeFrame(frame).frameLost <==> ByteValue(frame[23]) / 4 % 2 == 1
    ensures DecodeFrame(frame).failsafe <==> ByteValue(frame[23]) / 8 % 2 == 1
    ensures DecodeFrame(frame).channelCount == 16 == |DecodeFrame(frame).values|
  {
  }

  /** A pulse width is 5/8 of the raw value, rounded to nearest, plus 875. */
  predicate Rounds(pwm: nat, raw: nat) { -4 < 8 * pwm - 7000 - 5 * raw <= 4 }

  lemma Scaled(raw: nat)
    requires raw < 2048
    ensures Rounds(RawToPwm(raw), raw)
  {
    RawToPwmRounds(raw);
  }

  lemma ElevenBits(value: nat)
    requires value < 2048
    ensures Number(ToBits(value, 11)) == value
  {
    assert Pow2(3) == 8 && Pow2(7) == 128 && Pow2(11) == 2048;
    NumberOfBits(value, 11);
  }

  /** Packing sixteen values of 0..2047, lowest bit first, and decoding the frame scales each. */
  lemma DecodeOfPacked(frame: Frame, values: seq<nat>, c: nat)
    requires |values| == 16 && c < 16 && values[c] < 2048
    requires frame[1..23] == Pack(ChannelBits(values))
    ensures Rounds(DecodeFrame(frame).values[c], values[c])
  {
    DecodeInvertsPack(ChannelBits(values), frame);
    assert RawChannels(frame)[c] == RawChannel(frame, c) == ToBits(values[c], 11);
    ElevenBits(values[c]);
    Scaled(values[c]);
  }

  function ChannelBits(values: seq<nat>): (channels: seq<seq<bool>>)
    ensures |channels| == |values| && forall c :: 0 <= c < |values| ==>
              channels[c] == ToBits(values[c], 11) && |channels[c]| == 11
  {
    if values == [] then [] else ChannelBits(values[..|values| - 1]) + [ToBits(values[|values| - 1], 11)]
  }

  // ---------------------------------------------------------------------------
  // The scanner over a whole stream.
  // ---------------------------------------------------------------------------

  datatype ScanResult = ScanResult(frames: seq<Frame>, invalid: nat, rest: seq<Byte>)

  /** Skip to a start byte; with a whole frame available either emit it and advance
      25 bytes, or count one invalid frame and advance one byte. */
  function Scan(s: seq<Byte>): (r: ScanResult)
    ensures |r.rest| < 25 && (r.rest != [] ==> r.rest[0] == START_BYTE)
  {
    if s == [] then
      ScanResult([], 0, [])
    else if s[0] != START_BYTE then
      Scan(s[1..])
    else if |s| < 25 then
      ScanResult([], 0, s)
    else if ValidEndByte(s[24]) then
      var r := Scan(s[25..]);
      ScanResult([s[..25]] + r.frames, r.invalid, r.rest)
    else
      var r := Scan(s[1..]);
      ScanResult(r.frames, r.invalid + 1, r.rest)
  }

  /** What scanning has produced so far, followed by what `next` adds to it. */
  function Continue(r: ScanResult, next: ScanResult): ScanResult
  {
    ScanResult(r.frames + next.frames, r.invalid + next.invalid, next.rest)
  }

  /** Scanning can stop anywhere and resume from the retained bytes. */
  lemma {:induction false} ScanAppend(s: seq<Byte>, t: seq<Byte>)
    ensures Scan(s + t) == Continue(Scan(s), Scan(Scan(s).rest + t))
  {
    if s == [] {
      assert s + t == t;
    } else if s[0] != START_BYTE {
      assert (s + t)[1..] == s[1..] + t;
      ScanAppend(s[1..], t);
    } else if |s| < 25 {
    } else if ValidEndByte(s[24]) {
      assert (s + t)[25..] == s[25..] + t;
      assert (s + t)[..25] == s[..25];
      ScanAppend(s[25..], t);
    } else {
      assert (s + t)[1..] == s[1..] + t;
      ScanAppend(s[1..], t);
    }
  }

  /** The suffix of s that begins with its first start byte. */
  function SkipToStart(s: seq<Byte>): (r: seq<Byte>)
    ensures |r| <= |s| && (r != [] ==> r[0] == START_BYTE)
  {
    if s == [] || s[0] == START_BYTE then s else SkipToStart(s[1..])
  }

  lemma {:induction false} ScanShort(s: seq<Byte>)
    requires |s| < 25
    ensures Scan(s) == ScanResult([], 0, SkipToStart(s))
  {
    if s != [] && s[0] != START_BYTE {
      ScanShort(s[1..]);
    }
  }

  lemma {:induction false} SkipBy(s: seq<Byte>, n: nat)
    requires n <= |s| && (forall i :: 0 <= i < n ==> s[i] != START_BYTE)
    ensures SkipToStart(s) == SkipToStart(s[n..])
  {
    if n != 0 {
      SkipBy(s[1..], n - 1);
      assert s[1..][n - 1..] == s[n..];
    }
  }

  function LostCount(frames: seq<Frame>): nat
  {
    if frames == [] then 0
    else LostCount(frames[..|frames| - 1]) + if FrameLost(frames[|frames| - 1]) then 1 else 0
  }

  /** One more byte: the scanner skips, keeps, emits or rejects and resynchronises. */
  function Extend(r: ScanResult, byte: Byte): (r': ScanResult)
    requires |r.rest| < 25
    ensures |r'.rest| < 25
  {
    var whole := r.rest + [byte];
    if whole[0] != START_BYTE then r.(rest := [])
    else if |whole| < 25 then r.(rest := whole)
    else if ValidEndByte(byte) then ScanResult(r.frames + [whole], r.invalid, [])
    else ScanResult(r.frames, r.invalid + 1, SkipToStart(whole[1..]))
  }

  lemma ScanSnoc(s: seq<Byte>, byte: Byte)
    ensures Scan(s + [byte]) == Extend(Scan(s), byte)
  {
    var r := Scan(s);
    var whole := r.rest + [byte];
    ScanAppend(s, [byte]);
    if whole[0] != START_BYTE {
      assert whole[1..] == [];
    } else if |whole| == 25 {
      assert whole[..25] == whole && whole[24] == byte;
      if ValidEndByte(byte) {
        assert whole[25..] == [];
      } else {
        ScanShort(whole[1..]);
      }
    }
  }

  lemma LostCountSnoc(frames: seq<Frame>, frame: Frame)
    ensures LostCount(frames + [frame]) == LostCount(frames) + if FrameLost(frame) then 1 else 0
  {
    assert (frames + [frame])[..|frames|] == frames;
  }

  /** The frames in which bit 2 of byte 23 says that the receiver lost one. */
  ghost function LostAmong(frames: seq<Frame>): set<nat>
  {
    set k: nat | k < |frames| && ByteValue(frames[k][23]) / 4 % 2 == 1
  }

  lemma {:induction false} LostCounted(frames: seq<Frame>)
    ensures LostCount(frames) == |LostAmong(frames)|
  {
    if frames != [] {
      var n := |frames| - 1;
      LostCounted(frames[..n]);
      FlagBits(frames[n]);
      assert LostAmong(frames) == LostAmong(frames[..n]) + if FrameLost(frames[n]) then {n} else {};
    }
  }

  function DecodeAll(frames: seq<Frame>): seq<SbusFrame>
  {
    if frames == [] then [] else DecodeAll(frames[..|frames| - 1]) + [DecodeFrame(frames[|frames| - 1])]
  }

  lemma DecodeAllSnoc(frames: seq<Frame>, frame: Frame)
    ensures DecodeAll(frames + [frame]) == DecodeAll(frames) + [DecodeFrame(frame)]
  {
    assert (frames + [frame])[..|frames|] == frames;
  }

  lemma OneMore(history: seq<Byte>, bytes: seq<Byte>, i: nat)
    requires i < |bytes|
    ensures history + bytes[..i] + [bytes[i]] == history + bytes[..i + 1]
  {
  }

  class SbusDecoder {
    const buffer: array<Byte>
    var count: nat
    var totalFrames: nat
    var invalidFrames: nat
    var receiverLostFrames: nat
    /** What a scan of all bytes fed since the last reset yields. */
    ghost var scan: ScanResult

    /** The decoder retains and counts what the scan yields. */
    ghost predicate Valid()
      reads this, buffer
    {
      && buffer.Length == 25
      && count < 25
      && buffer[..count] == scan.rest
      && (scan.rest != [] ==> scan.rest[0] == START_BYTE)
      && Counted()
    }

    /** The counters are 32 bits wide. */
    ghost predicate Counted()
      reads this
    {
      && invalidFrames == Wrap(scan.invalid)
      && totalFrames == Wrap(|scan.frames|)
      && receiverLostFrames == Wrap(LostCount(scan.frames))
    }

    constructor ()
      ensures Valid() && fresh(buffer) && scan == Scan([])
    {
      buffer := new Byte[25](_ => ZERO_BYTE);
      count, totalFrames, invalidFrames, receiverLostFrames := 0, 0, 0, 0;
      scan := Scan([]);
    }

    method Reset()
      requires Valid()
      modifies this, buffer
      ensures Valid() && scan == Scan([])
    {
      forall i | 0 <= i < buffer.Length { buffer[i] := ZERO_BYTE; }
      count, totalFrames, invalidFrames, receiverLostFrames := 0, 0, 0, 0;
      scan := Scan([]);
    }

    /** One byte extends the scan, and a frame is emitted exactly when the scan gains one. */
    method Feed(byte: Byte) returns (frame: Option<SbusFrame>)
      requires Valid()
      modifies this, buffer
      ensures Valid() && scan == Extend(old(scan), byte)
      ensures frame.None? ==> scan.frames == old(scan.frames)
      ensures frame.Some? ==> var whole := old(scan.rest) + [byte];
                              |whole| == 25 && scan.frames == old(scan.frames) + [whole]
                                  && frame.value == DecodeFrame(whole)
    {
      if count == 0 {
        if byte != START_BYTE {
          return None;
        }
        buffer[0] := byte;
        count := 1;
        scan := scan.(rest := [byte]);
        return None;
      }
      buffer[count] := byte;
      count := count + 1;
      assert buffer[..count] == scan.rest + [byte];
      if count < 25 {
        scan := scan.(rest := scan.rest + [byte]);
        return None;
      }
      assert scan.rest == buffer[..24];
      frame := CompleteFrame();
    }

    /** One more byte of a stream. */
    method FeedNext(byte: Byte, ghost history: seq<Byte>) returns (more: seq<SbusFrame>)
      requires Valid() && scan == Scan(history)
      modifies this, buffer
      ensures Valid() && scan == Scan(history + [byte])
      ensures DecodeAll(scan.frames) == DecodeAll(old(scan.frames)) + more
    {
      ghost var emitted, whole := scan.frames, scan.rest + [byte];
      ScanSnoc(history, byte);
      var frame := Feed(byte);
      if frame.None? {
        return [];
      }
      DecodeAllSnoc(emitted, whole);
      more := [frame.value];
    }

    /** Any run of Feed calls, however the stream is cut into chunks: the decoder's state is
        the scan of the whole stream and the frames returned are the new ones, decoded. */
    method FeedAll(bytes: seq<Byte>, ghost history: seq<Byte>) returns (frames: seq<SbusFrame>)
      requires Valid() && scan == Scan(history)
      modifies this, buffer
      ensures Valid() && scan == Scan(history + bytes)
      ensures DecodeAll(scan.frames) == DecodeAll(old(scan.frames)) + frames
    {
      ghost var decoded := DecodeAll(scan.frames);
      frames := [];
      assert history + bytes[..0] == history;
      for i := 0 to |bytes|
        invariant Valid() && scan == Scan(history + bytes[..i])
        invariant DecodeAll(scan.frames) == decoded + frames
      {
        OneMore(history, bytes, i);
        var more := FeedNext(bytes[i], history + bytes[..i]);
        assert decoded + frames + more == decoded + (frames + more);
        frames := frames + more;
      }
      assert bytes[..|bytes|] == bytes;
    }

    /** With 25 bytes buffered: emits the frame, or rejects it and resynchronises. */
    method CompleteFrame() returns (frame: Option<SbusFrame>)
      requires buffer.Length == 25 == count && buffer[0] == START_BYTE
      requires Counted() && scan.rest == buffer[..24]
      modifies this, buffer
      ensures Valid() && scan == Extend(old(scan), old(buffer[24]))
      ensures frame.None? ==> scan.frames == old(scan.frames)
      ensures frame.Some? ==> var whole := old(buffer[..]);
                              scan.frames == old(scan.frames) + [whole] && frame.value == DecodeFrame(whole)
    {
      ghost var whole := buffer[..];
      assert whole == scan.rest + [buffer[24]];
      frame := Decode();
      if frame.None? {
        WrapNext(scan.invalid);
        invalidFrames := Increment(invalidFrames);
        assert buffer[1..] == whole[1..];
        RecoverAfterInvalidFrame();
        scan := ScanResult(scan.frames, scan.invalid + 1, SkipToStart(whole[1..]));
        return;
      }
      count := 0;
      WrapNext(|scan.frames|);
      totalFrames := Increment(totalFrames);
      LostCountSnoc(scan.frames, whole);
      WrapNext(LostCount(scan.frames));
      if frame.value.frameLost {
        receiverLostFrames := Increment(receiverLostFrames);
      }
      scan := ScanResult(scan.frames + [whole], scan.invalid, []);
    }

    method Decode() returns (frame: Option<SbusFrame>)
      requires buffer.Length == 25
      ensures frame == if buffer[0] == START_BYTE && ValidEndByte(buffer[24]) then Some(DecodeFrame(buffer[..]))
              else None
    {
      if buffer[0] != START_BYTE || !ValidEndByte(buffer[24]) {
        return None;
      }
      var values: seq<nat> := [];
      for channel := 0 to 16
        invariant |values| == channel
        invariant forall c :: 0 <= c < channel ==> values[c] == Channel(buffer[..], c)
      {
        var value := DecodeChannel(channel);
        values := values + [value];
      }
      frame := Some(SbusFrame(values, 16, buffer[23].b3, buffer[23].b2));
      assert values == DecodeFrame(buffer[..]).values;
    }

    /** Cuts eleven bits out of three neighbouring bytes and scales them. */
    method DecodeChannel(channel: nat) returns (value: nat)
      requires buffer.Length == 25 && channel < 16
      ensures value == Channel(buffer[..], channel)
    {
      var bitIndex := channel * 11;
      var byteIndex := 1 + bitIndex / 8;
      var packed := PackedWord(buffer[byteIndex], buffer[byteIndex + 1], buffer[byteIndex + 2]);
      var rawValue := packed[bitIndex % 8..][..11];
      assert rawValue == RawChannel(buffer[..], channel);
      value := RawToPwm(Number(rawValue));
    }

    /** Keeps what follows the next start byte inside the rejected frame. */
    method RecoverAfterInvalidFrame()
      requires buffer.Length == 25
      modifies this`count, buffer
      ensures count < 25
      ensures buffer[..count] == SkipToStart(old(buffer[1..]))
    {
      var nextStart := 1;
      while nextStart < 25 && buffer[nextStart] != START_BYTE
        invariant 1 <= nextStart <= 25
        invariant forall i :: 1 <= i < nextStart ==> buffer[i] != START_BYTE
      {
        nextStart := nextStart + 1;
      }
      SkipBy(buffer[1..], nextStart - 1);
      assert buffer[1..][nextStart - 1..] == buffer[nextStart..];
      count := 25 - nextStart;
      forall i | 0 <= i < count { buffer[i] := buffer[nextStart + i]; }
      assert buffer[..count] == old(buffer[nextStart..]);
    }
  }
}
