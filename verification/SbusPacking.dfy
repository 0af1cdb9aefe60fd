/** The payload of an SBUS frame: sixteen 11-bit channels packed LSB first into the
    22 bytes 1..22 of a 25-byte frame. */
module SbusPacking {

  import opened Bits

  type Frame = f: seq<Byte> | |f| == 25 witness seq(25, _ => ZERO_BYTE)

  /** Index of the first of the three bytes the decoder combines for a channel. */
  function ByteIndex(channel: nat): nat { 1 + channel * 11 / 8 }

  /** The three bytes as one little-endian word; the last channel reads the flags byte too. */
  function PackedWord(b0: Byte, b1: Byte, b2: Byte): (word: seq<bool>)
    ensures |word| == 24
  {
    b0.Bits() + b1.Bits() + b2.Bits()
  }

  /** The 11 bits that the decoder extracts for one channel. */
  function RawChannel(frame: Frame, channel: nat): (raw: seq<bool>)
    requires channel < 16
    ensures |raw| == 11
  {
    var i := ByteIndex(channel);
    PackedWord(frame[i], frame[i + 1], frame[i + 2])[channel * 11 % 8..][..11]
  }

  function RawChannels(frame: Frame): (raw: seq<seq<bool>>)
    ensures |raw| == 16
  {
    seq(16, c requires 0 <= c < 16 => RawChannel(frame, c))
  }

  /** The scaling 5/8, rounded to nearest, that maps 0..2047 to 875..2154. */
  function RawToPwm(raw: nat): nat { (raw * 5 + 4) / 8 + 875 }

  lemma RawToPwmRounds(raw: nat)
    requires raw < 2048
    ensures -4 < 8 * (RawToPwm(raw) - 875) - 5 * raw <= 4
    ensures 875 <= RawToPwm(raw) <= 2154
  {
  }

  // ---------------------------------------------------------------------------
  // The reference: bit i of the stream is bit i % 11 of channel i / 11, and it is
  // bit i % 8 of payload byte i / 8.
  // ---------------------------------------------------------------------------

  ghost predicate ElevenBit(channels: seq<seq<bool>>)
  {
    |channels| == 16 && forall c :: 0 <= c < 16 ==> |channels[c]| == 11
  }

  function StreamBit(channels: seq<seq<bool>>, i: nat): bool
    requires ElevenBit(channels) && i < 176
  {
    channels[i / 11][i % 11]
  }

  function PackByte(channels: seq<seq<bool>>, j: nat): Byte
    requires ElevenBit(channels) && j < 22
  {
    ByteOf(seq(8, k requires 0 <= k < 8 => StreamBit(channels, 8 * j + k)))
  }

  /** The payload that carries the given channels. */
  function Pack(channels: seq<seq<bool>>): (payload: seq<Byte>)
    requires ElevenBit(channels)
    ensures |payload| == 22
  {
    seq(22, j requires 0 <= j < 22 => PackByte(channels, j))
  }

  /** Each decoded bit is the payload bit of the same position in the stream. */
  lemma DecodedBit(frame: Frame, channel: nat, k: nat, j: nat, m: nat)
    requires channel < 16 && k < 11 && j < 22 && m < 8
    requires 11 * channel + k == 8 * j + m
    ensures RawChannel(frame, channel)[k] == frame[1 + j].Bits()[m]
  {
    var q, off := BytePosition(channel * 11);
    var b0, b1, b2 := frame[1 + q], frame[2 + q], frame[3 + q];
    assert RawChannel(frame, channel) == PackedWord(b0, b1, b2)[off..][..11];
    WordBit(b0, b1, b2, off, k);
    if j == q {
      assert off + k == m;
    } else if j == q + 1 {
      assert off + k - 8 == m;
    } else {
      assert j == q + 2 && off + k - 16 == m;
    }
  }

  lemma WordBit(b0: Byte, b1: Byte, b2: Byte, off: nat, k: nat)
    requires off < 8 && k < 11
    ensures PackedWord(b0, b1, b2)[off..][..11][k] ==
            if off + k < 8 then b0.Bits()[off + k] else if off + k < 16 then b1.Bits()[off + k - 8]
                else b2.Bits()[off + k - 16]
  {
  }

  /** Each packed bit is the channel bit of the same position in the stream. */
  lemma PackedBit(channels: seq<seq<bool>>, j: nat, m: nat, channel: nat, k: nat)
    requires ElevenBit(channels) && channel < 16 && k < 11 && j < 22 && m < 8
    requires 11 * channel + k == 8 * j + m
    ensures Pack(channels)[j].Bits()[m] == channels[channel][k]
  {
    DivMod11(channel, k);
    assert Pack(channels)[j].Bits()[m] == StreamBit(channels, 8 * j + m);
  }

  lemma DivMod11(q: nat, r: nat)
    requires r < 11
    ensures (11 * q + r) / 11 == q && (11 * q + r) % 11 == r
  {
  }

  /** Decoding inverts packing, whatever the bytes around the payload hold. */
  lemma DecodeInvertsPack(channels: seq<seq<bool>>, frame: Frame)
    requires ElevenBit(channels)
    requires frame[1..23] == Pack(channels)
    ensures RawChannels(frame) == channels
  {
    forall c | 0 <= c < 16
      ensures RawChannel(frame, c) == channels[c]
    {
      forall k | 0 <= k < 11
        ensures RawChannel(frame, c)[k] == channels[c][k]
      {
        var j, m := BytePosition(11 * c + k);
        DecodedBit(frame, c, k, j, m);
        PackedBit(channels, j, m, c, k);
        assert frame[1 + j] == frame[1..23][j];
      }
    }
  }

  lemma BytePosition(i: nat) returns (j: nat, m: nat)
    requires i < 176
    ensures i == 8 * j + m && m < 8 && j < 22
    ensures j == i / 8 && m == i % 8
  {
    j, m := i / 8, i % 8;
  }

  lemma ChannelPosition(i: nat) returns (c: nat, k: nat)
    requires i < 176
    ensures i == 11 * c + k && k < 11 && c < 16
  {
    c, k := i / 11, i % 11;
  }

  /** Packing inverts decoding: the channels determine all 22 payload bytes. */
  lemma PackInvertsDecode(frame: Frame)
    ensures Pack(RawChannels(frame)) == frame[1..23]
  {
    forall j | 0 <= j < 22
      ensures Pack(RawChannels(frame))[j] == frame[1 + j]
    {
      PackedByteDecodes(frame, j);
    }
  }

  lemma PackedByteDecodes(frame: Frame, j: nat)
    requires j < 22
    ensures Pack(RawChannels(frame))[j] == frame[1 + j]
  {
    var channels := RawChannels(frame);
    var b, b' := Pack(channels)[j], frame[1 + j];
    forall m | 0 <= m < 8
      ensures b.Bits()[m] == b'.Bits()[m]
    {
      var c, k := ChannelPosition(8 * j + m);
      PackedBit(channels, j, m, c, k);
      DecodedBit(frame, c, k, j, m);
    }
    assert b.Bits() == b'.Bits();
    assert b == ByteOf(b.Bits()) && b' == ByteOf(b'.Bits());
  }

  /** The channels depend on exactly the payload, although byte 23 is read for the last one. */
  lemma ChannelsDependOnPayload(a: Frame, b: Frame)
    ensures RawChannels(a) == RawChannels(b) <==> a[1..23] == b[1..23]
  {
    PackInvertsDecode(a);
    PackInvertsDecode(b);
    if a[1..23] == b[1..23] {
      DecodeInvertsPack(RawChannels(a), b);
    }
  }
}
