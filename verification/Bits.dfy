/** Machine words as their bits, lowest first: `x >> k` drops k bits, a mask keeps a prefix,
    little-endian concatenation is `+`. */
module Bits {

  /** A byte, bit 0 first. */
  datatype Byte = Byte(b0: bool, b1: bool, b2: bool, b3: bool, b4: bool, b5: bool, b6: bool, b7: bool) {
    function Bits(): (bits: seq<bool>)
      ensures |bits| == 8
    {
      [b0, b1, b2, b3, b4, b5, b6, b7]
    }
  }

  function ByteOf(bits: seq<bool>): (b: Byte)
    requires |bits| == 8
    ensures b.Bits() == bits
  {
    Byte(bits[0], bits[1], bits[2], bits[3], bits[4], bits[5], bits[6], bits[7])
  }

  const ZERO_BYTE := Byte(false, false, false, false, false, false, false, false)

  type Word = w: seq<bool> | |w| == 32 witness seq(32, _ => false)

  function Pow2(n: nat): (p: nat)
    ensures p >= 1
  {
    if n == 0 then 1 else 2 * Pow2(n - 1)
  }

  function Number(bits: seq<bool>): nat
  {
    if bits == [] then 0 else BitValue(bits[0]) + 2 * Number(bits[1..])
  }

  function ToBits(n: nat, width: nat): (bits: seq<bool>)
    ensures |bits| == width
  {
    if width == 0 then [] else [n % 2 == 1] + ToBits(n / 2, width - 1)
  }

  lemma {:induction false} NumberOfBits(n: nat, width: nat)
    requires n < Pow2(width)
    ensures Number(ToBits(n, width)) == n
  {
    if width != 0 {
      NumberOfBits(n / 2, width - 1);
    }
  }

  lemma {:induction false} BitsOfNumber(bits: seq<bool>)
    ensures ToBits(Number(bits), |bits|) == bits
  {
    if bits != [] {
      BitsOfNumber(bits[1..]);
      var n := Number(bits);
      assert n / 2 == Number(bits[1..]);
      assert bits == [bits[0]] + bits[1..];
    }
  }

  lemma {:induction false} NumberBound(bits: seq<bool>)
    ensures Number(bits) < Pow2(|bits|)
  {
    if bits != [] {
      NumberBound(bits[1..]);
    }
  }

  function BitValue(b: bool): nat { if b then 1 else 0 }

  function ByteValue(b: Byte): nat
  {
    BitValue(b.b0) + 2 * BitValue(b.b1) + 4 * BitValue(b.b2) + 8 * BitValue(b.b3)
    + 16 * BitValue(b.b4) + 32 * BitValue(b.b5) + 64 * BitValue(b.b6) + 128 * BitValue(b.b7)
  }

  lemma NumberTwo(bits: seq<bool>)
    requires |bits| >= 2
    ensures Number(bits) == BitValue(bits[0]) + 2 * BitValue(bits[1]) + 4 * Number(bits[2..])
  {
    assert bits[1..][1..] == bits[2..];
  }

  lemma NumberFour(bits: seq<bool>)
    requires |bits| >= 4
    ensures Number(bits) ==
            BitValue(bits[0]) + 2 * BitValue(bits[1]) + 4 * BitValue(bits[2]) + 8 * BitValue(bits[3])
            + 16 * Number(bits[4..])
  {
    NumberTwo(bits);
    NumberTwo(bits[2..]);
    assert bits[2..][2..] == bits[4..];
  }

  /** The low byte of a number. */
  lemma NumberByte(b: Byte, rest: seq<bool>)
    ensures Number(b.Bits() + rest) == ByteValue(b) + 256 * Number(rest)
  {
    var whole := b.Bits() + rest;
    NumberFour(whole);
    NumberFour(whole[4..]);
    assert whole[4..][4..] == rest;
    var tail := whole[4..];
    assert whole[0] == b.b0 && whole[1] == b.b1 && whole[2] == b.b2 && whole[3] == b.b3;
    assert tail[0] == b.b4 && tail[1] == b.b5 && tail[2] == b.b6 && tail[3] == b.b7;
  }

  lemma NumberWord(b0: Byte, b1: Byte, b2: Byte, b3: Byte)
    ensures Number(b0.Bits() + b1.Bits() + b2.Bits() + b3.Bits()) ==
            ByteValue(b0) + 0x100 * ByteValue(b1) + 0x10000 * ByteValue(b2) + 0x1000000 * ByteValue(b3)
  {
    var r3 := b3.Bits() + [];
    var r2 := b2.Bits() + r3;
    var r1 := b1.Bits() + r2;
    NumberByte(b3, []);
    NumberByte(b2, r3);
    NumberByte(b1, r2);
    NumberByte(b0, r1);
    assert b0.Bits() + b1.Bits() + b2.Bits() + b3.Bits() == b0.Bits() + r1;
  }

  function Zeros(n: nat): (z: seq<bool>)
    ensures |z| == n
  {
    seq(n, _ => false)
  }

  function Ones(n: nat): (z: seq<bool>)
    ensures |z| == n
  {
    seq(n, _ => true)
  }

  function Xor(a: seq<bool>, b: seq<bool>): (x: seq<bool>)
    requires |a| == |b|
    ensures |x| == |a|
  {
    seq(|a|, i requires 0 <= i < |a| => a[i] != b[i])
  }

  function Not(a: seq<bool>): (x: seq<bool>)
    ensures |x| == |a|
  {
    seq(|a|, i requires 0 <= i < |a| => !a[i])
  }

  lemma XorSelf(a: seq<bool>, b: seq<bool>)
    requires |a| == |b|
    ensures Xor(a, Xor(a, b)) == b
  {
  }

  /** As numbers, a word and its complement add up to all ones. */
  lemma {:induction false} NotNumber(a: seq<bool>)
    ensures Number(a) + Number(Not(a)) + 1 == Pow2(|a|)
  {
    if a != [] {
      NotNumber(a[1..]);
      assert Not(a)[1..] == Not(a[1..]);
    }
  }

  lemma NotNot(a: seq<bool>)
    ensures Not(Not(a)) == a
  {
  }
}
