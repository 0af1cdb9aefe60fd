/** The checksum in numbers, as the sample code in section 8 of RFC 1952 computes it: a table, and
    one look-up a byte. */
module Crc32Numbers {
  import opened Bits
  import opened Crc32

  /** Exclusive or of two numbers. */
  function XorN(a: nat, b: nat): nat
    decreases a + b
  {
    if a == 0 && b == 0 then 0 else (if a % 2 != b % 2 then 1 else 0) + 2 * XorN(a / 2, b / 2)
  }

  /** k rounds for an entry of the table. */
  function Rounds(c: nat, k: nat): nat
    decreases k
  {
    if k == 0 then c else Rounds(if c % 2 == 1 then XorN(0xedb88320, c / 2) else c / 2, k - 1)
  }

  function Update(c: nat, data: seq<Byte>): nat
    decreases data
  {
    if data == [] then c
    else Update(XorN(Rounds(XorN(c, ByteValue(data[0])) % 256, 8), c / 256), data[1..])
  }

  lemma {:induction false} NumberXor(a: seq<bool>, b: seq<bool>)
    requires |a| == |b|
    ensures Number(Xor(a, b)) == XorN(Number(a), Number(b))
  {
    if a != [] {
      NumberXor(a[1..], b[1..]);
      assert Xor(a, b)[1..] == Xor(a[1..], b[1..]);
      assert Number(a) / 2 == Number(a[1..]) && Number(b) / 2 == Number(b[1..]);
    }
  }

  lemma {:induction false} NumberPadded(bits: seq<bool>, n: nat)
    ensures Number(bits + Zeros(n)) == Number(bits)
    decreases bits, n
  {
    if bits != [] {
      NumberPadded(bits[1..], n);
      assert (bits + Zeros(n))[1..] == bits[1..] + Zeros(n);
    } else if n != 0 {
      NumberPadded([], n - 1);
      assert ([] + Zeros(n))[1..] == [] + Zeros(n - 1);
    }
  }

  lemma NumberStep(crc: Word)
    ensures Number(Step(crc)) == Rounds(Number(crc), 1)
  {
    assert Shift(crc) == crc[1..] + Zeros(1);
    NumberPadded(crc[1..], 1);
    assert Number(crc) / 2 == Number(crc[1..]);
    PolynomialValue();
    XorComm(Shift(crc), POLYNOMIAL);
    NumberXor(POLYNOMIAL, Shift(crc));
    assert Rounds(Number(Step(crc)), 0) == Number(Step(crc));
  }

  lemma XorComm(a: Word, b: Word)
    ensures Xor(a, b) == Xor(b, a)
  {
  }

  lemma {:induction false} NumberSteps(crc: Word, k: nat)
    ensures Number(Steps(crc, k)) == Rounds(Number(crc), k)
    decreases k
  {
    if k != 0 {
      NumberStep(crc);
      NumberSteps(Step(crc), k - 1);
      assert Rounds(Number(Step(crc)), 0) == Number(Step(crc));
    }
  }

  lemma LowByte(x: Word)
    ensures ByteValue(ByteOf(x[..8])) == Number(x) % 256 && Number(x[8..] + Zeros(8)) == Number(x) / 256
  {
    assert x == ByteOf(x[..8]).Bits() + x[8..];
    NumberByte(ByteOf(x[..8]), x[8..]);
    NumberPadded(x[8..], 8);
  }

  lemma NumberWide(b: Byte)
    ensures Number(Widen(b.Bits())) == ByteValue(b)
  {
    NumberByte(b, []);
    assert b.Bits() + [] == b.Bits();
    NumberPadded(b.Bits(), 24);
  }

  lemma {:induction false} NumberUpdate(crc: Word, data: seq<Byte>)
    ensures Number(TableUpdate(crc, data)) == Update(Number(crc), data)
    decreases data
  {
    if data != [] {
      var x := Xor(crc, Widen(data[0].Bits()));
      var index := ByteOf(x[..8]);
      NumberWide(data[0]);
      NumberXor(crc, Widen(data[0].Bits()));
      LowByte(x);
      LowByte(crc);
      NumberWide(index);
      NumberSteps(Widen(index.Bits()), 8);
      NumberXor(TableEntry(index), crc[8..] + Zeros(8));
      NumberUpdate(Xor(TableEntry(index), crc[8..] + Zeros(8)), data[1..]);
    }
  }

  lemma {:induction false} NumberOnes(n: nat)
    ensures Number(Ones(n)) + 1 == Pow2(n)
  {
    if n != 0 {
      NumberOnes(n - 1);
      assert Ones(n)[1..] == Ones(n - 1);
    }
  }

  lemma AllOnes()
    ensures Number(Ones(32)) == 0xffff_ffff
  {
    NumberOnes(32);
    assert Pow2(8) == 256;
    assert Pow2(16) == 0x10000;
    assert Pow2(24) == 0x1000000;
    assert Pow2(32) == 0x1_0000_0000;
  }

  lemma NumberNot(a: Word)
    ensures Number(Not(a)) == XorN(Number(a), Number(Ones(32)))
  {
    assert Not(a) == Xor(a, Ones(32));
    NumberXor(a, Ones(32));
  }

  /** The checksum of every payload is the one the RFC computes: begun with all ones and complemented
      at the end. */
  lemma CrcInNumbers(data: seq<Byte>)
    ensures Number(Crc(data)) == XorN(Update(0xffff_ffff, data), 0xffff_ffff)
  {
    CrcIsTableDriven(data);
    AllOnes();
    NumberUpdate(Ones(32), data);
    NumberNot(TableUpdate(Ones(32), data));
  }
}
