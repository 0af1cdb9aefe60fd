/** The payload checksum of a parameter page: the bitwise CRC loop equals the table-driven
    CRC of section 8 of RFC 1952, and every error burst of at most 32 bits changes it. */
module Crc32 {
  import opened Bits

  /** 0x20, 0x83, 0xb8 and 0xed: the polynomial 0xedb88320, lowest byte first. */
  const P0 := Byte(false, false, false, false, false, true, false, false)
  const P1 := Byte(true, true, false, false, false, false, false, true)
  const P2 := Byte(false, false, false, true, true, true, false, true)
  const P3 := Byte(true, false, true, true, false, true, true, true)

  const POLYNOMIAL: Word := P0.Bits() + P1.Bits() + P2.Bits() + P3.Bits()

  lemma PolynomialValue()
    ensures Number(POLYNOMIAL) == 0xedb88320
  {
    NumberWord(P0, P1, P2, P3);
  }

  function Shift(crc: Word): Word { crc[1..] + [false] }

  function StepBy(crc: Word, p: Word): Word
  {
    if crc[0] then Xor(Shift(crc), p) else Shift(crc)
  }

  /** One round of the inner loop. */
  function Step(crc: Word): Word { StepBy(crc, POLYNOMIAL) }

  function Steps(crc: Word, n: nat): Word
    decreases n
  {
    if n == 0 then crc else Steps(Step(crc), n - 1)
  }

  /** A string of at most 32 bits as a word. */
  function Widen(bits: seq<bool>): Word
    requires |bits| <= 32
  {
    bits + Zeros(32 - |bits|)
  }

  /** The register after one more byte. */
  function AddByte(crc: Word, b: Byte): Word { Steps(Xor(crc, Widen(b.Bits())), 8) }

  function Register(crc: Word, data: seq<Byte>): Word
    decreases data
  {
    if data == [] then crc else Register(AddByte(crc, data[0]), data[1..])
  }

  function Crc(data: seq<Byte>): Word { Not(Register(Ones(32), data)) }

  lemma {:induction false} RegisterSnoc(crc: Word, data: seq<Byte>, b: Byte)
    ensures Register(crc, data + [b]) == AddByte(Register(crc, data), b)
    decreases data
  {
    if data == [] {
      assert (data + [b])[1..] == [];
    } else {
      assert (data + [b])[1..] == data[1..] + [b];
      RegisterSnoc(AddByte(crc, data[0]), data[1..], b);
    }
  }

  lemma {:induction false} StepsAdd(crc: Word, m: nat, n: nat)
    ensures Steps(crc, m + n) == Steps(Steps(crc, m), n)
    decreases m
  {
    if m != 0 {
      StepsAdd(Step(crc), m - 1, n);
    }
  }

  /** The inner loop: the mask is the negated low bit, so all ones or all zeros. */
  method AddByteLoop(crc0: Word, b: Byte) returns (crc: Word)
    ensures crc == AddByte(crc0, b)
  {
    crc := Xor(crc0, Widen(b.Bits()));
    ghost var start := crc;
    for bit := 0 to 8
      invariant crc == Steps(start, bit)
    {
      StepsAdd(start, bit, 1);
      assert Steps(crc, 1) == Step(crc);
      var mask := if crc[0] then Ones(32) else Zeros(32);
      MaskedXor(crc, mask);
      crc := Xor(Shift(crc), And(POLYNOMIAL, mask));
    }
  }

  function And(a: Word, b: Word): Word
  {
    seq(32, i requires 0 <= i < 32 => a[i] && b[i])
  }

  lemma MaskedXor(crc: Word, mask: Word)
    requires mask == if crc[0] then Ones(32) else Zeros(32)
    ensures Xor(Shift(crc), And(POLYNOMIAL, mask)) == Step(crc)
  {
    if crc[0] {
      assert And(POLYNOMIAL, mask) == POLYNOMIAL;
    } else {
      assert And(POLYNOMIAL, mask) == Zeros(32);
      XorZeros(Shift(crc));
    }
  }

  lemma XorZeros(a: Word)
    ensures Xor(a, Zeros(32)) == a
  {
  }

  /** The loop over the payload. */
  method ComputeCrc(data: seq<Byte>) returns (crc: Word)
    ensures crc == Crc(data)
  {
    crc := Ones(32);
    for index := 0 to |data|
      invariant crc == Register(Ones(32), data[..index])
    {
      RegisterSnoc(Ones(32), data[..index], data[index]);
      assert data[..index + 1] == data[..index] + [data[index]];
      crc := AddByteLoop(crc, data[index]);
    }
    assert data[..|data|] == data;
    crc := Not(crc);
  }

  // ---------------------------------------------------------------------------
  // The table-driven form.
  // ---------------------------------------------------------------------------

  /** Entry n of the table. */
  function TableEntry(n: Byte): Word { Steps(Widen(n.Bits()), 8) }

  function TableUpdate(crc: Word, data: seq<Byte>): Word
    decreases data
  {
    if data == [] then crc
    else
      var index := ByteOf(Xor(crc, Widen(data[0].Bits()))[..8]);
      TableUpdate(Xor(TableEntry(index), crc[8..] + Zeros(8)), data[1..])
  }

  lemma StepLinear(a: Word, b: Word)
    ensures Step(Xor(a, b)) == Xor(Step(a), Step(b))
  {
    StepByLinear(a, b, POLYNOMIAL);
  }

  lemma StepByLinear(a: Word, b: Word, p: Word)
    ensures StepBy(Xor(a, b), p) == Xor(StepBy(a, p), StepBy(b, p))
  {
    assert Shift(Xor(a, b)) == Xor(Shift(a), Shift(b));
    XorCancels(Shift(a), Shift(b), p);
  }

  lemma XorCancels(a: Word, b: Word, p: Word)
    ensures Xor(Xor(a, p), Xor(b, p)) == Xor(a, b)
    ensures Xor(Xor(a, b), p) == Xor(Xor(a, p), b) == Xor(a, Xor(b, p))
  {
  }

  lemma {:induction false} StepsLinear(a: Word, b: Word, n: nat)
    ensures Steps(Xor(a, b), n) == Xor(Steps(a, n), Steps(b, n))
    decreases n
  {
    if n != 0 {
      StepLinear(a, b);
      StepsLinear(Step(a), Step(b), n - 1);
    }
  }

  lemma {:induction false} StepsOfZeros(h: Word, n: nat)
    requires n <= 32 && h[..n] == Zeros(n)
    ensures Steps(h, n) == h[n..] + Zeros(n)
    decreases n
  {
    if n != 0 {
      assert h[0] == h[..n][0] == false;
      var s := Shift(h);
      assert s[..n - 1] == Zeros(n - 1) by {
        assert forall i :: 0 <= i < n - 1 ==> s[i] == h[..n][i + 1];
      }
      StepsOfZeros(s, n - 1);
      assert s[n - 1..] + Zeros(n - 1) == h[n..] + Zeros(n);
    }
  }

  lemma TableStep(crc: Word, b: Byte)
    ensures var index := ByteOf(Xor(crc, Widen(b.Bits()))[..8]);
            AddByte(crc, b) == Xor(TableEntry(index), crc[8..] + Zeros(8))
  {
    var x := Xor(crc, Widen(b.Bits()));
    var low := Widen(x[..8]);
    var high: Word := Zeros(8) + x[8..];
    assert x == Xor(low, high);
    StepsLinear(low, high, 8);
    StepsOfZeros(high, 8);
    assert high[8..] == crc[8..];
  }

  lemma {:induction false} TableDriven(crc: Word, data: seq<Byte>)
    ensures TableUpdate(crc, data) == Register(crc, data)
    decreases data
  {
    if data != [] {
      TableStep(crc, data[0]);
      TableDriven(AddByte(crc, data[0]), data[1..]);
    }
  }

  /** The loop computes the CRC of RFC 1952. */
  lemma CrcIsTableDriven(data: seq<Byte>)
    ensures Crc(data) == Not(TableUpdate(Ones(32), data))
  {
    TableDriven(Ones(32), data);
  }

  // ---------------------------------------------------------------------------
  // Error detection.
  // ---------------------------------------------------------------------------

  /** The top bit of the polynomial keeps the bit that is shifted out. */
  lemma StepInjective(a: Word, b: Word)
    requires Step(a) == Step(b)
    ensures a == b
  {
    StepByInjective(a, b, POLYNOMIAL);
  }

  lemma StepByInjective(a: Word, b: Word, p: Word)
    requires p[31] && StepBy(a, p) == StepBy(b, p)
    ensures a == b
  {
    assert StepBy(a, p)[31] == a[0] && StepBy(b, p)[31] == b[0];
    forall i | 0 < i < 32
      ensures a[i] == b[i]
    {
      assert StepBy(a, p)[i - 1] == (a[i] != (a[0] && p[i - 1]));
      assert StepBy(b, p)[i - 1] == (b[i] != (b[0] && p[i - 1]));
    }
  }

  lemma {:induction false} StepsInjective(a: Word, b: Word, n: nat)
    requires Steps(a, n) == Steps(b, n)
    ensures a == b
    decreases n
  {
    if n != 0 {
      StepsInjective(Step(a), Step(b), n - 1);
      StepInjective(a, b);
    }
  }

  lemma XorInjective(a: Word, b: Word, d: Word)
    ensures Xor(a, d) == Xor(b, d) ==> a == b
    ensures Xor(d, a) == Xor(d, b) ==> a == b
  {
    XorSelf(d, a);
    XorSelf(d, b);
    assert Xor(a, d) == Xor(d, a) && Xor(b, d) == Xor(d, b);
  }

  /** Each byte step loses nothing of the register: a difference never disappears by itself. */
  lemma {:induction false} RegisterInjective(a: Word, b: Word, data: seq<Byte>)
    requires Register(a, data) == Register(b, data)
    ensures a == b
    decreases data
  {
    if data != [] {
      var d := Widen(data[0].Bits());
      RegisterInjective(AddByte(a, data[0]), AddByte(b, data[0]), data[1..]);
      StepsInjective(Xor(a, d), Xor(b, d), 8);
      XorInjective(a, b, d);
    }
  }

  /** The message as one bit string. */
  function BitString(data: seq<Byte>): (bits: seq<bool>)
    ensures |bits| == 8 * |data|
  {
    if data == [] then [] else data[0].Bits() + BitString(data[1..])
  }

  /** The register of a bit-serial CRC. */
  function Serial(crc: Word, bits: seq<bool>): Word
    decreases bits
  {
    if bits == [] then crc else Serial(Step(Xor(crc, Widen([bits[0]]))), bits[1..])
  }

  lemma {:induction false} SerialAppend(crc: Word, a: seq<bool>, b: seq<bool>)
    ensures Serial(crc, a + b) == Serial(Serial(crc, a), b)
    decreases a
  {
    if a == [] {
      assert a + b == b;
    } else {
      assert (a + b)[1..] == a[1..] + b;
      SerialAppend(Step(Xor(crc, Widen([a[0]]))), a[1..], b);
    }
  }

  /** Consuming up to 32 bits one by one is consuming them all at once. */
  lemma {:induction false} SerialWindow(crc: Word, bits: seq<bool>)
    requires |bits| <= 32
    ensures Serial(crc, bits) == Steps(Xor(crc, Widen(bits)), |bits|)
    decreases bits
  {
    if bits == [] {
      assert Widen(bits) == Zeros(32);
      XorZeros(crc);
    } else {
      var first, tail := Widen([bits[0]]), Widen(bits[1..]);
      var c := Xor(crc, first);
      SerialWindow(Step(c), bits[1..]);
      var moved: Word := [false] + tail[..31];
      assert Shift(moved) == tail;
      StepLinear(c, moved);
      assert Widen(bits) == Xor(first, moved);
      XorCancels(crc, first, moved);
    }
  }

  /** The byte-wise register is the bit-serial one. */
  lemma {:induction false} RegisterIsSerial(crc: Word, data: seq<Byte>)
    ensures Register(crc, data) == Serial(crc, BitString(data))
    decreases data
  {
    if data != [] {
      SerialWindow(crc, data[0].Bits());
      SerialAppend(crc, data[0].Bits(), BitString(data[1..]));
      RegisterIsSerial(AddByte(crc, data[0]), data[1..]);
    }
  }

  lemma {:induction false} SerialInjective(a: Word, b: Word, bits: seq<bool>)
    requires Serial(a, bits) == Serial(b, bits)
    ensures a == b
    decreases bits
  {
    if bits != [] {
      var d := Widen([bits[0]]);
      SerialInjective(Step(Xor(a, d)), Step(Xor(b, d)), bits[1..]);
      StepInjective(Xor(a, d), Xor(b, d));
      XorInjective(a, b, d);
    }
  }

  lemma WindowInjective(r: Word, a: seq<bool>, b: seq<bool>, rest: seq<bool>)
    requires |a| == |b| <= 32
    requires Serial(r, a + rest) == Serial(r, b + rest)
    ensures a == b
  {
    SerialAppend(r, a, rest);
    SerialAppend(r, b, rest);
    SerialInjective(Serial(r, a), Serial(r, b), rest);
    SerialWindow(r, a);
    SerialWindow(r, b);
    StepsInjective(Xor(r, Widen(a)), Xor(r, Widen(b)), |a|);
    XorInjective(Widen(a), Widen(b), r);
    assert Widen(a)[..|a|] == a && Widen(b)[..|b|] == b;
  }

  /** Two messages of the same length that differ somewhere, but only inside one window
      of at most 32 consecutive bits, never have the same CRC. */
  lemma BurstDetected(a: seq<Byte>, b: seq<Byte>, from: nat, length: nat)
    requires |a| == |b| && length <= 32 && from + length <= 8 * |a|
    requires BitString(a)[..from] == BitString(b)[..from]
    requires BitString(a)[from + length..] == BitString(b)[from + length..]
    requires a != b
    ensures Crc(a) != Crc(b)
  {
    var front, rest := BitString(a)[..from], BitString(a)[from + length..];
    var wa, wb := BitString(a)[from..from + length], BitString(b)[from..from + length];
    assert BitString(a) == front + (wa + rest);
    assert BitString(b) == front + (wb + rest);
    if Crc(a) == Crc(b) {
      SameCrc(a, b, front, wa + rest, wb + rest);
      WindowInjective(Serial(Ones(32), front), wa, wb, rest);
      BitStringInjective(a, b);
    }
  }

  lemma SameCrc(a: seq<Byte>, b: seq<Byte>, front: seq<bool>, x: seq<bool>, y: seq<bool>)
    requires Crc(a) == Crc(b) && BitString(a) == front + x && BitString(b) == front + y
    ensures Serial(Serial(Ones(32), front), x) == Serial(Serial(Ones(32), front), y)
  {
    SerialAppend(Ones(32), front, x);
    SerialAppend(Ones(32), front, y);
    RegisterIsSerial(Ones(32), a);
    RegisterIsSerial(Ones(32), b);
    NotNot(Register(Ones(32), a));
    NotNot(Register(Ones(32), b));
  }

  lemma {:induction false} BitStringAppend(a: seq<Byte>, b: seq<Byte>)
    ensures BitString(a + b) == BitString(a) + BitString(b)
  {
    if a == [] {
      assert a + b == b;
    } else {
      assert (a + b)[1..] == a[1..] + b;
      BitStringAppend(a[1..], b);
    }
  }

  lemma {:induction false} BitStringInjective(a: seq<Byte>, b: seq<Byte>)
    requires |a| == |b| && BitString(a) == BitString(b)
    ensures a == b
  {
    if a != [] {
      assert BitString(a)[..8] == a[0].Bits() && BitString(b)[..8] == b[0].Bits();
      assert BitString(a)[8..] == BitString(a[1..]) && BitString(b)[8..] == BitString(b[1..]);
      assert a[0] == ByteOf(a[0].Bits()) && b[0] == ByteOf(b[0].Bits());
      BitStringInjective(a[1..], b[1..]);
      assert a == [a[0]] + a[1..] && b == [b[0]] + b[1..];
    }
  }

  /** In bytes: replacing up to four consecutive bytes by others is always detected. */
  lemma ByteBurstDetected(before: seq<Byte>, a: seq<Byte>, b: seq<Byte>, after: seq<Byte>)
    requires |a| == |b| <= 4 && a != b
    ensures Crc(before + a + after) != Crc(before + b + after)
  {
    var x, y := before + a + after, before + b + after;
    BitStringAppend(before + a, after);
    BitStringAppend(before + b, after);
    BitStringAppend(before, a);
    BitStringAppend(before, b);
    var n, m := |BitString(before)|, |BitString(a)|;
    assert BitString(x)[..n] == BitString(before) == BitString(y)[..n];
    assert BitString(x)[n + m..] == BitString(after) == BitString(y)[n + m..];
    assert BitString(x)[n..n + m] == BitString(a) && BitString(y)[n..n + m] == BitString(b);
    if x == y {
      BitStringInjective(a, b);
    }
    BurstDetected(x, y, n, m);
  }
}
