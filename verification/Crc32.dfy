/** The CRC-32 of zlib: a table of 256 remainders against dividing the whole message
    one bit at a time. */
module Crc32 {
  import opened Bytes

  /** A `u32` by its bits, the lowest first. */
  type Word = w: seq<bool> | |w| == 32 witness Zeros(32)

  function Bits(n: nat, count: nat): (bits: seq<bool>)
    ensures |bits| == count
  {
    if count == 0 then [] else [n % 2 == 1] + Bits(n / 2, count - 1)
  }

  function Number(bits: seq<bool>): nat {
    if bits == [] then 0 else (if bits[0] then 1 else 0) + 2 * Number(bits[1..])
  }

  function Ones(n: nat): (bits: seq<bool>)
    ensures |bits| == n && forall i :: 0 <= i < n ==> bits[i]
  {
    seq(n, _ => true)
  }

  function Pad(bits: seq<bool>): Word
    requires |bits| <= 32
  {
    bits + Zeros(32 - |bits|)
  }

  function Xor(a: Word, b: Word): Word {
    seq(32, i requires 0 <= i < 32 => a[i] != b[i])
  }

  // The bits of a word and of a byte.
  const WIDTH: nat := 32
  const BYTE: nat := 8
  const POLYNOMIAL: Word := Bits(0xEDB8_8320, WIDTH)
  const ONES: Word := Ones(32)

  // ----- division one bit at a time -----

  function ShiftRight(r: Word, n: nat): Word
    requires n <= 32
  {
    r[n..] + Zeros(n)
  }

  /** One step of the reflected division: the lowest bit is the highest power. */
  function Shift(r: Word): Word {
    if r[0] then Xor(POLYNOMIAL, ShiftRight(r, 1)) else ShiftRight(r, 1)
  }

  function Shifts(r: Word, n: nat): Word
    decreases n
  {
    if n == 0 then r else Shifts(Shift(r), n - 1)
  }

  /** The register after one more bit of the message. */
  function TakeBit(r: Word, bit: bool): Word {
    Shift(r[0 := r[0] != bit])
  }

  function Divide(r: Word, message: seq<bool>): Word
    decreases |message|
  {
    if message == [] then r else Divide(TakeBit(r, message[0]), message[1..])
  }

  function Message(data: seq<Byte>): (message: seq<bool>)
    ensures |message| == 8 * |data|
  {
    if data == [] then [] else Message(data[..|data| - 1]) + Bits(data[|data| - 1], BYTE)
  }

  function Crc(data: seq<Byte>): Word {
    Xor(Divide(ONES, Message(data)), ONES)
  }

  // ----- the table-driven loop -----

  function ByteFrom(bits: seq<bool>): (byte: Byte)
    requires |bits| == 8
    ensures Bits(byte, BYTE) == bits
  {
    NumberOfBits(bits);
    Number(bits)
  }

  method TableEntry(index: Byte) returns (crc: Word)
    ensures crc == Shifts(Pad(Bits(index, BYTE)), BYTE)
  {
    crc := Pad(Bits(index, BYTE));
    ghost var entry := Shifts(crc, BYTE);
    for i := 0 to BYTE
      invariant Shifts(crc, BYTE - i) == entry
    {
      NextShift(crc, BYTE - i);
      crc := if crc[0] then Xor(POLYNOMIAL, ShiftRight(crc, 1)) else ShiftRight(crc, 1);
    }
  }

  lemma NextShift(r: Word, n: nat)
    requires n > 0
    ensures Shifts(r, n) == Shifts(if r[0] then Xor(POLYNOMIAL, ShiftRight(r, 1)) else ShiftRight(r, 1), n - 1)
  {
  }

  method Compute(data: seq<Byte>) returns (crc: Word)
    ensures crc == Crc(data)
  {
    var table := new Word[256](_ => Zeros(32));
    for index := 0 to 256
      invariant forall i :: 0 <= i < index ==> table[i] == Shifts(Pad(Bits(i, BYTE)), BYTE)
    {
      table[index] := TableEntry(index);
    }
    crc := ONES;
    for i := 0 to |data|
      invariant forall i :: 0 <= i < 256 ==> table[i] == Shifts(Pad(Bits(i, BYTE)), BYTE)
      invariant crc == Divide(ONES, Message(data[..i]))
    {
      NextByte(crc, data, i);
      var index := ByteFrom(Xor(crc, Pad(Bits(data[i], BYTE)))[..8]);
      crc := Xor(table[index], ShiftRight(crc, 8));
    }
    assert data[..|data|] == data;
    crc := Xor(crc, ONES);
  }

  lemma NextByte(crc: Word, data: seq<Byte>, i: nat)
    requires i < |data| && crc == Divide(ONES, Message(data[..i]))
    ensures var index := ByteFrom(Xor(crc, Pad(Bits(data[i], BYTE)))[..8]);
            Xor(Shifts(Pad(Bits(index, BYTE)), BYTE), ShiftRight(crc, 8)) == Divide(ONES, Message(data[..i + 1]))
  {
    ByteAtOnce(crc, data[i]);
    assert data[..i + 1][..i] == data[..i];
    DivideOn(ONES, Message(data[..i]), Bits(data[i], BYTE));
  }

  lemma {:induction false} NumberOfBits(bits: seq<bool>)
    requires |bits| == 8
    ensures Number(bits) < 256 && Bits(Number(bits), BYTE) == bits
  {
    NumberReads(bits);
  }

  lemma {:induction false} NumberReads(bits: seq<bool>)
    ensures Number(bits) < Power2(|bits|) && Bits(Number(bits), |bits|) == bits
  {
    if bits != [] {
      NumberReads(bits[1..]);
    }
  }

  lemma ShiftIsLinear(a: Word, b: Word)
    ensures Shift(Xor(a, b)) == Xor(Shift(a), Shift(b))
  {
  }

  lemma {:induction false} ShiftsAreLinear(a: Word, b: Word, n: nat)
    ensures Shifts(Xor(a, b), n) == Xor(Shifts(a, n), Shifts(b, n))
    decreases n
  {
    if n > 0 {
      ShiftIsLinear(a, b);
      ShiftsAreLinear(Shift(a), Shift(b), n - 1);
    }
  }

  lemma {:induction false} ZerosJustMove(r: Word, n: nat)
    requires n <= 32 && r[..n] == Zeros(n)
    ensures Shifts(r, n) == ShiftRight(r, n)
    decreases n
  {
    if n > 0 {
      assert !r[..n][0];
      var next := Shift(r);
      assert forall i :: 0 <= i < n - 1 ==> next[i] == r[..n][i + 1];
      ZerosJustMove(next, n - 1);
    }
  }

  lemma {:induction false} DivideOn(r: Word, a: seq<bool>, b: seq<bool>)
    ensures Divide(r, a + b) == Divide(Divide(r, a), b)
    decreases |a|
  {
    if a == [] {
      assert a + b == b;
    } else {
      assert (a + b)[1..] == a[1..] + b;
      DivideOn(TakeBit(r, a[0]), a[1..], b);
    }
  }

  lemma FirstBit(r: Word, message: seq<bool>)
    requires 0 < |message| <= 32
    ensures Shift(Xor(r, Pad(message))) == Xor(TakeBit(r, message[0]), Pad(message[1..]))
  {
    var first, later := r[0 := r[0] != message[0]], [false] + Pad(message[1..])[..31];
    assert Xor(r, Pad(message)) == Xor(first, later);
    ShiftIsLinear(first, later);
    assert Shift(later) == Pad(message[1..]);
  }

  /** Up to 32 bits can be added to the register before any of them is shifted out. */
  lemma {:induction false} BitsAtOnce(r: Word, message: seq<bool>)
    requires |message| <= 32
    ensures Divide(r, message) == Shifts(Xor(r, Pad(message)), |message|)
    decreases |message|
  {
    if message == [] {
      assert Xor(r, Pad(message)) == r;
    } else {
      FirstBit(r, message);
      BitsAtOnce(TakeBit(r, message[0]), message[1..]);
    }
  }

  lemma ByteAtOnce(r: Word, byte: Byte)
    ensures Divide(r, Bits(byte, BYTE))
         == Xor(Shifts(Pad(Xor(r, Pad(Bits(byte, BYTE)))[..8]), BYTE), ShiftRight(r, 8))
  {
    var sum := Xor(r, Pad(Bits(byte, BYTE)));
    BitsAtOnce(r, Bits(byte, BYTE));
    LowAndHigh(sum);
    assert ShiftRight(sum, 8) == ShiftRight(r, 8);
  }

  /** Eight steps look at the lowest eight bits only. */
  lemma LowAndHigh(r: Word)
    ensures Shifts(r, BYTE) == Xor(Shifts(Pad(r[..8]), BYTE), ShiftRight(r, 8))
  {
    var low, high := Pad(r[..8]), Zeros(8) + r[8..];
    assert Xor(low, high) == r;
    ShiftsAreLinear(low, high, BYTE);
    ZerosJustMove(high, BYTE);
    assert ShiftRight(high, 8) == ShiftRight(r, 8);
  }

  // ----- what the remainder tells -----

  lemma {:induction false} HighestBit(n: nat, count: nat)
    requires count > 0 && Power2(count - 1) <= n < Power2(count)
    ensures Bits(n, count)[count - 1]
    decreases count
  {
    if count > 1 {
      HighestBit(n / 2, count - 1);
    }
  }

  lemma TopBit()
    ensures POLYNOMIAL[31]
  {
    assert Power2(8) == 0x100;
    assert Power2(16) == 0x1_0000;
    assert Power2(24) == 0x100_0000;
    assert Power2(31) == 0x8000_0000;
    HighestBit(0xEDB8_8320, 32);
  }

  lemma ShiftBit(r: Word, i: nat)
    requires i < 31
    ensures Shift(r)[31] == r[0] && Shift(r)[i] == if r[0] then POLYNOMIAL[i] != r[i + 1] else r[i + 1]
  {
    TopBit();
  }

  /** The polynomial has its constant term, so no two registers shift into one. */
  lemma ShiftIsInjective(a: Word, b: Word)
    requires Shift(a) == Shift(b)
    ensures a == b
  {
    forall i | 0 <= i < 32
      ensures a[i] == b[i]
    {
      var before := if i > 0 then i - 1 else 0;
      ShiftBit(a, before);
      ShiftBit(b, before);
    }
  }

  lemma {:induction false} ShiftsAreInjective(a: Word, b: Word, n: nat)
    requires Shifts(a, n) == Shifts(b, n)
    ensures a == b
    decreases n
  {
    if n > 0 {
      ShiftsAreInjective(Shift(a), Shift(b), n - 1);
      ShiftIsInjective(a, b);
    }
  }

  lemma UndoBit(r: Word, bit: bool)
    ensures var taken := r[0 := r[0] != bit]; r == taken[0 := taken[0] != bit]
  {
  }

  lemma {:induction false} RegistersStayApart(a: Word, b: Word, message: seq<bool>)
    requires Divide(a, message) == Divide(b, message)
    ensures a == b
    decreases |message|
  {
    if message != [] {
      RegistersStayApart(TakeBit(a, message[0]), TakeBit(b, message[0]), message[1..]);
      ShiftIsInjective(a[0 := a[0] != message[0]], b[0 := b[0] != message[0]]);
      UndoBit(a, message[0]);
      UndoBit(b, message[0]);
    }
  }

  lemma XorCancels(r: Word, a: Word, b: Word)
    requires Xor(r, a) == Xor(r, b)
    ensures a == b
  {
    forall i | 0 <= i < 32
      ensures a[i] == b[i]
    {
      assert Xor(r, a)[i] == Xor(r, b)[i];
    }
  }

  lemma {:induction false} MessageOn(a: seq<Byte>, b: seq<Byte>)
    ensures Message(a + b) == Message(a) + Message(b)
    decreases |b|
  {
    if b == [] {
      assert a + b == a;
    } else {
      assert (a + b)[..|a + b| - 1] == a + b[..|b| - 1];
      MessageOn(a, b[..|b| - 1]);
    }
  }

  lemma {:induction false} BitsAreInjective(n: nat, m: nat, count: nat)
    requires n < Power2(count) && m < Power2(count) && Bits(n, count) == Bits(m, count)
    ensures n == m
    decreases count
  {
    if count > 0 {
      assert Bits(n, count)[1..] == Bits(n / 2, count - 1);
      assert Bits(m, count)[1..] == Bits(m / 2, count - 1);
      assert Bits(n, count)[0] == Bits(m, count)[0];
      BitsAreInjective(n / 2, m / 2, count - 1);
    }
  }

  lemma {:induction false} MessageIsInjective(a: seq<Byte>, b: seq<Byte>)
    requires |a| == |b| && Message(a) == Message(b)
    ensures a == b
  {
    assert Power2(8) == 256;
    hide Bits, Power2;
    if a != [] {
      var n := |a| - 1;
      assert Message(a)[..8 * n] == Message(a[..n]) && Message(a)[8 * n..] == Bits(a[n], BYTE);
      assert Message(b)[..8 * n] == Message(b[..n]) && Message(b)[8 * n..] == Bits(b[n], BYTE);
      MessageIsInjective(a[..n], b[..n]);
      BitsAreInjective(a[n], b[n], 8);
    }
  }

  /** Any change within four consecutive bytes changes the CRC. */
  lemma BurstsAreDetected(before: seq<Byte>, x: seq<Byte>, y: seq<Byte>, after: seq<Byte>)
    requires |x| == |y| <= 4
    ensures Crc(before + x + after) == Crc(before + y + after) <==> x == y
  {
    if Crc(before + x + after) == Crc(before + y + after) {
      var r := Divide(ONES, Message(before));
      Split(before, x, after);
      Split(before, y, after);
      assert Xor(ONES, Divide(ONES, Message(before + x + after))) == Crc(before + x + after);
      assert Xor(ONES, Divide(ONES, Message(before + y + after))) == Crc(before + y + after);
      XorCancels(ONES, Divide(ONES, Message(before + x + after)), Divide(ONES, Message(before + y + after)));
      RegistersStayApart(Divide(r, Message(x)), Divide(r, Message(y)), Message(after));
      BitsAtOnce(r, Message(x));
      BitsAtOnce(r, Message(y));
      ShiftsAreInjective(Xor(r, Pad(Message(x))), Xor(r, Pad(Message(y))), |Message(x)|);
      XorCancels(r, Pad(Message(x)), Pad(Message(y)));
      assert Message(x) == Pad(Message(x))[..|Message(x)|] == Pad(Message(y))[..|Message(y)|] == Message(y);
      MessageIsInjective(x, y);
    }
  }

  lemma Split(a: seq<Byte>, b: seq<Byte>, c: seq<Byte>)
    ensures Divide(ONES, Message(a + b + c)) == Divide(Divide(Divide(ONES, Message(a)), Message(b)), Message(c))
  {
    MessageOn(a + b, c);
    MessageOn(a, b);
    DivideOn(ONES, Message(a) + Message(b), Message(c));
    DivideOn(ONES, Message(a), Message(b));
  }

  /** The CRC as four bytes, the lowest first. */
  function Trailer(crc: Word): seq<Byte> {
    [ByteFrom(crc[..8]), ByteFrom(crc[8..16]), ByteFrom(crc[16..24]), ByteFrom(crc[24..])]
  }

  lemma TrailerReads(crc: Word)
    ensures Message(Trailer(crc)) == crc
  {
    var t := Trailer(crc);
    assert t[..3][..2] == t[..2] && t[..2][..1] == t[..1] && t[..1][..0] == [];
    assert Message(t[..1]) == crc[..8];
    assert Message(t[..2]) == crc[..16];
    assert Message(t[..3]) == crc[..24];
  }

  /** A message that carries its own CRC has one and the same CRC, whatever it says. */
  lemma CheckedMessagesAgree(data: seq<Byte>)
    ensures Crc(data + Trailer(Crc(data))) == Xor(Shifts(ONES, 32), ONES)
  {
    var r := Divide(ONES, Message(data));
    MessageOn(data, Trailer(Crc(data)));
    TrailerReads(Crc(data));
    DivideOn(ONES, Message(data), Crc(data));
    BitsAtOnce(r, Crc(data));
    assert Xor(r, Pad(Crc(data))) == ONES;
  }

  // ----- the polynomial of the standard -----

  /** The exponents in the polynomial of ISO 3309, below the leading one. */
  const EXPONENTS: set<nat> := {26, 23, 22, 16, 12, 11, 10, 8, 7, 5, 4, 2, 1, 0}

  lemma EightBits(n: nat, count: nat, byte: seq<bool>)
    requires byte == [n % 2 == 1, n / 2 % 2 == 1, n / 4 % 2 == 1, n / 8 % 2 == 1,
                      n / 16 % 2 == 1, n / 32 % 2 == 1, n / 64 % 2 == 1, n / 128 % 2 == 1]
    ensures Bits(n, count + 8) == byte + Bits(n / 256, count)
  {
    hide Bits;
    FourBits(n, count + 4);
    FourBits(n / 16, count);
  }

  lemma FourBits(n: nat, count: nat)
    ensures Bits(n, count + 4) == [n % 2 == 1, n / 2 % 2 == 1, n / 4 % 2 == 1, n / 8 % 2 == 1] + Bits(n / 16, count)
  {
    hide Bits;
    OneBit(n, count + 3);
    OneBit(n / 2, count + 2);
    OneBit(n / 4, count + 1);
    OneBit(n / 8, count);
  }

  lemma OneBit(n: nat, count: nat)
    ensures Bits(n, count + 1) == [n % 2 == 1] + Bits(n / 2, count)
  {
  }

  lemma PolynomialBits()
    ensures POLYNOMIAL[..8] == [false, false, false, false, false, true, false, false]
    ensures POLYNOMIAL[8..16] == [true, true, false, false, false, false, false, true]
    ensures POLYNOMIAL[16..24] == [false, false, false, true, true, true, false, true]
    ensures POLYNOMIAL[24..] == [true, false, true, true, false, true, true, true]
  {
    hide Bits;
    EightBits(0xEDB8_8320, 24, [false, false, false, false, false, true, false, false]);
    EightBits(0xED_B883, 16, [true, true, false, false, false, false, false, true]);
    EightBits(0xEDB8, 8, [false, false, false, true, true, true, false, true]);
    EightBits(0xED, 0, [true, false, true, true, false, true, true, true]);
  }

  /** The polynomial is that of the standard, the highest power first. */
  lemma PolynomialHas(k: nat)
    requires k < 32
    ensures POLYNOMIAL[31 - k] <==> k in EXPONENTS
  {
    hide Bits;
    PolynomialBits();
    var i := 31 - k;
    if i < 8 {
      assert POLYNOMIAL[i] == POLYNOMIAL[..8][i];
    } else if i < 16 {
      assert POLYNOMIAL[i] == POLYNOMIAL[8..16][i - 8];
    } else if i < 24 {
      assert POLYNOMIAL[i] == POLYNOMIAL[16..24][i - 16];
    } else {
      assert POLYNOMIAL[i] == POLYNOMIAL[24..][i - 24];
    }
  }
}
