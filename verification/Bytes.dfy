/** Bytes and their bits, the highest first. */
module Bytes {
  import opened Text

  type Byte = b: nat | b < 256

  function HexDigit(v: nat): (c: Byte)
    requires v < 16
    ensures HexValue(c) == Some(v)
  {
    HexChar(v, true) as int
  }

  function HexValue(c: Byte): Option<nat> {
    if IsHex(c as char) then Some(HexDigitValue(c as char)) else None
  }

  function Power2(n: nat): (p: nat)
    ensures p > 0
  {
    if n == 0 then 1 else 2 * Power2(n - 1)
  }

  function HighBits(n: nat, count: nat): (bits: seq<bool>)
    ensures |bits| == count
  {
    if count == 0 then [] else HighBits(n / 2, count - 1) + [n % 2 == 1]
  }

  function HighNumber(bits: seq<bool>): nat {
    if bits == [] then 0 else 2 * HighNumber(bits[..|bits| - 1]) + (if bits[|bits| - 1] then 1 else 0)
  }

  lemma {:induction false} NumberOfHighBits(n: nat, count: nat)
    requires n < Power2(count)
    ensures HighNumber(HighBits(n, count)) == n
    decreases count
  {
    if count > 0 {
      NumberOfHighBits(n / 2, count - 1);
      assert HighBits(n, count)[..count - 1] == HighBits(n / 2, count - 1);
    }
  }

  lemma {:induction false} HighBitsOfNumber(bits: seq<bool>)
    ensures HighNumber(bits) < Power2(|bits|)
    ensures HighBits(HighNumber(bits), |bits|) == bits
  {
    if bits != [] {
      HighBitsOfNumber(bits[..|bits| - 1]);
    }
  }

  function ByteOf(bits: seq<bool>): (byte: Byte)
    requires |bits| == 8
    ensures byte == HighNumber(bits)
  {
    HighBitsOfNumber(bits);
    assert Power2(8) == 256;
    HighNumber(bits)
  }

  function Zeros(n: nat): (bits: seq<bool>)
    ensures |bits| == n && forall i :: 0 <= i < n ==> !bits[i]
  {
    seq(n, _ => false)
  }
}
