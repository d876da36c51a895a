/** Time-based one-time passwords. */
module Totp {
  import opened Text
  import opened Bytes
  import opened Base32

  datatype Algorithm = Sha1 | Sha256 | Sha512

  function DigestSize(a: Algorithm): nat {
    match a
    case Sha1 => 20
    case Sha256 => 32
    case Sha512 => 64
  }

  /** HMAC, from a library that is not part of this model. */
  type Hmac = (Algorithm, seq<Byte>, seq<Byte>) -> seq<Byte>

  ghost predicate RightSizes(hmac: Hmac) {
    forall a, key, message :: |hmac(a, key, message)| == DigestSize(a)
  }

  function AlgorithmOf(name: string): Option<Algorithm> {
    var lower := seq(|name|, i requires 0 <= i < |name| => LowerChar(name[i]));
    if lower == "sha1" then Some(Sha1)
    else if lower == "sha256" then Some(Sha256)
    else if lower == "sha512" then Some(Sha512)
    else None
  }

  function LowerChar(c: char): char {
    if 'A' <= c <= 'Z' then c + ('a' - 'A') else c
  }

  function CounterBytes(counter: nat): (bytes: seq<Byte>)
    ensures |bytes| == 8
  {
    var bits := HighBits(counter, 64);
    seq(8, i requires 0 <= i < 8 => ByteOf(bits[8 * i..8 * i + 8]))
  }

  datatype CodeError = BadDigits | BadPeriod | BadSecret(error: SecretError) | BadAlgorithm

  /** `Overflow` is the panic of a build that checks arithmetic. */
  datatype CodeResult = Code(text: string) | Refused(error: CodeError) | Overflow

  const U32_LIMIT: nat := 0x1_0000_0000

  /** 10^10 in a `u32` that wraps. */
  const WRAPPED_POWER: nat := 1_410_065_408

  // ----- what section 5.3 of RFC 4226 asks for -----

  /** The last 31 bits of the four bytes that the low nibble of the last byte picks. */
  function Truncated(digest: seq<Byte>): nat
    requires |digest| >= 20
  {
    var offset := digest[|digest| - 1] % 16;
    HighNumber(BitString(digest[offset..offset + 4])[1..])
  }

  /** Exactly `digits` decimal digits that read as `n`. */
  predicate Shown(text: string, digits: nat, n: nat) {
    |text| == digits && AllDigits(text) && DigitsValue(text) == n
  }

  function Padded(n: nat, width: nat): string {
    var digits := Decimal(n);
    if |digits| >= width then digits else seq(width - |digits|, _ => '0') + digits
  }

  method ComputeCode(hmac: Hmac, checked: bool, secret: string, digits: nat, period: nat, algorithm: string, at: nat) returns (r: CodeResult)
    requires RightSizes(hmac)
    ensures !(6 <= digits <= 10) <==> r == Refused(BadDigits)
    ensures 6 <= digits <= 10 && period == 0 <==> r == Refused(BadPeriod)
    ensures 6 <= digits <= 10 && period > 0 && Decode(secret).Err? <==> r.Refused? && r.error.BadSecret?
    ensures r.Refused? && r.error.BadSecret? ==> r.error.error == Decode(secret).error
    ensures 6 <= digits <= 10 && period > 0 && Decode(secret).Ok? && AlgorithmOf(algorithm).None? <==> r == Refused(BadAlgorithm)
    ensures 6 <= digits <= 10 && period > 0 && Decode(secret).Ok? && AlgorithmOf(algorithm).Some? ==>
      var n := Truncated(hmac(AlgorithmOf(algorithm).value, Decode(secret).value, CounterBytes(at / period)));
      if digits < 10 then r.Code? && Shown(r.text, digits, n % Power10(digits))
      else if checked then r.Overflow?
      else r.Code? && Shown(r.text, 10, n % WRAPPED_POWER)
  {
    if !(6 <= digits <= 10) {
      return Refused(BadDigits);
    }
    if period == 0 {
      return Refused(BadPeriod);
    }
    var key := DecodeBase32(secret);
    if key.Err? {
      return Refused(BadSecret(key.error));
    }
    var counter := at / period;
    var chosen := AlgorithmOf(algorithm);
    if chosen.None? {
      return Refused(BadAlgorithm);
    }
    var digest := hmac(chosen.value, key.value, CounterBytes(counter));
    var offset := digest[|digest| - 1] % 16;
    var binary := Assembled(digest[offset], digest[offset + 1], digest[offset + 2], digest[offset + 3]);
    AssembledIsTruncated(digest);
    PowersOfTen();
    var modulus := Power10(digits);
    if modulus >= U32_LIMIT {
      if checked {
        return Overflow;
      }
      modulus := modulus % U32_LIMIT;
    }
    Remainder(binary, modulus);
    PaddedShows(binary % modulus, digits);
    return Code(Padded(binary % modulus, digits));
  }

  function Assembled(b0: Byte, b1: Byte, b2: Byte, b3: Byte): nat {
    b0 % 128 * 0x100_0000 + b1 * 0x1_0000 + b2 * 0x100 + b3
  }

  lemma Remainder(n: nat, d: nat)
    requires d > 0
    ensures n % d < d
  {
  }

  lemma PowersOfTen()
    ensures Power10(6) == 1_000_000 && Power10(7) == 10_000_000 && Power10(8) == 100_000_000
    ensures Power10(9) == 1_000_000_000 && Power10(10) == 10_000_000_000
    ensures Power10(10) % U32_LIMIT == WRAPPED_POWER
  {
  }

  lemma Twice(a: nat, b: nat)
    ensures a * (2 * b) == 2 * (a * b)
  {
  }

  lemma {:induction false} NumberOn(a: seq<bool>, b: seq<bool>)
    ensures HighNumber(a + b) == HighNumber(a) * Power2(|b|) + HighNumber(b)
    decreases |b|
  {
    if b == [] {
      assert a + b == a;
    } else {
      var front := b[..|b| - 1];
      assert (a + b)[..|a + b| - 1] == a + front;
      NumberOn(a, front);
      Twice(HighNumber(a), Power2(|front|));
    }
  }

  lemma {:induction false} WithoutTopBit(n: nat, count: nat)
    requires count > 0
    ensures HighBits(n, count)[1..] == HighBits(n % Power2(count - 1), count - 1)
    decreases count
  {
    if count > 1 {
      var p := Power2(count - 2);
      WithoutTopBit(n / 2, count - 1);
      HalfOfRemainder(n, p);
      assert HighBits(n, count)[1..] == HighBits(n / 2, count - 1)[1..] + [n % 2 == 1];
    }
  }

  lemma HalfOfRemainder(n: nat, p: nat)
    requires p > 0
    ensures n % (2 * p) / 2 == n / 2 % p
    ensures n % (2 * p) % 2 == n % 2
  {
    var q, r := n / 2 / p, n / 2 % p;
    assert n / 2 == p * q + r;
    assert n == 2 * p * q + (2 * r + n % 2);
    Rest(n, 2 * p, q, 2 * r + n % 2);
  }

  lemma Rest(n: nat, d: nat, q: nat, r: nat)
    requires n == d * q + r && r < d
    ensures n % d == r
  {
    var e := n / d - q;
    assert d * e == r - n % d;
    if e >= 1 {
      Multiple(d, e);
    } else if e <= -1 {
      Multiple(d, -e);
    }
  }

  lemma Multiple(d: int, e: int)
    requires d >= 0 && e >= 1
    ensures d * e >= d && d * -e <= -d
  {
  }

  /** The four bytes put together by shifts are the 31-bit string of the standard. */
  lemma AssembledIsTruncated(digest: seq<Byte>)
    requires |digest| >= 20
    ensures var o := digest[|digest| - 1] % 16;
            Assembled(digest[o], digest[o + 1], digest[o + 2], digest[o + 3]) == Truncated(digest)
  {
    var o := digest[|digest| - 1] % 16;
    var w := digest[o..o + 4];
    FourBytes(w);
    assert w[0] == digest[o] && w[1] == digest[o + 1] && w[2] == digest[o + 2] && w[3] == digest[o + 3];
  }

  lemma FourBytes(w: seq<Byte>)
    requires |w| == 4
    ensures HighNumber(BitString(w)[1..]) == Assembled(w[0], w[1], w[2], w[3])
  {
    var a, b, c, d := HighBits(w[0], 8)[1..], HighBits(w[1], 8), HighBits(w[2], 8), HighBits(w[3], 8);
    assert BitString(w)[1..] == a + b + c + d;
    assert Power2(7) == 128 && Power2(8) == 256;
    WithoutTopBit(w[0], 8);
    NumberOfHighBits(w[0] % 128, 7);
    NumberOfHighBits(w[1], 8);
    NumberOfHighBits(w[2], 8);
    NumberOfHighBits(w[3], 8);
    NumberOn(a, b);
    NumberOn(a + b, c);
    NumberOn(a + b + c, d);
  }

  lemma {:induction false} DigitsOf(n: nat, width: nat)
    requires width > 0 && n < Power10(width)
    ensures |Decimal(n)| <= width
    decreases width
  {
    if n >= 10 {
      assert Power10(1) == 10;
      DigitsOf(n / 10, width - 1);
    }
  }

  lemma {:induction false} LeadingZeros(k: nat, s: string)
    requires AllDigits(s)
    ensures AllDigits(seq(k, _ => '0') + s) && DigitsValue(seq(k, _ => '0') + s) == DigitsValue(s)
    decreases |s| + k
  {
    var zeros := seq(k, _ => '0');
    var all := zeros + s;
    if s != "" {
      LeadingZeros(k, s[..|s| - 1]);
      assert all[..|all| - 1] == zeros + s[..|s| - 1];
    } else if k > 0 {
      LeadingZeros(k - 1, "");
      assert all[..|all| - 1] == seq(k - 1, _ => '0') + "";
    }
  }

  lemma PaddedShows(n: nat, width: nat)
    requires width > 0 && n < Power10(width)
    ensures Shown(Padded(n, width), width, n)
  {
    DigitsOf(n, width);
    DecimalReads(n);
    LeadingZeros(width - |Decimal(n)|, Decimal(n));
  }

  /** With ten digits a 31-bit number should be printed as it is. A build that does not
      check arithmetic prints it reduced by the wrapped power, which is right exactly
      below that power. */
  lemma TenDigits(digest: seq<Byte>)
    requires |digest| >= 20
    ensures Truncated(digest) % Power10(10) == Truncated(digest)
    ensures Power10(10) % U32_LIMIT == WRAPPED_POWER
    ensures Truncated(digest) % WRAPPED_POWER == Truncated(digest) % Power10(10)
       <==> Truncated(digest) < WRAPPED_POWER
  {
    PowersOfTen();
    AssembledIsTruncated(digest);
    Reduced(Truncated(digest), 10_000_000_000, WRAPPED_POWER);
  }

  lemma Reduced(n: nat, large: nat, small: nat)
    requires n < large && 0 < small
    ensures n % large == n && (n % small == n <==> n < small)
  {
    Rest(n, large, 0, n);
    if n < small {
      Rest(n, small, 0, n);
    } else {
      Remainder(n, small);
    }
  }

  // ----- the counter and the names -----

  /** The number that bytes are, the highest first. */
  function BigEndian(bytes: seq<Byte>): nat {
    if bytes == [] then 0 else 0x100 * BigEndian(bytes[..|bytes| - 1]) + bytes[|bytes| - 1]
  }

  lemma {:induction false} HighBitsJoin(a: nat, b: nat, high: nat, low: nat)
    requires b < Power2(low)
    ensures HighBits(a * Power2(low) + b, high + low) == HighBits(a, high) + HighBits(b, low)
    decreases low
  {
    if low == 0 {
      assert HighBits(a, high) + [] == HighBits(a, high);
    } else {
      Twice(a, Power2(low - 1));
      HighBitsJoin(a, b / 2, high, low - 1);
      JoinHalf(a, b, a * Power2(low - 1), high, low);
    }
  }

  lemma JoinHalf(a: nat, b: nat, shifted: nat, high: nat, low: nat)
    requires low > 0 && HighBits(shifted + b / 2, high + low - 1) == HighBits(a, high) + HighBits(b / 2, low - 1)
    ensures HighBits(2 * shifted + b, high + low) == HighBits(a, high) + HighBits(b, low)
  {
    assert (2 * shifted + b) / 2 == shifted + b / 2;
  }

  function Octets(bits: seq<bool>, count: nat): seq<Byte>
    requires |bits| == 8 * count
  {
    seq(count, i requires 0 <= i < count => ByteOf(bits[8 * i..8 * i + 8]))
  }

  lemma OctetsOn(front: seq<bool>, last: seq<bool>, count: nat)
    requires |front| == 8 * count && |last| == 8
    ensures Octets(front + last, count + 1) == Octets(front, count) + [ByteOf(last)]
  {
    forall i | 0 <= i < count
      ensures (front + last)[8 * i..8 * i + 8] == front[8 * i..8 * i + 8]
    {
    }
    assert (front + last)[8 * count..8 * count + 8] == last;
  }

  lemma {:induction false} BitsRead(n: nat, count: nat)
    requires n < Power2(8 * count)
    ensures BigEndian(Octets(HighBits(n, 8 * count), count)) == n
    decreases count
  {
    if count == 0 {
      assert Octets(HighBits(n, 0), 0) == [];
    } else {
      hide HighBits, Octets, Power2, BigEndian, HighNumber;
      var high := 8 * (count - 1);
      assert 8 * count == high + 8;
      SplitByte(n, high);
      var front, last := HighBits(n / 0x100, high), HighBits(n % 0x100, 8);
      BitsRead(n / 0x100, count - 1);
      OctetsOn(front, last, count - 1);
      OneMoreByte(Octets(front, count - 1), n % 0x100);
    }
  }

  lemma SplitByte(n: nat, high: nat)
    ensures HighBits(n, high + 8) == HighBits(n / 0x100, high) + HighBits(n % 0x100, 8)
    ensures HighNumber(HighBits(n % 0x100, 8)) == n % 0x100
    ensures n < Power2(high + 8) ==> n / 0x100 < Power2(high)
  {
    hide HighBits;
    EightBits();
    HighBitsJoin(n / 0x100, n % 0x100, high, 8);
    NumberOfHighBits(n % 0x100, 8);
    PowersJoin(high, 8);
  }

  lemma OneMoreByte(bytes: seq<Byte>, last: Byte)
    ensures BigEndian(bytes + [last]) == 0x100 * BigEndian(bytes) + last
  {
    assert (bytes + [last])[..|bytes|] == bytes;
  }

  lemma EightBits()
    ensures Power2(8) == 0x100
  {
  }

  lemma {:induction false} PowersJoin(a: nat, b: nat)
    ensures Power2(a + b) == Power2(a) * Power2(b)
    decreases b
  {
    if b > 0 {
      PowersJoin(a, b - 1);
      Twice(Power2(a), Power2(b - 1));
    }
  }

  /** The eight bytes of a counter are the counter, the highest first. */
  lemma CounterReads(counter: nat)
    requires counter < Power2(64)
    ensures |CounterBytes(counter)| == 8 && BigEndian(CounterBytes(counter)) == counter
  {
    BitsRead(counter, 8);
    assert CounterBytes(counter) == Octets(HighBits(counter, 64), 8);
  }

  /** The word, in letters of either case. */
  predicate Spells(name: string, word: string) {
    |name| == |word| && forall i :: 0 <= i < |word| ==> name[i] == word[i] || ('a' <= word[i] <= 'z' && name[i] == word[i] - ' ')
  }

  /** The three names, and no other. */
  lemma AlgorithmNames(name: string)
    ensures AlgorithmOf(name) == Some(Sha1) <==> Spells(name, "sha1")
    ensures AlgorithmOf(name) == Some(Sha256) <==> Spells(name, "sha256")
    ensures AlgorithmOf(name) == Some(Sha512) <==> Spells(name, "sha512")
  {
    LowersTo(name, "sha1");
    LowersTo(name, "sha256");
    LowersTo(name, "sha512");
  }

  lemma LowersTo(name: string, word: string)
    requires forall i :: 0 <= i < |word| ==> !('A' <= word[i] <= 'Z')
    ensures seq(|name|, i requires 0 <= i < |name| => LowerChar(name[i])) == word <==> Spells(name, word)
  {
    var lower := seq(|name|, i requires 0 <= i < |name| => LowerChar(name[i]));
    forall i | 0 <= i < |name| && i < |word|
      ensures lower[i] == word[i] <==> name[i] == word[i] || ('a' <= word[i] <= 'z' && name[i] == word[i] - ' ')
    {
    }
    if lower == word {
      assert forall i :: 0 <= i < |word| ==> lower[i] == word[i];
    }
    if Spells(name, word) {
      assert forall i :: 0 <= i < |word| ==> lower[i] == word[i];
    }
  }
}
