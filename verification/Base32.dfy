/** Base32 secrets, as a setup page shows them. */
module Base32 {
  import opened Text
  import opened Bytes

  datatype SecretError = Empty | Invalid(c: char) | TooShort

  // ----- the alphabet -----

  predicate InAlphabet(c: char) {
    'A' <= c <= 'Z' || '2' <= c <= '7'
  }

  function Value(c: char): (v: nat)
    requires InAlphabet(c)
    ensures v < 32
  {
    if 'A' <= c <= 'Z' then c as int - 'A' as int else c as int - '2' as int + 26
  }

  function Letter(v: nat): (c: char)
    requires v < 32
    ensures InAlphabet(c) && Value(c) == v
  {
    if v < 26 then ('A' as int + v) as char else ('2' as int + (v - 26)) as char
  }

  predicate AllInAlphabet(text: string) {
    forall i :: 0 <= i < |text| ==> InAlphabet(text[i])
  }

  // ----- what decoding means: one bit string, cut into groups of five and of eight -----

  function Quintets(text: string): (bits: seq<bool>)
    requires AllInAlphabet(text)
    ensures |bits| == 5 * |text|
  {
    seq(5 * |text|, i requires 0 <= i < 5 * |text| => HighBits(Value(text[i / 5]), 5)[i % 5])
  }

  /** The whole bytes of a bit string; bits left over at its end are dropped. */
  function Octets(bits: seq<bool>): (data: seq<Byte>)
    ensures |data| == |bits| / 8
  {
    seq(|bits| / 8, i requires 0 <= i < |bits| / 8 => ByteOf(bits[8 * i..8 * i + 8]))
  }

  function Filtered(secret: string): string {
    if secret == "" then ""
    else
      var rest, c := Filtered(secret[..|secret| - 1]), secret[|secret| - 1];
      if IsSpace(c) || c == '-' then rest else rest + [c]
  }

  function TrimPadding(s: string): string {
    if s != "" && s[|s| - 1] == '=' then TrimPadding(s[..|s| - 1]) else s
  }

  function Cleaned(secret: string): string {
    Upper(TrimPadding(Filtered(secret)))
  }

  /** The first character outside the alphabet. */
  function Stray(text: string): Option<char> {
    if text == "" then None
    else if InAlphabet(text[0]) then Stray(text[1..]) else Some(text[0])
  }

  lemma {:induction false} StrayOrNot(text: string)
    ensures Stray(text).None? <==> AllInAlphabet(text)
  {
    if text != "" {
      StrayOrNot(text[1..]);
      if AllInAlphabet(text[1..]) && InAlphabet(text[0]) {
        assert forall i :: 0 < i < |text| ==> text[i] == text[1..][i - 1];
      }
      if AllInAlphabet(text) {
        assert AllInAlphabet(text[1..]);
      }
    }
  }

  function Decode(secret: string): Result<seq<Byte>, SecretError> {
    var text := Cleaned(secret);
    StrayOrNot(text);
    if text == "" then Err(Empty)
    else if Stray(text).Some? then Err(Invalid(Stray(text).value))
    else if |text| == 1 then Err(TooShort)
    else Ok(Octets(Quintets(text)))
  }

  // ----- the decoder -----

  /** A `u32` by its bits, the highest first. */
  type Register = w: seq<bool> | |w| == 32 witness Zeros(32)

  /** The lowest `bits` places hold what is pending of the bit string; above them are
      older bits that were not cleared. */
  ghost predicate Holds(buffer: Register, bits: nat, out: seq<Byte>, text: string) {
    bits < 8 && forall k: nat {:trigger Opened(k)} :: Opened(k) ==>
      && AllInAlphabet(text)
      && bits == 5 * |text| - 8 * |out|
      && buffer[32 - bits..] == Quintets(text)[8 * |out|..]
      && out == Octets(Quintets(text))
  }

  lemma NothingHeld()
    ensures Holds(Zeros(32), 0, [], "")
  {
  }

  /** Older bits are pushed out at the top. */
  function Push(buffer: Register, v: nat): Register {
    buffer[5..] + HighBits(v, 5)
  }

  method DecodeBase32(secret: string) returns (r: Result<seq<Byte>, SecretError>)
    ensures r == Decode(secret)
  {
    var cleaned := Cleaned(secret);
    if cleaned == "" {
      return Err(Empty);
    }
    StrayOrNot(cleaned);
    var out, stray := DecodeLetters(cleaned);
    if stray.Some? {
      return Err(Invalid(stray.value));
    }
    if out == [] {
      return Err(TooShort);
    }
    return Ok(out);
  }

  /** The loop of the decoder, up to a character it refuses. */
  method DecodeLetters(text: string) returns (out: seq<Byte>, stray: Option<char>)
    ensures stray == Stray(text)
    ensures stray.None? ==> AllInAlphabet(text) && out == Octets(Quintets(text))
  {
    var buffer: Register, bits: nat := Zeros(32), 0;
    out := [];
    NothingHeld();
    for i := 0 to |text|
      invariant Stray(text) == Stray(text[i..])
      invariant Holds(buffer, bits, out, text[..i])
    {
      var c := text[i];
      NextLetter(text, i);
      if !InAlphabet(c) {
        return out, Some(c);
      }
      Pushes(buffer, bits, out, text[..i], c);
      buffer := Push(buffer, Value(c));
      bits := bits + 5;
      if bits >= 8 {
        bits := bits - 8;
        out := out + [ByteOf(buffer[24 - bits..32 - bits])];
      }
    }
    LastLetter(buffer, bits, out, text);
    return out, None;
  }

  lemma NextLetter(text: string, i: nat)
    requires i < |text|
    ensures text[..i + 1] == text[..i] + [text[i]]
    ensures Stray(text[i..]) == if InAlphabet(text[i]) then Stray(text[i + 1..]) else Some(text[i])
  {
    assert text[i..][1..] == text[i + 1..];
  }

  lemma LastLetter(buffer: Register, bits: nat, out: seq<Byte>, text: string)
    requires Holds(buffer, bits, out, text[..|text|])
    ensures AllInAlphabet(text) && out == Octets(Quintets(text))
  {
    assert Opened(0 as nat);
    assert text[..|text|] == text;
  }

  lemma Pushes(buffer: Register, bits: nat, out: seq<Byte>, text: string, c: char)
    requires Holds(buffer, bits, out, text) && InAlphabet(c)
    ensures var next := Push(buffer, Value(c));
            if bits < 3 then Holds(next, bits + 5, out, text + [c])
            else Holds(next, bits - 3, out + [ByteOf(next[27 - bits..35 - bits])], text + [c])
  {
    assert Opened(0 as nat);
    var next, before, more := Push(buffer, Value(c)), Quintets(text), HighBits(Value(c), 5);
    OneMoreLetter(text, c);
    Pending(buffer, bits, more, before, 8 * |out|);
    var pending := (before + more)[8 * |out|..];
    if bits < 3 {
      NoMoreBytes(before, more);
    } else {
      OneMoreByte(before, more);
      assert next[27 - bits..35 - bits] == next[27 - bits..][..8] == pending[..8];
      assert next[35 - bits..] == next[27 - bits..][8..];
      assert pending[8..] == (before + more)[8 * (|out| + 1)..];
    }
  }

  lemma Pending(buffer: Register, bits: nat, more: seq<bool>, before: seq<bool>, from: nat)
    requires bits < 8 && |more| == 5 && from <= |before| && buffer[32 - bits..] == before[from..]
    ensures (buffer[5..] + more)[27 - bits..] == (before + more)[from..]
  {
    assert (buffer[5..] + more)[27 - bits..] == buffer[32 - bits..] + more;
    assert (before + more)[from..] == before[from..] + more;
  }

  lemma OneMoreLetter(text: string, c: char)
    requires AllInAlphabet(text) && InAlphabet(c)
    ensures Quintets(text + [c]) == Quintets(text) + HighBits(Value(c), 5)
  {
  }

  lemma OneMoreByte(bits: seq<bool>, more: seq<bool>)
    requires |more| == 5 && |bits| % 8 + 5 >= 8
    ensures Octets(bits + more) == Octets(bits) + [ByteOf((bits + more)[|bits| / 8 * 8..][..8])]
  {
    forall i | 0 <= i < |bits| / 8
      ensures (bits + more)[8 * i..8 * i + 8] == bits[8 * i..8 * i + 8]
    {
    }
    var n := |bits| / 8;
    assert |bits + more| / 8 == n + 1;
    assert (bits + more)[n * 8..][..8] == (bits + more)[8 * n..8 * n + 8];
  }

  lemma NoMoreBytes(bits: seq<bool>, more: seq<bool>)
    requires |bits| % 8 + |more| < 8
    ensures Octets(bits + more) == Octets(bits)
  {
    forall i | 0 <= i < |bits| / 8
      ensures (bits + more)[8 * i..8 * i + 8] == bits[8 * i..8 * i + 8]
    {
    }
  }

  /** Exactly which secrets are keys. */
  lemma DecodesIff(secret: string)
    ensures Decode(secret).Ok? <==> |Cleaned(secret)| >= 2 && AllInAlphabet(Cleaned(secret))
    ensures Decode(secret).Ok? ==> |Decode(secret).value| == 5 * |Cleaned(secret)| / 8
  {
    StrayOrNot(Cleaned(secret));
  }

  // ----- the encoding of section 6 of RFC 4648 -----

  function BitString(data: seq<Byte>): (bits: seq<bool>)
    ensures |bits| == 8 * |data|
  {
    seq(8 * |data|, i requires 0 <= i < 8 * |data| => HighBits(data[i / 8], 8)[i % 8])
  }

  /** How many letters `n` bytes need. */
  function Letters(n: nat): nat {
    (8 * n + 4) / 5
  }

  function Filled(data: seq<Byte>): (bits: seq<bool>)
    ensures |bits| == 5 * Letters(|data|)
  {
    BitString(data) + Zeros(5 * Letters(|data|) - 8 * |data|)
  }

  function LetterOf(bits: seq<bool>): (c: char)
    requires |bits| == 5
    ensures InAlphabet(c) && HighBits(Value(c), 5) == bits
  {
    HighBitsOfNumber(bits);
    assert Power2(5) == 32;
    Letter(HighNumber(bits))
  }

  /** The encoding without its padding. */
  function Encoded(data: seq<Byte>): (text: string)
    ensures AllInAlphabet(text) && |text| == Letters(|data|)
  {
    seq(Letters(|data|), k requires 0 <= k < Letters(|data|) => LetterOf(Filled(data)[5 * k..5 * k + 5]))
  }

  /** `secret` shows `text`: with spaces and hyphens anywhere, letters of either case, and
      any number of `=` once the text is over. */
  predicate Shows(secret: string, text: string) {
    if secret == "" then text == ""
    else
      var rest, c := secret[..|secret| - 1], secret[|secret| - 1];
      || ((IsSpace(c) || c == '-') && Shows(rest, text))
      || (text != "" && UpperChar(c) == text[|text| - 1] && ShowsUnpadded(rest, text[..|text| - 1]))
      || (c == '=' && Shows(rest, text))
  }

  predicate ShowsUnpadded(secret: string, text: string) {
    if secret == "" then text == ""
    else
      var rest, c := secret[..|secret| - 1], secret[|secret| - 1];
      || ((IsSpace(c) || c == '-') && ShowsUnpadded(rest, text))
      || (text != "" && UpperChar(c) == text[|text| - 1] && ShowsUnpadded(rest, text[..|text| - 1]))
  }

  lemma {:induction false} UnpaddedIsFiltered(secret: string, text: string)
    requires ShowsUnpadded(secret, text) && AllInAlphabet(text)
    ensures Upper(Filtered(secret)) == text
  {
    if secret != "" {
      var rest, c := secret[..|secret| - 1], secret[|secret| - 1];
      if IsSpace(c) || c == '-' {
        assert !InAlphabet(UpperChar(c));
        UnpaddedIsFiltered(rest, text);
      } else {
        UnpaddedIsFiltered(rest, text[..|text| - 1]);
        assert Upper(Filtered(rest) + [c]) == Upper(Filtered(rest)) + [UpperChar(c)];
      }
    }
  }

  lemma {:induction false} ShownIsCleaned(secret: string, text: string)
    requires Shows(secret, text) && AllInAlphabet(text)
    ensures Cleaned(secret) == text
  {
    if secret != "" {
      var rest, c := secret[..|secret| - 1], secret[|secret| - 1];
      if IsSpace(c) || c == '-' {
        assert !InAlphabet(UpperChar(c));
        ShownIsCleaned(rest, text);
      } else if c == '=' {
        assert !InAlphabet(UpperChar(c));
        ShownIsCleaned(rest, text);
        assert (Filtered(rest) + [c])[..|Filtered(rest)|] == Filtered(rest);
      } else {
        UnpaddedIsFiltered(rest, text[..|text| - 1]);
        assert Upper(Filtered(rest) + [c]) == Upper(Filtered(rest)) + [UpperChar(c)];
      }
    }
  }

  lemma EncodedBits(data: seq<Byte>)
    ensures Quintets(Encoded(data)) == Filled(data)
  {
    forall i | 0 <= i < 5 * Letters(|data|)
      ensures Quintets(Encoded(data))[i] == Filled(data)[i]
    {
      EncodedBit(data, i / 5, i % 5);
    }
  }

  lemma EncodedBit(data: seq<Byte>, k: nat, j: nat)
    requires k < Letters(|data|) && j < 5
    ensures HighBits(Value(Encoded(data)[k]), 5)[j] == Filled(data)[5 * k + j]
  {
    var group := Filled(data)[5 * k..5 * k + 5];
    assert Encoded(data)[k] == LetterOf(group);
    assert group[j] == Filled(data)[5 * k + j];
  }

  lemma FilledBytes(data: seq<Byte>)
    ensures Octets(Filled(data)) == data
  {
    forall i | 0 <= i < |data|
      ensures Octets(Filled(data))[i] == data[i]
    {
      FilledByte(data, i);
    }
  }

  lemma FilledByte(data: seq<Byte>, i: nat)
    requires i < |data|
    ensures ByteOf(Filled(data)[8 * i..8 * i + 8]) == data[i]
  {
    var bits := BitString(data);
    assert Filled(data)[8 * i..8 * i + 8] == bits[8 * i..8 * i + 8];
    forall j | 0 <= j < 8
      ensures bits[8 * i..8 * i + 8][j] == HighBits(data[i], 8)[j]
    {
      assert bits[8 * i..8 * i + 8][j] == bits[8 * i + j];
    }
    assert bits[8 * i..8 * i + 8] == HighBits(data[i], 8);
    assert Power2(8) == 256;
    NumberOfHighBits(data[i], 8);
  }

  /** Every way of showing the encoding of a key decodes to the key. */
  lemma RoundTrip(data: seq<Byte>, secret: string)
    requires data != [] && Shows(secret, Encoded(data))
    ensures Decode(secret) == Ok(data)
  {
    ShownIsCleaned(secret, Encoded(data));
    StrayOrNot(Encoded(data));
    EncodedBits(data);
    FilledBytes(data);
  }

  // ----- the alphabet -----

  const ALPHABET: string := "ABCDEFGHIJKLMNOPQRSTUVWXYZ234567"

  /** The letters are those of section 6 of RFC 4648, in their order. */
  lemma AlphabetOrder(c: char)
    ensures InAlphabet(c) <==> exists v :: 0 <= v < 32 && ALPHABET[v] == c
    ensures InAlphabet(c) ==> ALPHABET[Value(c)] == c
  {
    if InAlphabet(c) {
      assert c == Letter(Value(c));
      assert ALPHABET[Value(c)] == c;
    }
  }
}
