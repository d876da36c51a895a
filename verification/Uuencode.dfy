/** One uuencoded line. */
module Uuencode {
  import opened Text
  import opened Bytes

  // ----- three bytes as four sextets -----

  function Nth(data: seq<Byte>, i: nat): Byte {
    if i < |data| then data[i] else 0
  }

  function Sextets(data: seq<Byte>): (sextets: seq<nat>)
    ensures |sextets| == 4
    ensures forall i :: 0 <= i < 4 ==> sextets[i] < 64
  {
    var b0, b1, b2 := Nth(data, 0), Nth(data, 1), Nth(data, 2);
    [b0 / 4, b0 % 4 * 16 + b1 / 16, b1 % 16 * 4 + b2 / 64, b2 % 64]
  }

  function Sextet(c: char): (v: nat)
    ensures v < 64
  {
    if c as int < 32 then 0 else if c as int > 95 then 63 else c as int - 32
  }

  function Shown(sextets: seq<nat>): (s: string)
    requires forall i :: 0 <= i < |sextets| ==> sextets[i] < 64
    ensures |s| == |sextets|
    ensures forall i :: 0 <= i < |s| ==> ' ' <= s[i] < '\U{80}' && Sextet(s[i]) == sextets[i]
  {
    seq(|sextets|, i requires 0 <= i < |sextets| => (32 + sextets[i]) as char)
  }

  function Rest(data: seq<Byte>): seq<Byte> {
    if |data| <= 3 then [] else data[3..]
  }

  function Body(data: seq<Byte>): string
    decreases |data|
  {
    if data == [] then "" else Shown(Sextets(data)) + Body(Rest(data))
  }

  /** `checked` says whether arithmetic that overflows panics; if not it wraps. */
  function Encoded(data: seq<Byte>, checked: bool): Option<string> {
    if data == [] then Some("`\n")
    else if checked && 32 + |data| % 256 > 255 then None
    else Some([((32 + |data| % 256) % 256) as char] + Body(data) + "\n")
  }

  method UuencodeLine(data: seq<Byte>, checked: bool) returns (r: Option<string>)
    ensures r == Encoded(data, checked)
  {
    if data == [] {
      return Some("`\n");
    }
    var first := 32 + |data| % 256;
    if checked && first > 255 {
      return None;
    }
    var body := EncodeBody(data);
    return Some([(first % 256) as char] + body + "\n");
  }

  /** The loop over chunks of three bytes. */
  method EncodeBody(data: seq<Byte>) returns (out: string)
    ensures out == Body(data)
  {
    var left := data;
    out := "";
    while left != []
      invariant Body(data) == out + Body(left)
      decreases |left|
    {
      var b0, b1, b2 := left[0], Nth(left, 1), Nth(left, 2);
      var quad := [(32 + b0 / 4) as char, (32 + (b0 % 4 * 16 + b1 / 16)) as char,
                   (32 + (b1 % 16 * 4 + b2 / 64)) as char, (32 + b2 % 64) as char];
      assert quad == Shown(Sextets(left));
      Regroup(out, quad, Body(Rest(left)));
      out := out + quad;
      left := Rest(left);
    }
    assert out + "" == out;
  }

  // ----- back again -----

  function Triple(group: seq<nat>): (data: seq<Byte>)
    requires |group| == 4 && forall i :: 0 <= i < 4 ==> group[i] < 64
    ensures |data| == 3
  {
    [group[0] * 4 + group[1] / 16, group[1] % 16 * 16 + group[2] / 4, group[2] % 4 * 64 + group[3]]
  }

  /** The first group of four, filled up with zeros. */
  function Group(sextets: seq<nat>): (group: seq<nat>)
    requires forall i :: 0 <= i < |sextets| ==> sextets[i] < 64
    ensures |group| == 4 && forall i :: 0 <= i < 4 ==> group[i] < 64
  {
    seq(4, i requires 0 <= i < 4 => if i < |sextets| then sextets[i] else 0)
  }

  function Groups(sextets: seq<nat>): seq<Byte>
    requires forall i :: 0 <= i < |sextets| ==> sextets[i] < 64
    decreases |sextets|
  {
    if sextets == [] then []
    else Triple(Group(sextets)) + Groups(if |sextets| <= 4 then [] else sextets[4..])
  }

  /** The sextets of the ASCII characters; the others are left out. */
  function Read(line: string): (sextets: seq<nat>)
    ensures forall i :: 0 <= i < |sextets| ==> sextets[i] < 64
  {
    if line == "" then []
    else
      ReadOne(line[0]) + Read(line[1..])
  }

  function ReadOne(c: char): (sextets: seq<nat>)
    ensures forall i :: 0 <= i < |sextets| ==> sextets[i] < 64
  {
    if c < '\U{80}' then [Sextet(c)] else []
  }

  function Truncated(data: seq<Byte>, length: nat): seq<Byte> {
    if length < |data| then data[..length] else data
  }

  const U32_LIMIT: nat := 0x1_0000_0000

  function Decoded(line: string, checked: bool): Option<seq<Byte>> {
    if line == "" then Some([])
    else if checked && line[0] < ' ' then None
    else
      var length := (line[0] as int - 32) % U32_LIMIT;
      Some(Truncated(Groups(Read(line[1..])), length))
  }

  method UudecodeLine(line: string, checked: bool) returns (r: Option<seq<Byte>>)
    ensures r == Decoded(line, checked)
  {
    if line == "" {
      return Some([]);
    }
    if checked && line[0] < ' ' {
      return None;
    }
    var length := (line[0] as int - 32) % U32_LIMIT;
    var bytes := Read(line[1..]);
    var decoded: seq<Byte>, left := [], bytes;
    while left != []
      invariant forall i :: 0 <= i < |left| ==> left[i] < 64
      invariant Groups(bytes) == decoded + Groups(left)
      decreases |left|
    {
      var group := Group(left);
      var triple: seq<Byte> := [group[0] * 4 + group[1] / 16, group[1] % 16 * 16 + group[2] / 4, group[2] % 4 * 64 + group[3]];
      ghost var rest := if |left| <= 4 then [] else left[4..];
      assert triple == Triple(group);
      Regroup(decoded, triple, Groups(rest));
      decoded := decoded + triple;
      left := if |left| <= 4 then [] else left[4..];
    }
    assert decoded + [] == decoded;
    return Some(Truncated(decoded, length));
  }

  // ----- the round trip -----

  function Padding(n: nat): (zeros: seq<Byte>)
    ensures |zeros| == (3 - n % 3) % 3 && forall i :: 0 <= i < |zeros| ==> zeros[i] == 0
  {
    seq((3 - n % 3) % 3, _ => 0)
  }

  lemma {:induction false} ReadOn(a: string, b: string)
    ensures Read(a + b) == Read(a) + Read(b)
  {
    if a == "" {
      assert a + b == b;
    } else {
      assert (a + b)[0] == a[0] && (a + b)[1..] == a[1..] + b;
      ReadOn(a[1..], b);
      Regroup(ReadOne(a[0]), Read(a[1..]), Read(b));
    }
  }

  lemma {:induction false} ReadShown(sextets: seq<nat>)
    requires forall i :: 0 <= i < |sextets| ==> sextets[i] < 64
    ensures Read(Shown(sextets)) == sextets
  {
    if sextets != [] {
      ReadShown(sextets[1..]);
      assert Shown(sextets)[1..] == Shown(sextets[1..]);
    }
  }

  lemma TripleOfSextets(data: seq<Byte>)
    ensures Triple(Sextets(data)) == [Nth(data, 0), Nth(data, 1), Nth(data, 2)]
  {
  }

  /** The body decodes to the data and zeros up to a multiple of three, whatever
      follows it. */
  lemma {:induction false} BodyDecodes(data: seq<Byte>, rest: seq<nat>)
    requires forall i :: 0 <= i < |rest| ==> rest[i] < 64
    ensures Groups(Read(Body(data)) + rest) == data + Padding(|data|) + Groups(rest)
    decreases |data|
  {
    if data == [] {
      assert Read(Body(data)) + rest == rest;
    } else {
      var s, tail := Sextets(data), Read(Body(Rest(data))) + rest;
      ReadOn(Shown(s), Body(Rest(data)));
      ReadShown(s);
      Regroup(s, Read(Body(Rest(data))), rest);
      GroupsOn(s, tail);
      TripleOfSextets(data);
      BodyDecodes(Rest(data), rest);
      Pieces(data);
      Regroup([Nth(data, 0), Nth(data, 1), Nth(data, 2)], Rest(data) + Padding(|Rest(data)|), Groups(rest));
    }
  }

  lemma GroupsOn(s: seq<nat>, tail: seq<nat>)
    requires |s| == 4 && (forall i :: 0 <= i < 4 ==> s[i] < 64) && (forall i :: 0 <= i < |tail| ==> tail[i] < 64)
    ensures Groups(s + tail) == Triple(s) + Groups(tail)
  {
    assert Group(s + tail) == s;
    assert |s + tail| > 4 ==> (s + tail)[4..] == tail;
    assert |s + tail| <= 4 ==> tail == [];
  }

  lemma Pieces(data: seq<Byte>)
    requires data != []
    ensures [Nth(data, 0), Nth(data, 1), Nth(data, 2)] + (Rest(data) + Padding(|Rest(data)|)) == data + Padding(|data|)
  {
  }

  /** What comes back of a line: of the data, its zero padding and the three zeros that
      the line feed stands for, as many bytes as the first character says. */
  lemma LineDecodes(data: seq<Byte>, checked: bool)
    requires data != [] && Encoded(data, checked).Some?
    ensures var first := (32 + |data| % 256) % 256;
            Decoded(Encoded(data, checked).value, checked)
            == if checked && first < 32 then None
               else Some(Truncated(data + (Padding(|data|) + [0, 0, 0]), (first - 32) % U32_LIMIT))
  {
    hide Body, Groups, Read;
    var line := Encoded(data, checked).value;
    assert line[1..] == Body(data) + "\n";
    RestDecodes(data);
  }

  lemma RestDecodes(data: seq<Byte>)
    ensures Groups(Read(Body(data) + "\n")) == data + (Padding(|data|) + [0, 0, 0])
  {
    LineFeedIsZeros();
    ReadOn(Body(data), "\n");
    BodyDecodes(data, [0]);
    Regroup(data, Padding(|data|), [0, 0, 0]);
  }

  lemma LineFeedIsZeros()
    ensures Read("\n") == [0] && Groups([0]) == [0, 0, 0]
  {
    assert "\n"[1..] == "";
    assert Group([0]) == [0, 0, 0, 0];
  }

  /** How much of the padded data a line gives back. */
  lemma HowMuchComesBack(n: nat, checked: bool)
    requires n > 0 && !(checked && 32 + n % 256 > 255)
    ensures var first := (32 + n % 256) % 256;
            var length := (first - 32) % U32_LIMIT;
            (!(checked && first < 32) && length == n) <==> (n <= 223 || (!checked && U32_LIMIT - 32 <= n < U32_LIMIT))
  {
  }

  lemma TruncatedTo(data: seq<Byte>, more: seq<Byte>, length: nat)
    requires more != []
    ensures Truncated(data + more, length) == data <==> length == |data|
  {
    if length == |data| {
      assert (data + more)[..length] == data;
    } else {
      assert |Truncated(data + more, length)| != |data|;
    }
  }

  /** A line round trips exactly for 1 to 223 bytes: beyond that its first character
      cannot hold the length, and no bytes at all come back as three zeros. Arithmetic
      that wraps adds the 32 lengths just below 2^32, whose wrapped length is right. */
  lemma RoundTripIff(data: seq<Byte>, checked: bool)
    ensures (Encoded(data, checked).Some? && Decoded(Encoded(data, checked).value, checked) == Some(data))
       <==> (1 <= |data| <= 223 || (!checked && U32_LIMIT - 32 <= |data| < U32_LIMIT))
  {
    if data == [] {
      EmptyDecodesToZeros(checked);
    } else if Encoded(data, checked).Some? {
      LineDecodes(data, checked);
      HowMuchComesBack(|data|, checked);
      TruncatedTo(data, Padding(|data|) + [0, 0, 0], ((32 + |data| % 256) % 256 - 32) % U32_LIMIT);
    }
  }

  lemma EmptyDecodesToZeros(checked: bool)
    ensures Decoded(Encoded([], checked).value, checked) == Some([0, 0, 0])
  {
    assert "`\n"[1..] == "\n";
    LineFeedIsZeros();
  }

  /** Below the alphabet a character counts as its first, above it as its last, and
      beyond ASCII not at all. */
  lemma CharactersRead(c: char)
    ensures if c >= '\U{80}' then ReadOne(c) == []
            else |ReadOne(c)| == 1 && Shown(ReadOne(c)) == [if c < ' ' then ' ' else if c > '_' then '_' else c]
  {
  }

  /** Three bytes and their four characters, as in the classic example. */
  lemma CatIsShown()
    ensures Encoded(['C' as int, 'a' as int, 't' as int], true) == Some("#0V%T\n")
  {
    var cat := ['C' as int, 'a' as int, 't' as int];
    assert Rest(cat) == [] && Body([]) == "";
    assert Sextets(cat) == [16, 54, 5, 52];
    assert Shown([16, 54, 5, 52]) == "0V%T";
    assert Body(cat) == "0V%T" + "" == "0V%T";
    assert ['#'] + "0V%T" + "\n" == "#0V%T\n";
  }
}
