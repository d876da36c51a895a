/** Quoted-printable text: the encoder with its pending blanks, and the decoder. */
module QuotedPrintable {
  import opened Text
  import opened Bytes

  const TAB: Byte := 9
  const LF: Byte := 10
  const CR: Byte := 13
  const SPACE: Byte := 32
  const PLUS: Byte := 43
  const EQUALS: Byte := 61

  predicate Blank(b: Byte) {
    b == SPACE || b == TAB
  }

  // ----- what is written -----

  datatype Token = Plain(byte: Byte) | Escaped(byte: Byte) | SoftBreak

  function Written(token: Token): (text: seq<Byte>)
    ensures |text| == if token.Plain? then 1 else 3
  {
    match token
    case Plain(byte) => [byte]
    case Escaped(byte) => [EQUALS, HexDigit(byte / 16), HexDigit(byte % 16)]
    case SoftBreak => [EQUALS, CR, LF]
  }

  function WrittenAll(tokens: seq<Token>): seq<Byte> {
    if tokens == [] then [] else WrittenAll(tokens[..|tokens| - 1]) + Written(tokens[|tokens| - 1])
  }

  /** The bytes that the tokens stand for. */
  function Meaning(tokens: seq<Token>): seq<Byte> {
    if tokens == [] then []
    else
      var rest, last := Meaning(tokens[..|tokens| - 1]), tokens[|tokens| - 1];
      if last.SoftBreak? then rest else rest + [last.byte]
  }

  // ----- the encoder -----

  datatype Encoder = Encoder(tokens: seq<Token>, lineLength: nat, pending: seq<Byte>)

  const FRESH := Encoder([], 0, [])

  function Plains(bytes: seq<Byte>): (tokens: seq<Token>)
    ensures |tokens| == |bytes|
  {
    seq(|bytes|, i requires 0 <= i < |bytes| => Plain(bytes[i]))
  }

  /** A single pending blank is escaped, several are written as they are. */
  function Flush(e: Encoder): Encoder {
    if |e.pending| == 1 then Encoder(e.tokens + [Escaped(e.pending[0])], e.lineLength + 3, [])
    else Encoder(e.tokens + Plains(e.pending), e.lineLength + |e.pending|, [])
  }

  function TokenOf(byte: Byte, istext: bool): Token {
    if byte != EQUALS && (0x21 <= byte <= 0x7e || (byte == CR && istext)) then Plain(byte) else Escaped(byte)
  }

  function Newline(e: Encoder): Encoder {
    Encoder(Flush(e).tokens + [Plain(LF)], 0, [])
  }

  function Break(e: Encoder): Encoder {
    Encoder(Flush(e).tokens + [SoftBreak], 0, [])
  }

  function Put(e: Encoder, token: Token): Encoder {
    Encoder(e.tokens + [token], e.lineLength + |Written(token)|, e.pending)
  }

  function Feed(e: Encoder, byte: Byte, quotetabs: bool, istext: bool): Encoder {
    if byte == LF && istext then Newline(e)
    else if Blank(byte) && !quotetabs then e.(pending := e.pending + [byte])
    else
      var token := TokenOf(byte, istext);
      Put(if e.lineLength + |Written(token)| > 75 then Break(e) else e, token)
  }

  function FeedAll(data: seq<Byte>, quotetabs: bool, istext: bool): Encoder {
    if data == [] then FRESH
    else Feed(FeedAll(data[..|data| - 1], quotetabs, istext), data[|data| - 1], quotetabs, istext)
  }

  function Tokens(data: seq<Byte>, quotetabs: bool, istext: bool): seq<Token> {
    Flush(FeedAll(data, quotetabs, istext)).tokens
  }

  predicate AllBlank(bytes: seq<Byte>) {
    forall i :: 0 <= i < |bytes| ==> Blank(bytes[i])
  }

  /** The variables of the loop are those of `e`. */
  ghost predicate Mirrors(e: Encoder, out: seq<Byte>, lineLength: nat, pending: seq<Byte>) {
    out == WrittenAll(e.tokens) && lineLength == e.lineLength && pending == e.pending
  }

  method FlushPending(out: seq<Byte>, lineLength: nat, pending: seq<Byte>, ghost e: Encoder)
    returns (out': seq<Byte>, lineLength': nat)
    requires Mirrors(e, out, lineLength, pending) && (|pending| == 1 ==> Blank(pending[0]))
    ensures Mirrors(Flush(e), out', lineLength', [])
  {
    if |pending| == 1 {
      WrittenOne(e.tokens, Escaped(pending[0]));
      var encoded := if pending[0] == SPACE then [EQUALS, 50, 48] else [EQUALS, 48, 57];
      return out + encoded, lineLength + 3;
    }
    out', lineLength' := out, lineLength;
    for i := 0 to |pending|
      invariant lineLength' == lineLength + i && out' == out + pending[..i]
    {
      out', lineLength' := out' + [pending[i]], lineLength' + 1;
    }
    assert pending[..|pending|] == pending;
    WrittenPlains(e.tokens, pending);
  }

  method Encode(data: seq<Byte>, quotetabs: bool, istext: bool) returns (out: seq<Byte>)
    ensures out == WrittenAll(Tokens(data, quotetabs, istext))
  {
    out := [];
    var lineLength: nat, pending := 0, [];
    ghost var e := FRESH;
    for i := 0 to |data|
      invariant e == FeedAll(data[..i], quotetabs, istext)
      invariant Mirrors(e, out, lineLength, pending) && (|pending| == 1 ==> Blank(pending[0]))
    {
      var byte := data[i];
      FeedNext(data, i, quotetabs, istext);
      if byte == LF && istext {
        out, lineLength := FlushPending(out, lineLength, pending, e);
        EndsLine(e, Plain(LF), out, lineLength);
        out, lineLength, pending := out + [LF], 0, [];
        e := Newline(e);
      } else if Blank(byte) && !quotetabs {
        pending := pending + [byte];
        e := e.(pending := pending);
      } else {
        var token := Written(TokenOf(byte, istext));
        if lineLength + |token| > 75 {
          out, lineLength := FlushPending(out, lineLength, pending, e);
          EndsLine(e, SoftBreak, out, lineLength);
          out, lineLength, pending := out + [EQUALS, CR, LF], 0, [];
          e := Break(e);
        }
        Puts(e, TokenOf(byte, istext), out, lineLength, pending);
        out, lineLength := out + token, lineLength + |token|;
        e := Put(e, TokenOf(byte, istext));
      }
    }
    assert data[..|data|] == data;
    out, lineLength := FlushPending(out, lineLength, pending, e);
  }

  lemma EndsLine(e: Encoder, end: Token, out: seq<Byte>, lineLength: nat)
    requires Mirrors(Flush(e), out, lineLength, [])
    ensures Mirrors(Encoder(Flush(e).tokens + [end], 0, []), out + Written(end), 0, [])
  {
    WrittenOne(Flush(e).tokens, end);
  }

  lemma Puts(e: Encoder, token: Token, out: seq<Byte>, lineLength: nat, pending: seq<Byte>)
    requires Mirrors(e, out, lineLength, pending)
    ensures Mirrors(Put(e, token), out + Written(token), lineLength + |Written(token)|, pending)
  {
    WrittenOne(e.tokens, token);
  }

  lemma FeedNext(data: seq<Byte>, i: nat, quotetabs: bool, istext: bool)
    requires i < |data|
    ensures FeedAll(data[..i + 1], quotetabs, istext)
         == Feed(FeedAll(data[..i], quotetabs, istext), data[i], quotetabs, istext)
  {
    assert data[..i + 1][..i] == data[..i];
  }

  lemma PlainsOn(tokens: seq<Token>, bytes: seq<Byte>)
    requires bytes != []
    ensures tokens + Plains(bytes) == tokens + Plains(bytes[..|bytes| - 1]) + [Plain(bytes[|bytes| - 1])]
    ensures bytes == bytes[..|bytes| - 1] + [bytes[|bytes| - 1]]
  {
  }

  lemma WrittenOne(tokens: seq<Token>, token: Token)
    ensures WrittenAll(tokens + [token]) == WrittenAll(tokens) + Written(token)
  {
    assert (tokens + [token])[..|tokens|] == tokens;
  }

  lemma {:induction false} WrittenPlains(tokens: seq<Token>, bytes: seq<Byte>)
    ensures WrittenAll(tokens + Plains(bytes)) == WrittenAll(tokens) + bytes
    decreases |bytes|
  {
    if bytes == [] {
      assert tokens + Plains(bytes) == tokens;
    } else {
      var front, last := bytes[..|bytes| - 1], bytes[|bytes| - 1];
      WrittenPlains(tokens, front);
      PlainsOn(tokens, bytes);
      WrittenOne(tokens + Plains(front), Plain(last));
      Regroup(WrittenAll(tokens), front, [last]);
    }
  }

  // ----- the decoder -----

  /** `u8::from_str_radix` on two bytes of text: a leading `+` is a sign. */
  function HexPair(high: Byte, low: Byte): Option<Byte> {
    if HexValue(low).None? then None
    else if high == PLUS then Some(HexValue(low).value)
    else if HexValue(high).None? then None
    else Some(16 * HexValue(high).value + HexValue(low).value)
  }

  /** The bytes that the text starts with stand for, and how many they are. */
  function First(text: seq<Byte>): (r: (seq<Byte>, nat))
    requires text != []
    ensures 1 <= r.1 <= |text|
  {
    if text[0] != EQUALS then ([text[0]], 1)
    else if |text| >= 2 && (text[1] == LF || text[1] == CR) then
      ([], if text[1] == CR && |text| >= 3 && text[2] == LF then 3 else 2)
    else if |text| >= 3 && HexPair(text[1], text[2]).Some? then ([HexPair(text[1], text[2]).value], 3)
    else ([EQUALS], 1)
  }

  function Decoded(text: seq<Byte>): seq<Byte> {
    if text == [] then [] else First(text).0 + Decoded(text[First(text).1..])
  }

  /** `First` by the index of the loop. */
  lemma FirstAt(bytes: seq<Byte>, index: nat)
    requires index < |bytes|
    ensures First(bytes[index..]) ==
      if bytes[index] != EQUALS then ([bytes[index]], 1)
      else if index + 1 < |bytes| && (bytes[index + 1] == LF || bytes[index + 1] == CR) then
        ([], if bytes[index + 1] == CR && index + 2 < |bytes| && bytes[index + 2] == LF then 3 else 2)
      else if index + 2 < |bytes| && HexPair(bytes[index + 1], bytes[index + 2]).Some? then
        ([HexPair(bytes[index + 1], bytes[index + 2]).value], 3)
      else ([EQUALS], 1)
  {
  }

  /** What is left to decode after `out`. */
  ghost predicate Leaves(bytes: seq<Byte>, out: seq<Byte>, index: nat) {
    index <= |bytes| && Decoded(bytes) == out + Decoded(bytes[index..])
  }

  lemma DecodesStep(bytes: seq<Byte>, out: seq<Byte>, index: nat)
    requires index < |bytes| && Leaves(bytes, out, index)
    ensures var (read, size) := First(bytes[index..]); Leaves(bytes, out + read, index + size)
  {
    var (read, size) := First(bytes[index..]);
    assert bytes[index..][size..] == bytes[index + size..];
    Regroup(out, read, Decoded(bytes[index + size..]));
  }

  method Decode(bytes: seq<Byte>) returns (out: seq<Byte>)
    ensures out == Decoded(bytes)
  {
    out := [];
    var index := 0;
    assert bytes[0..] == bytes;
    while index < |bytes|
      invariant Leaves(bytes, out, index)
    {
      DecodesStep(bytes, out, index);
      FirstAt(bytes, index);
      if bytes[index] != EQUALS {
        out, index := out + [bytes[index]], index + 1;
        continue;
      }
      if index + 1 < |bytes| && (bytes[index + 1] == LF || bytes[index + 1] == CR) {
        assert out + [] == out;
        index := index + if bytes[index + 1] == CR && index + 2 < |bytes| && bytes[index + 2] == LF then 3 else 2;
        continue;
      }
      if index + 2 < |bytes| {
        var pair := HexPair(bytes[index + 1], bytes[index + 2]);
        if pair.Some? {
          out, index := out + [pair.value], index + 3;
          continue;
        }
      }
      out, index := out + [EQUALS], index + 1;
    }
  }

  // ----- decoding what was encoded -----

  predicate Readable(token: Token) {
    token.Plain? ==> token.byte != EQUALS
  }

  predicate AllReadable(tokens: seq<Token>) {
    forall i :: 0 <= i < |tokens| ==> Readable(tokens[i])
  }

  function MeaningOne(token: Token): seq<Byte> {
    if token.SoftBreak? then [] else [token.byte]
  }

  lemma ReadsFirst(token: Token, rest: seq<Byte>)
    requires Readable(token)
    ensures Decoded(Written(token) + rest) == MeaningOne(token) + Decoded(rest)
  {
    var text := Written(token) + rest;
    assert text[First(text).1..] == rest;
  }

  lemma MeaningOn(tokens: seq<Token>, token: Token)
    ensures Meaning(tokens + [token]) == Meaning(tokens) + MeaningOne(token)
  {
    assert (tokens + [token])[..|tokens|] == tokens;
  }

  lemma {:induction false} DecodesOn(tokens: seq<Token>, rest: seq<Byte>)
    requires AllReadable(tokens)
    ensures Decoded(WrittenAll(tokens) + rest) == Meaning(tokens) + Decoded(rest)
    decreases |tokens|
  {
    if tokens == [] {
      assert WrittenAll(tokens) + rest == rest;
    } else {
      var front, last := tokens[..|tokens| - 1], tokens[|tokens| - 1];
      Regroup(WrittenAll(front), Written(last), rest);
      DecodesOn(front, Written(last) + rest);
      ReadsFirst(last, rest);
      Regroup(Meaning(front), MeaningOne(last), Decoded(rest));
    }
  }

  /** Whatever the encoder was told, its tokens are read back as they are. */
  lemma TokensAreRead(data: seq<Byte>, quotetabs: bool, istext: bool)
    ensures Decoded(WrittenAll(Tokens(data, quotetabs, istext))) == Meaning(Tokens(data, quotetabs, istext))
  {
    FedIsReadable(data, quotetabs, istext);
    var tokens := Tokens(data, quotetabs, istext);
    DecodesOn(tokens, []);
    assert WrittenAll(tokens) + [] == WrittenAll(tokens);
  }

  lemma {:induction false} FedIsReadable(data: seq<Byte>, quotetabs: bool, istext: bool)
    ensures var e := FeedAll(data, quotetabs, istext); AllReadable(e.tokens) && AllBlank(e.pending)
  {
    if data != [] {
      FedIsReadable(data[..|data| - 1], quotetabs, istext);
    }
  }

  lemma {:induction false} MeaningOfPlains(tokens: seq<Token>, bytes: seq<Byte>)
    ensures Meaning(tokens + Plains(bytes)) == Meaning(tokens) + bytes
    decreases |bytes|
  {
    if bytes == [] {
      assert tokens + Plains(bytes) == tokens;
    } else {
      var front, last := bytes[..|bytes| - 1], bytes[|bytes| - 1];
      MeaningOfPlains(tokens, front);
      PlainsOn(tokens, bytes);
      MeaningOn(tokens + Plains(front), Plain(last));
      Regroup(Meaning(tokens), front, [last]);
    }
  }

  lemma FlushMeans(e: Encoder)
    ensures Meaning(Flush(e).tokens) == Meaning(e.tokens) + e.pending
  {
    if |e.pending| == 1 {
      MeaningOn(e.tokens, Escaped(e.pending[0]));
    } else {
      MeaningOfPlains(e.tokens, e.pending);
    }
  }

  /** A byte is written while blanks before it are still pending, and no soft break
      writes them first. */
  predicate Overtakes(e: Encoder, byte: Byte, quotetabs: bool, istext: bool) {
    && e.pending != []
    && !(byte == LF && istext) && !(Blank(byte) && !quotetabs)
    && e.lineLength + |Written(TokenOf(byte, istext))| <= 75
  }

  /** No blank is overtaken by a later byte. */
  predicate InOrder(data: seq<Byte>, quotetabs: bool, istext: bool) {
    data == [] ||
    (var front := data[..|data| - 1];
     InOrder(front, quotetabs, istext)
     && !Overtakes(FeedAll(front, quotetabs, istext), data[|data| - 1], quotetabs, istext))
  }

  /** What the encoder has written and what it holds back. */
  function Held(e: Encoder): seq<Byte> {
    Meaning(e.tokens) + e.pending
  }

  /** What the encoder has written and what it holds back are the data so far. */
  lemma {:induction false} FedInOrder(data: seq<Byte>, quotetabs: bool, istext: bool)
    requires InOrder(data, quotetabs, istext)
    ensures Held(FeedAll(data, quotetabs, istext)) == data
  {
    if data != [] {
      var front, byte := data[..|data| - 1], data[|data| - 1];
      assert data == front + [byte];
      FedInOrder(front, quotetabs, istext);
      var e := FeedAll(front, quotetabs, istext);
      assert Held(FeedAll(data, quotetabs, istext)) == Held(e) + [byte] by {
        FeedInOrder(e, byte, quotetabs, istext);
      }
    }
  }

  lemma FeedInOrder(e: Encoder, byte: Byte, quotetabs: bool, istext: bool)
    requires !Overtakes(e, byte, quotetabs, istext)
    ensures Held(Feed(e, byte, quotetabs, istext)) == Held(e) + [byte]
  {
    FlushMeans(e);
    if byte == LF && istext {
      MeaningOn(Flush(e).tokens, Plain(LF));
    } else if Blank(byte) && !quotetabs {
      Regroup(Meaning(e.tokens), e.pending, [byte]);
    } else {
      FeedToken(e, byte, quotetabs, istext);
    }
  }

  lemma FeedToken(e: Encoder, byte: Byte, quotetabs: bool, istext: bool)
    requires !(byte == LF && istext) && !(Blank(byte) && !quotetabs)
    ensures var next := Feed(e, byte, quotetabs, istext);
            if e.lineLength + |Written(TokenOf(byte, istext))| > 75
            then Meaning(next.tokens) == Held(e) + [byte] && next.pending == []
            else Meaning(next.tokens) == Meaning(e.tokens) + [byte] && next.pending == e.pending
  {
    var token := TokenOf(byte, istext);
    if e.lineLength + |Written(token)| > 75 {
      FlushMeans(e);
      MeaningOn(Flush(e).tokens, SoftBreak);
      MeaningOn(Flush(e).tokens + [SoftBreak], token);
    } else {
      MeaningOn(e.tokens, token);
    }
  }

  lemma WrittenStays(e: Encoder, byte: Byte, quotetabs: bool, istext: bool)
    ensures Meaning(e.tokens) <= Meaning(Feed(e, byte, quotetabs, istext).tokens)
  {
    FlushMeans(e);
    if byte == LF && istext {
      MeaningOn(Flush(e).tokens, Plain(LF));
    } else if !(Blank(byte) && !quotetabs) {
      FeedToken(e, byte, quotetabs, istext);
    }
  }

  /** Once a blank is overtaken, the byte written in its place differs from it. */
  lemma {:induction false} FedOutOfOrder(data: seq<Byte>, quotetabs: bool, istext: bool) returns (k: nat)
    requires !InOrder(data, quotetabs, istext)
    ensures k < |Meaning(FeedAll(data, quotetabs, istext).tokens)| && k < |data|
    ensures Meaning(FeedAll(data, quotetabs, istext).tokens)[k] != data[k]
  {
    var front, byte := data[..|data| - 1], data[|data| - 1];
    var e := FeedAll(front, quotetabs, istext);
    if InOrder(front, quotetabs, istext) {
      FedInOrder(front, quotetabs, istext);
      FedIsReadable(front, quotetabs, istext);
      PendingIsUnquoted(front, quotetabs, istext);
      FeedToken(e, byte, quotetabs, istext);
      k := |Meaning(e.tokens)|;
      assert Held(e)[k] == e.pending[0] == data[k];
    } else {
      WrittenStays(e, byte, quotetabs, istext);
      k := FedOutOfOrder(front, quotetabs, istext);
      assert data[k] == front[k];
    }
  }

  lemma {:induction false} PendingIsUnquoted(data: seq<Byte>, quotetabs: bool, istext: bool)
    ensures quotetabs ==> FeedAll(data, quotetabs, istext).pending == []
  {
    if data != [] {
      PendingIsUnquoted(data[..|data| - 1], quotetabs, istext);
    }
  }

  /** Decoding undoes encoding exactly when no blank is overtaken. */
  lemma RoundTripIff(data: seq<Byte>, quotetabs: bool, istext: bool)
    ensures Decoded(WrittenAll(Tokens(data, quotetabs, istext))) == data <==> InOrder(data, quotetabs, istext)
  {
    TokensAreRead(data, quotetabs, istext);
    FlushMeans(FeedAll(data, quotetabs, istext));
    if InOrder(data, quotetabs, istext) {
      FedInOrder(data, quotetabs, istext);
    } else {
      var k := FedOutOfOrder(data, quotetabs, istext);
    }
  }

  // ----- in order, said of the data alone -----

  predicate EndsText(byte: Byte, istext: bool) {
    byte == LF && istext
  }

  /** How much of the line after the last line feed of text is written as tokens. */
  function LineWidth(data: seq<Byte>, istext: bool): nat {
    if data == [] || EndsText(data[|data| - 1], istext) then 0
    else
      var rest, byte := LineWidth(data[..|data| - 1], istext), data[|data| - 1];
      if Blank(byte) then rest else rest + |Written(TokenOf(byte, istext))|
  }

  /** No line needs a soft break. */
  predicate Unbroken(data: seq<Byte>, istext: bool) {
    data == [] || (Unbroken(data[..|data| - 1], istext) && LineWidth(data, istext) <= 75)
  }

  predicate MayFollow(before: Byte, byte: Byte, istext: bool) {
    Blank(before) ==> Blank(byte) || EndsText(byte, istext)
  }

  /** Behind a blank stands another blank, a line feed of text, or nothing. */
  predicate BlanksEndLines(data: seq<Byte>, istext: bool) {
    forall i, j :: 0 <= i < |data| && 0 <= j < |data| && j == i + 1 ==> MayFollow(data[i], data[j], istext)
  }

  lemma BlanksOn(data: seq<Byte>, byte: Byte, istext: bool)
    ensures BlanksEndLines(data + [byte], istext)
       <==> BlanksEndLines(data, istext)
            && (data != [] ==> MayFollow(data[|data| - 1], byte, istext))
  {
    var all := data + [byte];
    if BlanksEndLines(all, istext) {
      forall i, j | 0 <= i < j < |data| && j == i + 1
        ensures MayFollow(data[i], data[j], istext)
      {
        assert MayFollow(all[i], all[j], istext);
      }
      assert data != [] ==> MayFollow(all[|data| - 1], all[|data|], istext);
    }
  }

  lemma {:induction false} FedUnbroken(data: seq<Byte>, istext: bool)
    requires Unbroken(data, istext)
    ensures var e := FeedAll(data, false, istext);
            && e.lineLength == LineWidth(data, istext)
            && (data != [] && Blank(data[|data| - 1]) ==> e.pending != [])
            && (BlanksEndLines(data, istext) && e.pending != [] ==> data != [] && Blank(data[|data| - 1]))
  {
    hide BlanksEndLines, TokenOf, HexDigit, Plains;
    if data != [] {
      var front, byte := data[..|data| - 1], data[|data| - 1];
      assert data == front + [byte];
      FedUnbroken(front, istext);
      BlanksOn(front, byte, istext);
    }
  }

  /** Where no line needs a soft break, the order is kept exactly when every run of
      blanks ends a line of text or the data. */
  lemma {:induction false} InOrderOnShortLines(data: seq<Byte>, istext: bool)
    requires Unbroken(data, istext)
    ensures InOrder(data, false, istext) <==> BlanksEndLines(data, istext)
  {
    hide TokenOf, FeedAll;
    if data != [] {
      var front, byte := data[..|data| - 1], data[|data| - 1];
      assert data == front + [byte];
      InOrderOnShortLines(front, istext);
      FedUnbroken(front, istext);
      BlanksOn(front, byte, istext);
    }
  }

  /** A space before a letter is written after it: `" a"` comes back as `"a "`. */
  lemma SpaceIsOvertaken()
    ensures !InOrder([SPACE, 97], false, true)
    ensures Decoded(WrittenAll(Tokens([SPACE, 97], false, true))) != [SPACE, 97]
  {
    var data := [SPACE, 97];
    assert data[..1] == [SPACE] && data[..1][..0] == [];
    assert FeedAll(data[..1], false, true) == Encoder([], 0, [SPACE]);
    RoundTripIff(data, false, true);
  }

  lemma {:induction false} QuotedIsInOrder(data: seq<Byte>, istext: bool)
    ensures InOrder(data, true, istext)
  {
    if data != [] {
      QuotedIsInOrder(data[..|data| - 1], istext);
      PendingIsUnquoted(data[..|data| - 1], true, istext);
    }
  }

  /** With blanks quoted every byte string comes back, as text or not. */
  lemma RoundTrip(data: seq<Byte>, istext: bool)
    ensures Decoded(WrittenAll(Tokens(data, true, istext))) == data
  {
    QuotedIsInOrder(data, istext);
    RoundTripIff(data, true, istext);
  }

  // ----- line lengths -----

  /** How far a text is past its last line feed. */
  function Column(text: seq<Byte>): nat {
    if text == [] || text[|text| - 1] == LF then 0 else Column(text[..|text| - 1]) + 1
  }

  /** No line is longer than 76 bytes, the carriage return of its line break aside
      (section 6.7 of RFC 2045). */
  ghost predicate LinesFit(text: seq<Byte>) {
    text == [] ||
    (&& LinesFit(text[..|text| - 1])
     && (Column(text) <= 76 || (Column(text) == 77 && text[|text| - 1] == CR)))
  }

  lemma FitsOn(text: seq<Byte>, byte: Byte)
    requires LinesFit(text) && (Column(text) <= 75 || byte == LF || (Column(text) == 76 && byte == CR))
    ensures LinesFit(text + [byte]) && Column(text + [byte]) == if byte == LF then 0 else Column(text) + 1
  {
    assert (text + [byte])[..|text|] == text;
  }

  lemma TokenFits(text: seq<Byte>, token: Token)
    requires LinesFit(text) && Column(text) <= 75
    requires !token.SoftBreak? ==> Column(text) + |Written(token)| <= 75 || token == Plain(LF)
    ensures LinesFit(text + Written(token))
    ensures Column(text + Written(token))
         == if token.SoftBreak? || token == Plain(LF) then 0 else Column(text) + |Written(token)|
  {
    match token
    case Plain(byte) => FitsOn(text, byte);
    case Escaped(byte) => ThreeFit(text, EQUALS, HexDigit(byte / 16), HexDigit(byte % 16));
    case SoftBreak => ThreeFit(text, EQUALS, CR, LF);
  }

  lemma ThreeFit(text: seq<Byte>, a: Byte, b: Byte, c: Byte)
    requires LinesFit(text) && a != LF && b != LF && Column(text) <= 75
    requires Column(text) <= 72 || (b == CR && c == LF)
    ensures LinesFit(text + [a, b, c])
    ensures Column(text + [a, b, c]) == if c == LF then 0 else Column(text) + 3
  {
    FitsOn(text, a);
    FitsOn(text + [a], b);
    FitsOn(text + [a] + [b], c);
    assert text + [a, b, c] == text + [a] + [b] + [c];
  }

  lemma {:induction false} FedLinesFit(data: seq<Byte>, istext: bool)
    ensures Aligned(FeedAll(data, true, istext))
  {
    if data != [] {
      var front, byte := data[..|data| - 1], data[|data| - 1];
      FedLinesFit(front, istext);
      FeedLinesFit(FeedAll(front, true, istext), byte, istext);
    }
  }

  /** The encoder is at the column it counts, with room for a soft break. */
  ghost predicate Aligned(e: Encoder) {
    && e.pending == []
    && LinesFit(WrittenAll(e.tokens)) && Column(WrittenAll(e.tokens)) == e.lineLength <= 75
  }

  lemma BreakFits(e: Encoder)
    requires Aligned(e)
    ensures Aligned(Break(e)) && Break(e).lineLength == 0
  {
    assert Flush(e).tokens == e.tokens;
    WrittenOne(e.tokens, SoftBreak);
    TokenFits(WrittenAll(e.tokens), SoftBreak);
  }

  lemma PutFits(e: Encoder, token: Token)
    requires Aligned(e) && !token.SoftBreak? && token != Plain(LF) && e.lineLength + |Written(token)| <= 75
    ensures Aligned(Put(e, token))
  {
    WrittenOne(e.tokens, token);
    TokenFits(WrittenAll(e.tokens), token);
  }

  lemma FeedLinesFit(e: Encoder, byte: Byte, istext: bool)
    requires Aligned(e)
    ensures Aligned(Feed(e, byte, true, istext))
  {
    if byte == LF && istext {
      assert Flush(e).tokens == e.tokens;
      WrittenOne(e.tokens, Plain(LF));
      TokenFits(WrittenAll(e.tokens), Plain(LF));
    } else {
      var token := TokenOf(byte, istext);
      if e.lineLength + |Written(token)| > 75 {
        BreakFits(e);
        PutFits(Break(e), token);
      } else {
        PutFits(e, token);
      }
    }
  }

  lemma QuotedLinesFit(data: seq<Byte>, istext: bool)
    ensures LinesFit(WrittenAll(Tokens(data, true, istext)))
  {
    FedLinesFit(data, istext);
    PendingIsUnquoted(data, true, istext);
    var e := FeedAll(data, true, istext);
    assert Flush(e).tokens == e.tokens;
  }

  // ----- bytes as characters -----

  /** What is printed in ASCII stays, but for the sign of an escape; in text, so does a
      carriage return. Blanks are kept for later unless tabs are quoted. */
  lemma PlainBytes(byte: Byte, istext: bool)
    ensures TokenOf(byte, istext)
         == if ('!' <= byte as char <= '~' && byte as char != '=') || (byte as char == '\r' && istext) then Plain(byte)
            else Escaped(byte)
    ensures Blank(byte) <==> byte as char == ' ' || byte as char == '\t'
  {
  }

  /** A line feed ends a line of text and is escaped in data. */
  lemma LineFeeds(e: Encoder, byte: Byte, quotetabs: bool)
    requires byte as char == '\n'
    ensures Feed(e, byte, quotetabs, true).tokens == Flush(e).tokens + [Plain(byte)]
    ensures Feed(e, byte, quotetabs, true).lineLength == 0 && Feed(e, byte, quotetabs, true).pending == []
    ensures var end := Feed(e, byte, quotetabs, false).tokens; end[|end| - 1] == Escaped(byte)
  {
  }

  /** One blank alone is escaped; a run of blanks is not. */
  lemma {:induction false} BlanksPend(blanks: seq<Byte>, istext: bool)
    requires AllBlank(blanks)
    ensures FeedAll(blanks, false, istext) == Encoder([], 0, blanks)
  {
    if blanks != [] {
      BlanksPend(blanks[..|blanks| - 1], istext);
    }
  }

  lemma BlanksAlone(blanks: seq<Byte>, istext: bool)
    requires AllBlank(blanks)
    ensures Tokens(blanks, false, istext) == if |blanks| == 1 then [Escaped(blanks[0])] else Plains(blanks)
  {
    BlanksPend(blanks, istext);
    assert [] + Plains(blanks) == Plains(blanks);
  }

  function Ascii(text: string): seq<Byte>
    requires forall i :: 0 <= i < |text| ==> text[i] < '\U{80}'
  {
    seq(|text|, i requires 0 <= i < |text| => text[i] as int)
  }

  lemma DecodesFirst(first: seq<Byte>, rest: seq<Byte>, piece: seq<Byte>)
    requires first != [] && First(first + rest) == (piece, |first|)
    ensures Decoded(first + rest) == piece + Decoded(rest)
  {
    assert (first + rest)[|first|..] == rest;
  }

  /** What an `=` stands for in front of two characters: nothing at a line end, the byte
      of two hexadecimal digits, the digit behind a sign, and else itself. */
  lemma EscapesDecode(a: char, b: char, rest: seq<Byte>)
    requires a < '\U{80}' && b < '\U{80}'
    ensures var text, on := Ascii(['=', a, b]) + rest, Ascii([a, b]) + rest;
            if a == '\n' || (a == '\r' && b != '\n') then Decoded(text) == Decoded(Ascii([b]) + rest)
            else if a == '\r' then Decoded(text) == Decoded(rest)
            else if IsHex(a) && IsHex(b) then Decoded(text) == [16 * HexDigitValue(a) + HexDigitValue(b)] + Decoded(rest)
            else if a == '+' && IsHex(b) then Decoded(text) == [HexDigitValue(b)] + Decoded(rest)
            else Decoded(text) == ['=' as int] + Decoded(on)
  {
    var text := Ascii(['=', a, b]) + rest;
    assert text[0] == '=' as int && text[1] == a as int && text[2] == b as int;
    assert Ascii(['=']) + (Ascii([a, b]) + rest) == text;
    assert Ascii(['=', a]) + (Ascii([b]) + rest) == text;
    if a == '\n' || (a == '\r' && b != '\n') {
      DecodesFirst(Ascii(['=', a]), Ascii([b]) + rest, []);
    } else if a == '\r' || (IsHex(b) && (IsHex(a) || a == '+')) {
      DecodesFirst(Ascii(['=', a, b]), rest, First(text).0);
    } else {
      DecodesFirst(Ascii(['=']), Ascii([a, b]) + rest, ['=' as int]);
    }
  }
}
