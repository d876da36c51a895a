/** Form bodies and query strings, as UTF-8 bytes. */
module FormBody {
  import opened Text
  import opened Bytes

  const AMPERSAND: Byte := 38
  const EQUALS: Byte := 61
  const QUESTION: Byte := 63
  const HASH: Byte := 35
  const PERCENT: Byte := 37
  const PLUS: Byte := 43
  const SPACE: Byte := 32

  type Str = seq<Byte>

  datatype Pair = Pair(name: Str, value: Str)

  /** `decode_utf8_lossy`: text it has made it leaves as it is. */
  ghost predicate Settles(lossy: Str -> Str) {
    forall s :: lossy(lossy(s)) == lossy(s)
  }

  // ----- percent encoding -----

  /** The bytes beyond ASCII are encoded whatever the set. */
  function EncodeByte(encoded: Byte -> bool, b: Byte): Str {
    if b >= 128 || encoded(b) then [PERCENT, HexDigit(b / 16), HexDigit(b % 16)] else [b]
  }

  function PercentEncode(encoded: Byte -> bool, s: Str): Str {
    if s == [] then [] else EncodeByte(encoded, s[0]) + PercentEncode(encoded, s[1..])
  }

  function PercentDecode(s: Str): Str {
    if s == [] then []
    else if s[0] == PERCENT && |s| >= 3 && HexValue(s[1]).Some? && HexValue(s[2]).Some?
    then [16 * HexValue(s[1]).value + HexValue(s[2]).value] + PercentDecode(s[3..])
    else [s[0]] + PercentDecode(s[1..])
  }

  function PlusToSpace(s: Str): (r: Str)
    ensures |r| == |s|
  {
    seq(|s|, i requires 0 <= i < |s| => if s[i] == PLUS then SPACE else s[i])
  }

  function FormDecode(lossy: Str -> Str, s: Str): Str {
    lossy(PercentDecode(PlusToSpace(s)))
  }

  predicate InFormSet(b: Byte) {
    b < 32 || b == 127
    || b == AMPERSAND || b == EQUALS || b == QUESTION || b == HASH || b == PERCENT || b == PLUS || b == SPACE
  }

  predicate NotAlphanumeric(b: Byte) {
    !(48 <= b <= 57 || 65 <= b <= 90 || 97 <= b <= 122)
  }

  /** A set that hides every byte with a meaning in a query string. */
  ghost predicate HidesSyntax(encoded: Byte -> bool) {
    encoded(AMPERSAND) && encoded(EQUALS) && encoded(HASH) && encoded(PERCENT) && encoded(PLUS) && encoded(SPACE)
  }

  // ----- parsing -----

  /** The index of the first `b`, or the length. */
  function IndexOf(s: Str, b: Byte): (i: nat)
    ensures i <= |s|
    ensures forall j :: 0 <= j < i ==> s[j] != b
    ensures i < |s| ==> s[i] == b
  {
    if s == [] || s[0] == b then 0
    else
      var rest := IndexOf(s[1..], b);
      assert forall j :: 0 < j < rest + 1 ==> s[j] == s[1..][j - 1];
      rest + 1
  }

  function Split(s: Str, b: Byte): (parts: seq<Str>)
    ensures parts != []
    decreases |s|
  {
    var i := IndexOf(s, b);
    if i == |s| then [s] else [s[..i]] + Split(s[i + 1..], b)
  }

  function PairOf(lossy: Str -> Str, part: Str): Pair {
    var i := IndexOf(part, EQUALS);
    if i == |part| then Pair(FormDecode(lossy, part), FormDecode(lossy, []))
    else Pair(FormDecode(lossy, part[..i]), FormDecode(lossy, part[i + 1..]))
  }

  function PairsOf(lossy: Str -> Str, parts: seq<Str>): seq<Pair> {
    if parts == [] then []
    else if parts[0] == [] then PairsOf(lossy, parts[1..])
    else [PairOf(lossy, parts[0])] + PairsOf(lossy, parts[1..])
  }

  /** `parse_form_pairs`, and the parser of section 5.1 of the WHATWG URL Standard. */
  function ParseFormPairs(lossy: Str -> Str, body: Str): seq<Pair> {
    PairsOf(lossy, Split(body, AMPERSAND))
  }

  // ----- encoding -----

  function Field(encoded: Byte -> bool, pair: Pair): Str {
    PercentEncode(encoded, pair.name) + [EQUALS] + PercentEncode(encoded, pair.value)
  }

  function JoinFields(encoded: Byte -> bool, pairs: seq<Pair>): Str {
    if pairs == [] then []
    else if |pairs| == 1 then Field(encoded, pairs[0])
    else Field(encoded, pairs[0]) + [AMPERSAND] + JoinFields(encoded, pairs[1..])
  }

  function EncodeFormBody(lossy: Str -> Str, body: Str): Str {
    JoinFields(InFormSet, ParseFormPairs(lossy, body))
  }

  // ----- what is encoded reads back -----

  /** No byte with a meaning of its own. */
  predicate Plain(s: Str) {
    forall i :: 0 <= i < |s| ==> s[i] != AMPERSAND && s[i] != EQUALS && s[i] != PLUS && s[i] != HASH
  }

  lemma {:induction false} EncodedIsPlain(encoded: Byte -> bool, s: Str)
    requires HidesSyntax(encoded)
    ensures Plain(PercentEncode(encoded, s))
  {
    if s != [] {
      EncodedIsPlain(encoded, s[1..]);
      HexIsPlain(s[0]);
      assert Plain(EncodeByte(encoded, s[0]));
    }
  }

  lemma HexIsPlain(b: Byte)
    ensures Plain([PERCENT, HexDigit(b / 16), HexDigit(b % 16)])
  {
  }

  lemma {:induction false} DecodesEncoded(encoded: Byte -> bool, s: Str)
    requires encoded(PERCENT)
    ensures PercentDecode(PercentEncode(encoded, s)) == s
  {
    if s != [] {
      DecodesEncoded(encoded, s[1..]);
      var e, rest := EncodeByte(encoded, s[0]), PercentEncode(encoded, s[1..]);
      if |e| == 3 {
        assert (e + rest)[0] == PERCENT && (e + rest)[1] == e[1] && (e + rest)[2] == e[2] && (e + rest)[3..] == rest;
      } else {
        assert (e + rest)[0] == s[0] && (e + rest)[1..] == rest;
      }
    }
  }

  lemma FieldReads(lossy: Str -> Str, encoded: Byte -> bool, pair: Pair)
    requires HidesSyntax(encoded) && Settles(lossy) && lossy(pair.name) == pair.name && lossy(pair.value) == pair.value
    ensures PairOf(lossy, Field(encoded, pair)) == pair
  {
    var name, value := PercentEncode(encoded, pair.name), PercentEncode(encoded, pair.value);
    EncodedIsPlain(encoded, pair.name);
    EncodedIsPlain(encoded, pair.value);
    FirstAt(name, EQUALS, value);
    assert Field(encoded, pair)[..|name|] == name && Field(encoded, pair)[|name| + 1..] == value;
    assert PlusToSpace(name) == name && PlusToSpace(value) == value;
    DecodesEncoded(encoded, pair.name);
    DecodesEncoded(encoded, pair.value);
  }

  lemma FirstAt(before: Str, b: Byte, after: Str)
    requires b !in before
    ensures IndexOf(before + [b] + after, b) == |before|
  {
    var s := before + [b] + after;
    assert s[|before|] == b;
    assert forall j :: 0 <= j < |before| ==> s[j] == before[j];
  }

  /** Every decoded name and value is text that decoding has settled. */
  predicate AllSettled(lossy: Str -> Str, pairs: seq<Pair>) {
    forall i :: 0 <= i < |pairs| ==> lossy(pairs[i].name) == pairs[i].name && lossy(pairs[i].value) == pairs[i].value
  }

  lemma {:induction false} PairsAreSettled(lossy: Str -> Str, parts: seq<Str>)
    requires Settles(lossy)
    ensures AllSettled(lossy, PairsOf(lossy, parts))
  {
    if parts != [] {
      PairsAreSettled(lossy, parts[1..]);
    }
  }

  lemma SplitFirst(part: Str, rest: Str, b: Byte)
    requires b !in part
    ensures Split(part, b) == [part]
    ensures Split(part + [b] + rest, b) == [part] + Split(rest, b)
  {
    FirstAt(part, b, rest);
    var s := part + [b] + rest;
    assert s[..|part|] == part && s[|part| + 1..] == rest;
  }

  lemma FieldHasNoAmpersand(encoded: Byte -> bool, pair: Pair)
    requires HidesSyntax(encoded)
    ensures AMPERSAND !in Field(encoded, pair) && Field(encoded, pair) != []
  {
    EncodedIsPlain(encoded, pair.name);
    EncodedIsPlain(encoded, pair.value);
  }

  lemma EmptyHasNoPairs(lossy: Str -> Str)
    ensures ParseFormPairs(lossy, []) == []
  {
    var parts: seq<Str> := [[]];
    assert Split([], AMPERSAND) == parts;
    assert |parts[1..]| == 0;
  }

  lemma OnePair(lossy: Str -> Str, part: Str)
    requires part != []
    ensures PairsOf(lossy, [part]) == [PairOf(lossy, part)]
  {
    var one: seq<Str> := [part];
    assert |one[1..]| == 0;
  }

  lemma {:induction false} FieldsRead(lossy: Str -> Str, encoded: Byte -> bool, pairs: seq<Pair>)
    requires HidesSyntax(encoded) && Settles(lossy) && AllSettled(lossy, pairs)
    ensures ParseFormPairs(lossy, JoinFields(encoded, pairs)) == pairs
  {
    if pairs == [] {
      EmptyHasNoPairs(lossy);
    } else {
      var field := Field(encoded, pairs[0]);
      FieldHasNoAmpersand(encoded, pairs[0]);
      FieldReads(lossy, encoded, pairs[0]);
      assert pairs == [pairs[0]] + pairs[1..];
      if |pairs| == 1 {
        SplitFirst(field, [], AMPERSAND);
        OnePair(lossy, field);
      } else {
        FieldsRead(lossy, encoded, pairs[1..]);
        SplitFirst(field, JoinFields(encoded, pairs[1..]), AMPERSAND);
        var parts := Split(JoinFields(encoded, pairs[1..]), AMPERSAND);
        assert ([field] + parts)[1..] == parts;
      }
    }
  }

  /** Encoding a form body again keeps its fields, and twice is once. */
  lemma EncodingKeepsFields(lossy: Str -> Str, body: Str)
    requires Settles(lossy)
    ensures ParseFormPairs(lossy, EncodeFormBody(lossy, body)) == ParseFormPairs(lossy, body)
    ensures EncodeFormBody(lossy, EncodeFormBody(lossy, body)) == EncodeFormBody(lossy, body)
  {
    PairsAreSettled(lossy, Split(body, AMPERSAND));
    FieldsRead(lossy, InFormSet, ParseFormPairs(lossy, body));
  }

  // ----- adding a form to the query of a URL -----

  function Appended(url: Str, pairs: seq<Pair>): Str {
    if pairs == [] then url
    else url + [if QUESTION in url then AMPERSAND else QUESTION] + JoinFields(NotAlphanumeric, pairs)
  }

  method MergeFormIntoQuery(lossy: Str -> Str, url: Str, body: Str) returns (merged: Str)
    ensures merged == Appended(url, ParseFormPairs(lossy, body))
  {
    hide ParseFormPairs, PercentEncode;
    var pairs := ParseFormPairs(lossy, body);
    if pairs == [] {
      return url;
    }
    merged := url;
    for index := 0 to |pairs|
      invariant index == 0 ==> merged == url
      invariant index > 0 ==> merged == Appended(url, pairs[..index])
    {
      merged := merged + [if index == 0 && QUESTION !in url then QUESTION else AMPERSAND];
      merged := merged + PercentEncode(NotAlphanumeric, pairs[index].name);
      merged := merged + [EQUALS];
      merged := merged + PercentEncode(NotAlphanumeric, pairs[index].value);
      AppendedOn(url, pairs, index);
    }
    assert pairs[..|pairs|] == pairs;
  }

  lemma AppendedOn(url: Str, pairs: seq<Pair>, index: nat)
    requires index < |pairs|
    ensures Appended(url, pairs[..index + 1])
         == (if index == 0 then url else Appended(url, pairs[..index]))
            + [if index == 0 && QUESTION !in url then QUESTION else AMPERSAND]
            + PercentEncode(NotAlphanumeric, pairs[index].name) + [EQUALS] + PercentEncode(NotAlphanumeric, pairs[index].value)
  {
    var front, field := pairs[..index], Field(NotAlphanumeric, pairs[index]);
    assert pairs[..index + 1] == front + [pairs[index]];
    JoinOn(NotAlphanumeric, front, pairs[index]);
    var before := if index == 0 then url else Appended(url, front);
    var mark := [if index == 0 && QUESTION !in url then QUESTION else AMPERSAND];
    assert Appended(url, pairs[..index + 1]) == before + mark + field by {
      if index > 0 {
        Regroup(url + [if QUESTION in url then AMPERSAND else QUESTION], JoinFields(NotAlphanumeric, front) + mark, field);
        Regroup(url + [if QUESTION in url then AMPERSAND else QUESTION], JoinFields(NotAlphanumeric, front), mark);
      }
    }
    var name, value := PercentEncode(NotAlphanumeric, pairs[index].name), PercentEncode(NotAlphanumeric, pairs[index].value);
    Regroup(before + mark, name + [EQUALS], value);
    Regroup(before + mark, name, [EQUALS]);
  }

  lemma {:induction false} JoinOn(encoded: Byte -> bool, pairs: seq<Pair>, last: Pair)
    ensures JoinFields(encoded, pairs + [last])
         == (if pairs == [] then [] else JoinFields(encoded, pairs) + [AMPERSAND]) + Field(encoded, last)
  {
    if pairs != [] {
      assert (pairs + [last])[1..] == pairs[1..] + [last];
      JoinOn(encoded, pairs[1..], last);
      if |pairs| > 1 {
        var head := Field(encoded, pairs[0]) + [AMPERSAND];
        Regroup(head, JoinFields(encoded, pairs[1..]) + [AMPERSAND], Field(encoded, last));
        Regroup(head, JoinFields(encoded, pairs[1..]), [AMPERSAND]);
      }
    }
  }

  /** The query of a URL: between its first `?` and its fragment. */
  function Query(url: Str): Str {
    var base := url[..IndexOf(url, HASH)];
    var i := IndexOf(base, QUESTION);
    if i == |base| then [] else base[i + 1..]
  }

  function QueryPairs(lossy: Str -> Str, url: Str): seq<Pair> {
    ParseFormPairs(lossy, Query(url))
  }

  lemma {:induction false} PairsOn(lossy: Str -> Str, a: seq<Str>, b: seq<Str>)
    ensures PairsOf(lossy, a + b) == PairsOf(lossy, a) + PairsOf(lossy, b)
  {
    if a == [] {
      assert a + b == b;
    } else {
      assert (a + b)[0] == a[0] && (a + b)[1..] == a[1..] + b;
      PairsOn(lossy, a[1..], b);
      if a[0] != [] {
        Regroup([PairOf(lossy, a[0])], PairsOf(lossy, a[1..]), PairsOf(lossy, b));
      }
    }
  }

  lemma {:induction false} SplitOn(a: Str, c: Str, b: Byte)
    ensures Split(a + [b] + c, b) == Split(a, b) + Split(c, b)
    decreases |a|
  {
    var i := IndexOf(a, b);
    if i == |a| {
      SplitFirst(a, c, b);
    } else {
      var rest := a[i + 1..];
      assert a == a[..i] + [b] + rest;
      assert a + [b] + c == a[..i] + [b] + (rest + [b] + c);
      SplitFirst(a[..i], rest + [b] + c, b);
      SplitOn(rest, c, b);
      Regroup([a[..i]], Split(rest, b), Split(c, b));
    }
  }

  lemma ParseOn(lossy: Str -> Str, a: Str, c: Str)
    ensures ParseFormPairs(lossy, a + [AMPERSAND] + c) == ParseFormPairs(lossy, a) + ParseFormPairs(lossy, c)
  {
    SplitOn(a, c, AMPERSAND);
    PairsOn(lossy, Split(a, AMPERSAND), Split(c, AMPERSAND));
  }

  lemma {:induction false} FieldsHaveNoHash(pairs: seq<Pair>)
    ensures HASH !in JoinFields(NotAlphanumeric, pairs)
  {
    if pairs != [] {
      EncodedIsPlain(NotAlphanumeric, pairs[0].name);
      EncodedIsPlain(NotAlphanumeric, pairs[0].value);
      FieldsHaveNoHash(pairs[1..]);
    }
  }

  lemma QueryAfter(before: Str, query: Str)
    requires QUESTION !in before && HASH !in before && HASH !in query
    ensures Query(before + [QUESTION] + query) == query
  {
    hide IndexOf;
    var url := before + [QUESTION] + query;
    assert HASH !in url;
    assert url[..|url|] == url;
    FirstAt(before, QUESTION, query);
    assert url[|before| + 1..] == query;
  }

  lemma QueryExtended(url: Str, more: Str)
    requires HASH !in url && QUESTION in url && HASH !in more
    ensures Query(url + more) == Query(url) + more
  {
    var i := IndexOf(url, QUESTION);
    var before, query := url[..i], url[i + 1..];
    assert url == before + [QUESTION] + query;
    assert url + more == before + [QUESTION] + (query + more);
    QueryAfter(before, query);
    QueryAfter(before, query + more);
  }

  lemma NoQuery(url: Str)
    requires QUESTION !in url
    ensures Query(url) == []
  {
    var base := url[..IndexOf(url, HASH)];
    assert forall j :: 0 <= j < |base| ==> base[j] == url[j];
  }

  lemma AppendedPairs(lossy: Str -> Str, url: Str, pairs: seq<Pair>)
    requires Settles(lossy) && AllSettled(lossy, pairs) && pairs != [] && HASH !in url
    ensures QueryPairs(lossy, Appended(url, pairs)) == QueryPairs(lossy, url) + pairs
  {
    var fields := JoinFields(NotAlphanumeric, pairs);
    FieldsRead(lossy, NotAlphanumeric, pairs);
    FieldsHaveNoHash(pairs);
    if QUESTION in url {
      Regroup(url, [AMPERSAND], fields);
      QueryExtended(url, [AMPERSAND] + fields);
      Regroup(Query(url), [AMPERSAND], fields);
      ParseOn(lossy, Query(url), fields);
    } else {
      QueryAfter(url, fields);
      NoQuery(url);
      EmptyHasNoPairs(lossy);
    }
  }

  lemma QueryBeforeFragment(url: Str, more: Str)
    requires HASH in url
    ensures Query(url + more) == Query(url)
  {
    var i := IndexOf(url, HASH);
    assert url + more == url[..i] + [HASH] + (url[i + 1..] + more);
    FirstAt(url[..i], HASH, url[i + 1..] + more);
    assert (url + more)[..i] == url[..i];
  }

  /** The form's fields follow those of the URL exactly when the URL has no fragment,
      which would swallow them, or there are none. */
  lemma MergedIff(lossy: Str -> Str, url: Str, body: Str)
    requires Settles(lossy)
    ensures QueryPairs(lossy, Appended(url, ParseFormPairs(lossy, body))) == QueryPairs(lossy, url) + ParseFormPairs(lossy, body)
       <==> HASH !in url || ParseFormPairs(lossy, body) == []
  {
    var pairs := ParseFormPairs(lossy, body);
    if pairs == [] {
      assert QueryPairs(lossy, url) + pairs == QueryPairs(lossy, url);
    } else if HASH in url {
      FragmentSwallows(url, pairs);
      assert |QueryPairs(lossy, url) + pairs| > |QueryPairs(lossy, url)|;
    } else {
      PairsAreSettled(lossy, Split(body, AMPERSAND));
      AppendedPairs(lossy, url, pairs);
    }
  }

  lemma FragmentSwallows(url: Str, pairs: seq<Pair>)
    requires HASH in url
    ensures Query(Appended(url, pairs)) == Query(url)
  {
    if pairs != [] {
      var mark, fields := [if QUESTION in url then AMPERSAND else QUESTION], JoinFields(NotAlphanumeric, pairs);
      Regroup(url, mark, fields);
      QueryBeforeFragment(url, mark + fields);
    }
  }

  // ----- which bytes are escaped -----

  const HEX_DIGITS: string := "0123456789ABCDEF"

  function Escape(b: Byte): Str {
    ['%' as int, HEX_DIGITS[b / 16] as int, HEX_DIGITS[b % 16] as int]
  }

  lemma Escapes(b: Byte)
    ensures Escape(b) == [PERCENT, HexDigit(b / 16), HexDigit(b % 16)]
  {
    HexIs(b / 16);
    HexIs(b % 16);
  }

  lemma HexIs(v: nat)
    requires v < 16
    ensures HexDigit(v) == HEX_DIGITS[v] as int
  {
  }

  /** The characters with a meaning of their own in a form or around it. */
  const SYNTAX: set<char> := {'&', '=', '?', '#', '%', '+'}

  /** A form keeps what is printed in ASCII, but for `&`, `=`, `?`, `#`, `%` and `+`. */
  lemma FormBytes(b: Byte)
    ensures EncodeByte(InFormSet, b) == if '!' <= b as char <= '~' && b as char !in SYNTAX then [b] else Escape(b)
  {
    hide Escape, HexDigit;
    Escapes(b);
  }

  /** A query keeps letters and digits. */
  lemma QueryBytes(b: Byte)
    ensures EncodeByte(NotAlphanumeric, b) == if IsAsciiLetter(b as char) || IsDigit(b as char) then [b] else Escape(b)
  {
    hide Escape, HexDigit;
    Escapes(b);
  }
}
