/** The translator: one scan over the pattern that rewrites what Rust's engines
    would read differently, and refuses what neither can be made to agree on. */
module RegexTranslator {
  import opened Text
  import opened RegexTokens

  datatype Refusal =
    | NamedCharacter
    | UnknownEscape
    | OctalTooLarge
    | BacktrackingVerb
    | AngleNamedGroup
    | AsciiFlag
    | FlagTurnedOff
    | ConditionOnGroupZero
    | ConditionOnUnreadName
    | MinimumExceedsMaximum

  /** The scan's own state: whether it is inside a class, whether a `]` would still
      be a member of it, and the groups it has counted. */
  datatype Scan = Scan(inClass: bool, head: bool, groups: seq<Option<string>>)

  const BEGIN := Scan(false, false, [])

  /** One pass of the loop: text for the output, characters consumed. */
  datatype Step = Step(piece: string, length: nat, scan: Scan)

  /** Python reads `\` before this character as the character itself. */
  predicate MeansItself(c: char) {
    IsPunctuation(c) && !IsMeta(c)
  }

  predicate KnowsEscape(c: char) {
    || !IsAsciiLetter(c)
    || c in {'a', 'b', 'f', 'n', 'r', 't', 'v', 'd', 'D', 's', 'S', 'w', 'W', 'A', 'B', 'Z', 'N', 'x', 'u', 'U'}
  }

  /** `\x` and the value in two hexadecimal digits. */
  function HexText(value: nat): string
    requires value < 256
  {
    ['\\', 'x', HexChar(value / 16, false), HexChar(value % 16, false)]
  }

  datatype NumberedEscape = Octal(text: string, span: nat) | BackReference

  /** `python_numbered_escape`. */
  function ReadNumberedEscape(digits: string, inClass: bool): (r: Result<NumberedEscape, Refusal>)
    requires AllDigits(digits)
    ensures r.Ok? && r.value.Octal? ==> 1 <= r.value.span <= |digits|
  {
    if digits == "" then Ok(BackReference)
    else
      var octal := OctalRun(digits);
      if digits[0] == '0' then
        assert octal >= 1;
        Spelled(digits, 1 + (if octal - 1 < 2 then octal - 1 else 2))
      else if inClass then
        if octal == 0 then Ok(BackReference) else Spelled(digits, if octal < 3 then octal else 3)
      else if octal >= 3 then Spelled(digits, 3)
      else Ok(BackReference)
  }

  function Spelled(digits: string, span: nat): (r: Result<NumberedEscape, Refusal>)
    requires span <= |digits| && forall i :: 0 <= i < span ==> IsOctal(digits[i])
    ensures r.Ok? ==> r.value.Octal? && r.value.span == span
  {
    var value := OctalValue(digits[..span]);
    if value > 255 then Err(OctalTooLarge) else Ok(Octal(HexText(value), span))
  }

  datatype GroupKind =
    | Capturing(name: Option<string>)
    | PlainGroup
    | NumberCondition(number: nat)
    | NameCondition(name_: string)
    | OtherCondition

  /** `python_group`: what the `(` at the start of `cs` opens. */
  function ReadGroup(u: char -> bool, cs: string): (r: Result<GroupKind, Refusal>)
    requires cs != ""
    ensures r.Ok? && r.value.NameCondition? ==> |r.value.name_| + 4 <= |cs|
  {
    if |cs| > 1 && cs[1] == '*' then Err(BacktrackingVerb)
    else if |cs| < 2 || cs[1] != '?' then Ok(Capturing(None))
    else match RefusedGroup(cs)
      case Some(refusal) => Err(refusal)
      case None =>
        if |cs| > 2 && cs[2] == '(' then Ok(ReadCondition(u, cs[3..]))
        else if |cs| > 3 && cs[2] == 'P' && cs[3] == '<' then Ok(ReadNamedGroup(u, cs))
        else Ok(PlainGroup)
  }

  /** `python_named_group`. */
  function ReadNamedGroup(u: char -> bool, cs: string): GroupKind
    requires |cs| > 3
  {
    var n := WordRun(u, cs[4..]);
    if n == 0 || 4 + n >= |cs| || cs[4 + n] != '>' then PlainGroup
    else Capturing(Some(cs[4..][..n]))
  }

  /** `python_condition`. */
  function ReadCondition(u: char -> bool, cs: string): (r: GroupKind)
    ensures r.NameCondition? ==> |r.name_| < |cs|
  {
    var d, n := DigitRun(cs), WordRun(u, cs);
    if d > 0 then
      if d < |cs| && cs[d] == ')' then NumberCondition(DigitsValue(cs[..d])) else OtherCondition
    else if n > 0 && n < |cs| && cs[n] == ')' then NameCondition(cs[..n])
    else OtherCondition
  }

  /** `refuse_unknown_group`. */
  function RefusedGroup(cs: string): Option<Refusal>
    requires |cs| >= 2
  {
    if |cs| > 2 && cs[2] == '<' && !(|cs| > 3 && cs[3] in {'=', '!'}) then Some(AngleNamedGroup)
    else RefusedFlags(cs[2..])
  }

  predicate IsFlagSyntax(c: char) {
    c in {'-', 'a', 'i', 'L', 'm', 's', 'u', 'x'}
  }

  function FlagSyntaxRun(cs: string): (n: nat)
    ensures n <= |cs|
    ensures forall i :: 0 <= i < n ==> IsFlagSyntax(cs[i])
    ensures n < |cs| ==> !IsFlagSyntax(cs[n])
  {
    Run(c => IsFlagSyntax(c), cs)
  }

  /** `inline_flag_group`, from behind the `(?`. */
  function RefusedFlags(cs: string): Option<Refusal> {
    var n := FlagSyntaxRun(cs);
    var scoped := n < |cs| && cs[n] == ':';
    if n == 0 || (!scoped && !(n < |cs| && cs[n] == ')')) then None
    else if 'a' in cs[..n] then Some(AsciiFlag)
    else if '-' in cs[..n] && !scoped then Some(FlagTurnedOff)
    else None
  }

  /** `exceeds`, on the digits themselves: without leading zeros the longer is the
      greater, and equal lengths compare digit by digit. */
  predicate Exceeds(minimum: string, maximum: string) {
    var a, b := Significant(minimum), Significant(maximum);
    |a| > |b| || (|a| == |b| && Later(a, b))
  }

  function Significant(digits: string): string {
    if digits != "" && digits[0] == '0' then Significant(digits[1..]) else digits
  }

  predicate Later(a: string, b: string)
    requires |a| == |b|
  {
    a != "" && (a[0] > b[0] || (a[0] == b[0] && Later(a[1..], b[1..])))
  }

  function StepEscape(cs: string, s: Scan): (r: Result<Step, Refusal>)
    requires cs != "" && cs[0] == '\\'
    ensures r.Ok? ==> 1 <= r.value.length <= |cs|
  {
    var after := s.(head := false);
    if |cs| == 1 then Ok(Step("\\", 1, after))
    else if !s.inClass && cs[1] == 'Z' then Ok(Step("\\z", 2, after))
    else if cs[1] == 'N' then Err(NamedCharacter)
    else if IsDigit(cs[1]) then
      match ReadNumberedEscape(cs[1..][..DigitRun(cs[1..])], s.inClass)
      case Err(refusal) => Err(refusal)
      case Ok(Octal(text, span)) => Ok(Step(text, 1 + span, after))
      case Ok(BackReference) => Ok(Step(cs[..2], 2, after))
    else if MeansItself(cs[1]) then Ok(Step([cs[1]], 2, after))
    else if !KnowsEscape(cs[1]) then Err(UnknownEscape)
    else Ok(Step(cs[..2], 2, after))
  }

  function StepClass(cs: string, s: Scan): (r: Step)
    requires cs != ""
    ensures r.length == 1
  {
    if cs[0] == '[' then Step("\\[", 1, s.(head := false))
    else Step([cs[0]], 1, s.(inClass := !(cs[0] == ']' && !s.head), head := s.head && cs[0] == '^'))
  }

  function StepGroup(u: char -> bool, cs: string, s: Scan): (r: Result<Step, Refusal>)
    requires cs != ""
    ensures r.Ok? ==> 1 <= r.value.length <= |cs|
  {
    match ReadGroup(u, cs)
    case Err(refusal) => Err(refusal)
    case Ok(Capturing(name)) => Ok(Step([cs[0]], 1, s.(groups := s.groups + [name])))
    case Ok(NumberCondition(number)) =>
      if number == 0 then Err(ConditionOnGroupZero) else Ok(Step([cs[0]], 1, s))
    case Ok(NameCondition(name)) =>
      (match Position(s.groups, name)
       case None => Err(ConditionOnUnreadName)
       case Some(i) =>
         Ok(Step("(?(" + Decimal(i + 1) + ")", 4 + |name|, s.(head := false))))
    case Ok(_) => Ok(Step([cs[0]], 1, s))
  }

  function StepBrace(cs: string, s: Scan): (r: Result<Step, Refusal>)
    requires cs != "" && cs[0] == '{'
    ensures r.Ok? ==> 1 <= r.value.length <= |cs|
  {
    match ReadBraces(cs)
    case None => Ok(Step("\\{", 1, s))
    case Some(b) =>
      if b.min != "" && b.max != "" && Exceeds(b.min, b.max) then Err(MinimumExceedsMaximum)
      else if b.min == "" then Ok(Step("{0" + cs[1..b.length], b.length, s))
      else Ok(Step(cs[..b.length], b.length, s))
  }

  function StepAt(u: char -> bool, cs: string, s: Scan): (r: Result<Step, Refusal>)
    requires cs != ""
    ensures r.Ok? ==> 1 <= r.value.length <= |cs|
  {
    if cs[0] == '\\' then StepEscape(cs, s)
    else if s.inClass then Ok(StepClass(cs, s))
    else if cs[0] == '[' then Ok(Step("[", 1, s.(inClass := true, head := true)))
    else if cs[0] == '(' then StepGroup(u, cs, s)
    else if cs[0] == '{' then StepBrace(cs, s)
    else Ok(Step([cs[0]], 1, s))
  }

  function Prefix(piece: string, r: Result<string, Refusal>): Result<string, Refusal> {
    match r
    case Ok(text) => Ok(piece + text)
    case Err(refusal) => Err(refusal)
  }

  /** The translation of `cs`, from scan state `s` on. */
  function Translate(u: char -> bool, cs: string, s: Scan): Result<string, Refusal> {
    if cs == "" then Ok("")
    else match StepAt(u, cs, s)
      case Err(refusal) => Err(refusal)
      case Ok(step) => Prefix(step.piece, Translate(u, cs[step.length..], step.scan))
  }

  lemma PushPiece(done: string, piece: string, rest: Result<string, Refusal>)
    ensures Prefix(done, Prefix(piece, rest)) == Prefix(done + piece, rest)
  {
    if rest.Ok? {
      assert done + (piece + rest.value) == done + piece + rest.value;
    }
  }

  lemma NothingDone(rest: Result<string, Refusal>)
    ensures Prefix("", rest) == rest
  {
    if rest.Ok? {
      assert "" + rest.value == rest.value;
    }
  }

  /** A condition: the group number written for it, and the name it was written as. */
  datatype Target = Target(group: nat, name: Option<string>)

  /** What the translation is: the text to compile and its conditions, in order. */
  datatype Translated = Translated(body: string, conditions: seq<Target>)

  /** The condition that one step reads. */
  function ConditionAt(u: char -> bool, cs: string, s: Scan): seq<Target>
    requires cs != ""
  {
    if cs[0] != '(' || s.inClass then []
    else match ReadGroup(u, cs)
      case Ok(NumberCondition(number)) => [Target(number, None)]
      case Ok(NameCondition(name)) =>
        (match Position(s.groups, name)
         case None => []
         case Some(i) => [Target(i + 1, Some(name))])
      case _ => []
  }

  /** The conditions of `cs`, from scan state `s` on. */
  function Conditions(u: char -> bool, cs: string, s: Scan): seq<Target> {
    if cs == "" then []
    else match StepAt(u, cs, s)
      case Err(_) => []
      case Ok(step) => ConditionAt(u, cs, s) + Conditions(u, cs[step.length..], step.scan)
  }

  /** The scan has written `done` for the first `index` characters, and read `conditions`. */
  ghost predicate Progress(u: char -> bool, body: string, index: nat, s: Scan, done: string, conditions: seq<Target>) {
    && index <= |body|
    && Translate(u, body, BEGIN) == Prefix(done, Translate(u, body[index..], s))
    && Conditions(u, body, BEGIN) == conditions + Conditions(u, body[index..], s)
  }

  lemma OnePass(u: char -> bool, body: string, from: nat, s: Scan, done: string, conditions: seq<Target>, step: Step)
    requires Progress(u, body, from, s, done, conditions) && from < |body| && StepAt(u, body[from..], s) == Ok(step)
    ensures Progress(u, body, from + step.length, step.scan, done + step.piece, conditions + ConditionAt(u, body[from..], s))
  {
    hide StepAt, ConditionAt;
    var rest := body[from + step.length..];
    assert body[from..][step.length..] == rest;
    PushPiece(done, step.piece, Translate(u, rest, step.scan));
    Regroup(conditions, ConditionAt(u, body[from..], s), Conditions(u, rest, step.scan));
  }

  lemma Refused(u: char -> bool, body: string, from: nat, s: Scan, done: string, conditions: seq<Target>, refusal: Refusal)
    requires Progress(u, body, from, s, done, conditions) && from < |body| && StepAt(u, body[from..], s) == Err(refusal)
    ensures Translate(u, body, BEGIN) == Err(refusal)
  {
  }

  lemma AllPassed(u: char -> bool, body: string, s: Scan, done: string, conditions: seq<Target>)
    requires Progress(u, body, |body|, s, done, conditions)
    ensures Translate(u, body, BEGIN) == Ok(done) && Conditions(u, body, BEGIN) == conditions
  {
    assert done + "" == done && conditions + [] == conditions;
  }

  /** What one pass of the loop writes, how many characters it takes, and whether it
      changed them. */
  datatype Piece = Piece(text: string, length: nat, changed: bool)

  predicate Faithful(cs: string, piece: Piece) {
    1 <= piece.length <= |cs| && (!piece.changed ==> piece.text == cs[..piece.length])
  }

  /** The branch of an escape, which owns the character behind the backslash. */
  method TranslateEscape(cs: string, inClass: bool, ghost s: Scan) returns (r: Result<Piece, Refusal>)
    requires cs != "" && cs[0] == '\\' && s.inClass == inClass
    ensures match r
            case Err(refusal) => StepEscape(cs, s) == Err(refusal)
            case Ok(piece) => Faithful(cs, piece) && StepEscape(cs, s) == Ok(Step(piece.text, piece.length, s.(head := false)))
  {
    if |cs| == 1 {
      assert cs == "\\";
      return Ok(Piece(cs, 1, false));
    }
    var escaped := cs[1];
    if !inClass && escaped == 'Z' {
      return Ok(Piece("\\z", 2, true));
    }
    if escaped == 'N' {
      return Err(NamedCharacter);
    }
    if IsDigit(escaped) {
      var end := SkipDigits(cs, 1);
      assert cs[1..end] == cs[1..][..DigitRun(cs[1..])];
      match ReadNumberedEscape(cs[1..end], inClass) {
        case Err(refusal) =>
          return Err(refusal);
        case Ok(Octal(text, span)) =>
          return Ok(Piece(text, 1 + span, true));
        case Ok(BackReference) =>
      }
    } else if MeansItself(escaped) {
      return Ok(Piece([escaped], 2, true));
    } else if !KnowsEscape(escaped) {
      return Err(UnknownEscape);
    }
    return Ok(Piece(cs[..2], 2, false));
  }

  /** The branch of a parenthesis: a group to count, a condition to note, or a named
      condition to rewrite. */
  method TranslateGroup(u: char -> bool, cs: string, groups: seq<Option<string>>, conditions: seq<Target>, ghost s: Scan)
    returns (r: Result<Piece, Refusal>, counted: seq<Option<string>>, noted: seq<Target>)
    requires cs != "" && cs[0] == '(' && !s.inClass && !s.head && s.groups == groups
    ensures match r
            case Err(refusal) => StepGroup(u, cs, s) == Err(refusal)
            case Ok(piece) =>
              && Faithful(cs, piece) && noted == conditions + ConditionAt(u, cs, s)
              && StepGroup(u, cs, s) == Ok(Step(piece.text, piece.length, s.(groups := counted)))
  {
    counted, noted := groups, conditions;
    var piece := Piece([cs[0]], 1, false);
    match ReadGroup(u, cs) {
      case Err(refusal) =>
        return Err(refusal), counted, noted;
      case Ok(Capturing(name)) =>
        counted := counted + [name];
      case Ok(NumberCondition(number)) =>
        if number == 0 {
          return Err(ConditionOnGroupZero), counted, noted;
        }
        noted := noted + [Target(number, None)];
      case Ok(NameCondition(name)) =>
        var group := Position(groups, name);
        if group.None? {
          return Err(ConditionOnUnreadName), counted, noted;
        }
        var number := group.value + 1;
        piece := Piece("(?(" + Decimal(number) + ")", 4 + |name|, true);
        noted := noted + [Target(number, Some(name))];
      case Ok(_) =>
    }
    return Ok(piece), counted, noted;
  }

  /** The branch of a brace. */
  method TranslateBrace(cs: string, ghost s: Scan) returns (r: Result<Piece, Refusal>)
    requires cs != "" && cs[0] == '{'
    ensures match r
            case Err(refusal) => StepBrace(cs, s) == Err(refusal)
            case Ok(piece) => Faithful(cs, piece) && StepBrace(cs, s) == Ok(Step(piece.text, piece.length, s))
  {
    var repetition := PythonRepetition(cs);
    if repetition.None? {
      return Ok(Piece("\\{", 1, true));
    }
    var braces := repetition.value;
    if braces.min != "" && braces.max != "" && Exceeds(braces.min, braces.max) {
      return Err(MinimumExceedsMaximum);
    }
    if braces.min == "" {
      return Ok(Piece("{0" + cs[1..braces.length], braces.length, true));
    }
    return Ok(Piece(cs[..braces.length], braces.length, false));
  }

  /** Every character that is not the start of an escape, a group or a repetition
      is copied, except a `[` inside a class. */
  function CopyOrEscape(character: char, inClass: bool): string {
    if inClass && character == '[' then "\\[" else [character]
  }

  function PlainScan(character: char, s: Scan): Scan {
    if s.inClass then StepClass([character], s).scan
    else if character == '[' then s.(inClass := true, head := true)
    else s
  }

  lemma PlainStep(u: char -> bool, cs: string, s: Scan)
    requires cs != "" && cs[0] != '\\' && (s.inClass || (cs[0] != '(' && cs[0] != '{'))
    ensures StepAt(u, cs, s) == Ok(Step(CopyOrEscape(cs[0], s.inClass), 1, PlainScan(cs[0], s)))
    ensures ConditionAt(u, cs, s) == []
    ensures Faithful(cs, Piece(CopyOrEscape(cs[0], s.inClass), 1, s.inClass && cs[0] == '['))
  {
  }

  lemma NoConditionAt(u: char -> bool, cs: string, s: Scan)
    requires cs != "" && cs[0] != '('
    ensures ConditionAt(u, cs, s) == []
  {
  }

  method AfterCharacter(character: char, inClass: bool, classHead: bool) returns (inside: bool, head: bool)
    requires character != '\\' && (classHead ==> inClass)
    ensures head ==> inside
    ensures forall groups :: Scan(inside, head, groups) == PlainScan(character, Scan(inClass, classHead, groups))
  {
    inside, head := inClass, classHead;
    if inClass {
      if character == '[' {
        head := false;
      } else {
        if character == ']' && !classHead {
          inside := false;
        }
        if character != '^' {
          head := false;
        }
      }
    } else if character == '[' {
      inside, head := true, true;
    }
  }

  /** `translate_from_python`: one scan with an index and a growing output. */
  method TranslateFromPython(u: char -> bool, body: string) returns (r: Result<Translated, Refusal>)
    ensures match r
            case Ok(t) => Translate(u, body, BEGIN) == Ok(t.body) && Conditions(u, body, BEGIN) == t.conditions
            case Err(refusal) => Translate(u, body, BEGIN) == Err(refusal)
  {
    hide CopyOrEscape, PlainScan, Translate, Conditions, StepEscape, StepGroup, StepBrace, StepClass, ConditionAt;
    var translated, index, changed := "", 0, false;
    var inClass, classHead := false, false;
    var groups: seq<Option<string>> := [];
    var conditions: seq<Target> := [];
    Starting(u, body);
    while index < |body|
      invariant index <= |body| && (classHead ==> inClass)
      invariant Progress(u, body, index, Scan(inClass, classHead, groups), translated, conditions)
      invariant !changed ==> translated == body[..index]
    {
      var character, rest := body[index], body[index..];
      ghost var before, noted := Scan(inClass, classHead, groups), conditions;
      var r;
      if character == '\\' {
        r := TranslateEscape(rest, inClass, before);
        classHead := false;
        NoConditionAt(u, rest, before);
      } else if !inClass && character == '(' {
        r, groups, conditions := TranslateGroup(u, rest, groups, conditions, before);
      } else if !inClass && character == '{' {
        r := TranslateBrace(rest, before);
        NoConditionAt(u, rest, before);
      } else {
        PlainStep(u, rest, before);
        r := Ok(Piece(CopyOrEscape(character, inClass), 1, inClass && character == '['));
        inClass, classHead := AfterCharacter(character, inClass, classHead);
      }
      if r.Err? {
        Refused(u, body, index, before, translated, noted, r.error);
        return Err(r.error);
      }
      var piece := r.value;
      assert body[..index] + rest[..piece.length] == body[..index + piece.length];
      OnePass(u, body, index, before, translated, noted, Step(piece.text, piece.length, Scan(inClass, classHead, groups)));
      translated := translated + piece.text;
      index := index + piece.length;
      changed := changed || piece.changed;
    }
    AllPassed(u, body, Scan(inClass, classHead, groups), translated, conditions);
    assert body[..|body|] == body;
    return Ok(Translated(if changed then translated else body, conditions));
  }

  lemma Starting(u: char -> bool, body: string)
    ensures Progress(u, body, 0, BEGIN, "", [])
  {
    assert body[0..] == body;
    NothingDone(Translate(u, body, BEGIN));
  }

  /** `python_repetition`: the braces at the start of `cs`, read with an index. */
  method PythonRepetition(cs: string) returns (r: Option<Braces>)
    requires cs != "" && cs[0] == '{'
    ensures r == ReadBraces(cs)
  {
    var index := SkipDigits(cs, 1);
    var minimum := cs[1..index];
    var comma, maximum := false, "";
    if index < |cs| && cs[index] == ',' {
      var start := index + 1;
      index := SkipDigits(cs, start);
      comma, maximum := true, cs[start..index];
    }
    if !(index < |cs| && cs[index] == '}') || (minimum == "" && !comma) {
      return None;
    }
    assert !comma ==> cs[index..index] == maximum;
    return Some(Braces(minimum, comma, maximum, index + 1));
  }

  method SkipDigits(cs: string, start: nat) returns (end: nat)
    requires start <= |cs|
    ensures end == start + DigitRun(cs[start..])
  {
    end := start;
    while end < |cs| && IsDigit(cs[end])
      invariant start <= end <= |cs|
      invariant forall i :: start <= i < end ==> IsDigit(cs[i])
    {
      end := end + 1;
    }
    DigitRunEnds(cs, start, end);
  }

  lemma DigitRunEnds(cs: string, start: nat, end: nat)
    requires start <= end <= |cs| && forall i :: start <= i < end ==> IsDigit(cs[i])
    requires end < |cs| ==> !IsDigit(cs[end])
    ensures DigitRun(cs[start..]) == end - start
  {
    assert forall i :: 0 <= i < end - start ==> cs[start..][i] == cs[start + i];
    assert end < |cs| ==> cs[start..][end - start] == cs[end];
  }
}
