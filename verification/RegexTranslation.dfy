/** The translation keeps Python's reading: the tokens Rust's lexer finds in the
    output are the tokens Python's lexer finds in the input. */
module RegexTranslation {
  import opened Text
  import opened RegexTokens
  import opened RegexTranslator
  import Py = PythonRegex
  import Rust = RustRegex

  // ----- what makes the two readings differ -----

  /** What Rust and the translator make of a pattern so far, beside Python's reading.
      `rust` is where Rust's lexer is; `lag` says that the scan still takes a `]` for a
      member where Python does not, having seen only `^` since a negated class opened;
      `astray` that Python has left such a class and the scan has not; and `counted` are
      the groups as the scan counts them: the parenthesis of a numbered condition is one
      more, and a group opened while the scan is astray is missing. */
  datatype Beside = Beside(rust: Mode, lag: bool, astray: bool, counted: seq<Option<string>>)

  const LEVEL := Beside(Outside, false, false, [])

  function RustModeBehind(cs: string, p: Py.Reading, rust: Mode, next: Mode): Mode
    requires cs != ""
  {
    if p.mode == Outside || next == Outside then next
    else if cs[0] == ']' && p.mode == ClassHead then InClass
    else if cs[0] == '-' && next == AfterItem && (rust == ClassHead || rust == HeadDashes) then HeadDashes
    else next
  }

  predicate IsCondition(cs: string) {
    |cs| > 3 && cs[0] == '(' && cs[1] == '?' && cs[2] == '('
  }

  function NextBeside(cs: string, p: Py.Reading, b: Beside, next: Py.Reading): Beside
    requires cs != "" && |p.groups| <= |next.groups|
  {
    Beside(
      RustModeBehind(cs, p, b.rust, next.mode),
      cs[0] == '^' && (p.mode == ClassHead || b.lag),
      if cs[0] == ']' then b.lag else b.astray,
      if b.astray || p.mode != Outside then b.counted
      else if IsCondition(cs) && IsDigit(cs[3]) then b.counted + [None]
      else b.counted + next.groups[|p.groups|..])
  }

  /** Python takes a backslash before it, and Rust does not. */
  predicate Unescapable(c: char) {
    c >= '\U{80}'
  }

  /** An escape of half a surrogate pair, which is a character of Python's only. */
  predicate SurrogateEscape(cs: string)
    requires |cs| >= 2
  {
    HexWidth(cs[1]) > 0 && HexEscape(cs).Some? && IsSurrogate(HexEscape(cs).value)
  }

  predicate EscapeHazard(cs: string) {
    |cs| > 1 && cs[0] == '\\' && (Unescapable(cs[1]) || SurrogateEscape(cs))
  }

  /** A reference that Python ends after two digits and Rust does not. */
  predicate LongReference(cs: string) {
    && |cs| > 3 && cs[0] == '\\'
    && IsDigit(cs[1]) && cs[1] != '0' && IsDigit(cs[2]) && IsDigit(cs[3])
    && !(IsOctal(cs[1]) && IsOctal(cs[2]) && IsOctal(cs[3]))
  }

  function ConditionName(u: char -> bool, cs: string): string
    requires IsCondition(cs)
  {
    cs[3..][..WordRun(u, cs[3..])]
  }

  /** A condition naming a group that the scan has counted wrongly, or not at all. */
  predicate Miscounted(u: char -> bool, cs: string, p: Py.Reading, b: Beside) {
    && IsCondition(cs) && !IsDigit(cs[3])
    && Position(b.counted, ConditionName(u, cs)) != Position(p.groups, ConditionName(u, cs))
  }

  /** Outside a class that the scan believes to be in: a class, a brace that is to be
      escaped or to get a minimum, the end of the text, a reference the scan reads as an
      octal escape, and a named condition. */
  predicate AstrayHazard(cs: string)
    requires cs != ""
  {
    || cs[0] == '['
    || (cs[0] == '{' && (ReadBraces(cs).None? || ReadBraces(cs).value.min == ""))
    || (cs[0] == '\\' && |cs| > 1 && cs[1] == 'Z')
    || (cs[0] == '\\' && |cs| > 1 && IsOctal(cs[1]) && OctalSpan(cs, Outside) == 0)
    || (IsCondition(cs) && !IsDigit(cs[3]))
  }

  /** A doubled operator character, which Rust reads as a set operation unless it
      begins as the end of a range. */
  predicate SetOperation(cs: string) {
    |cs| > 1 && (cs[0] == '&' || cs[0] == '~') && cs[1] == cs[0]
  }

  /** A dash that Rust does not read as Python does: doubled, or behind the `]` or the
      dash that a class opens with, where Rust begins no range. */
  predicate DashHazard(cs: string, mode: Mode, rust: Mode) {
    && |cs| > 1 && cs[0] == '-'
    && ((mode == InClass && cs[1] == '-')
        || (mode == AfterItem && cs[1] != ']' && (cs[1] == '-' || rust != AfterItem)))
  }

  /** The token at the start of `cs` is read differently by Rust. */
  predicate Hazard(u: char -> bool, cs: string, p: Py.Reading, b: Beside)
    requires cs != ""
  {
    || EscapeHazard(cs)
    || (if p.mode == Outside then
          LongReference(cs) || (if b.astray then AstrayHazard(cs) else Miscounted(u, cs, p, b))
        else
          || (cs[0] == '\\' && |cs| > 1 && cs[1] == 'b')
          || (p.mode != RangeEnd && SetOperation(cs))
          || DashHazard(cs, p.mode, b.rust))
  }

  lemma GroupsGrow(u: char -> bool, cs: string, p: Py.Reading)
    requires cs != "" && Py.PyNext(u, cs, p).Some?
    ensures |p.groups| <= |Py.PyNext(u, cs, p).value.reading.groups|
  {
  }

  function BesideNext(u: char -> bool, cs: string, p: Py.Reading, b: Beside): Beside
    requires cs != "" && Py.PyNext(u, cs, p).Some?
  {
    GroupsGrow(u, cs, p);
    NextBeside(cs, p, b, Py.PyNext(u, cs, p).value.reading)
  }

  /** No token of `cs` is read differently. */
  predicate Safe(u: char -> bool, cs: string, p: Py.Reading, b: Beside)
    decreases |cs|
  {
    cs == "" ||
    match Py.PyNext(u, cs, p)
    case None => true
    case Some(next) => !Hazard(u, cs, p, b) && Safe(u, cs[next.length..], next.reading, BesideNext(u, cs, p, b))
  }

  /** The scan is never astray: no negated class is nothing but carets. */
  predicate NeverAstray(u: char -> bool, cs: string, p: Py.Reading, b: Beside)
    decreases |cs|
  {
    !b.astray &&
    (cs == "" ||
     match Py.PyNext(u, cs, p)
     case None => true
     case Some(next) => NeverAstray(u, cs[next.length..], next.reading, BesideNext(u, cs, p, b)))
  }

  // ----- the translator's state beside Python's -----

  /** Rust begins no range where a class has just opened with `]` or a dash. */
  predicate Parallel(mode: Mode, rust: Mode) {
    mode == rust || (mode == AfterItem && (rust == InClass || rust == HeadDashes))
  }

  predicate Synced(p: Py.Reading, s: Scan, b: Beside) {
    && s.inClass == (p.mode != Outside || b.astray)
    && s.head == (p.mode == ClassHead || b.lag)
    && (b.lag ==> p.mode == AfterItem)
    && (b.astray ==> p.mode == Outside)
    && s.groups == b.counted
    && p.mode != HeadDashes && Parallel(p.mode, b.rust)
  }

  // ----- the output, one piece at a time -----

  predicate Copied(c: char, s: Scan) {
    && c != '\\' && c != '['
    && (if s.inClass then c != ']' && c != '^' && !s.head else c != '(' && c != '{')
  }

  lemma CopiedOnce(u: char -> bool, cs: string, s: Scan)
    requires cs != "" && Copied(cs[0], s)
    ensures StepAt(u, cs, s) == Ok(Step([cs[0]], 1, s)) && ConditionAt(u, cs, s) == []
  {
  }

  lemma {:induction false} CopyPlain(u: char -> bool, h: string, rest: string, s: Scan)
    requires forall i :: 0 <= i < |h| ==> Copied(h[i], s)
    ensures Translate(u, h + rest, s) == Prefix(h, Translate(u, rest, s))
    ensures Conditions(u, h + rest, s) == Conditions(u, rest, s)
  {
    hide StepAt, ConditionAt, Copied;
    if h == "" {
      assert h + rest == rest;
      NothingDone(Translate(u, rest, s));
    } else {
      CopiedOnce(u, h + rest, s);
      OneStep(u, h + rest, s, Step([h[0]], 1, s));
      assert (h + rest)[1..] == h[1..] + rest;
      CopyPlain(u, h[1..], rest, s);
      PushPiece([h[0]], h[1..], Translate(u, rest, s));
      assert [h[0]] + h[1..] == h;
    }
  }

  lemma OneStep(u: char -> bool, cs: string, s: Scan, step: Step)
    requires cs != "" && StepAt(u, cs, s) == Ok(step)
    ensures Translate(u, cs, s) == Prefix(step.piece, Translate(u, cs[step.length..], step.scan))
    ensures Conditions(u, cs, s) == ConditionAt(u, cs, s) + Conditions(u, cs[step.length..], step.scan)
  {
  }

  /** Characters that stand at the head of the output only if they stand at the
      head of the input. */
  predicate Kept(c: char) {
    c == '?' || c == '*' || c == ')' || c == '&' || c == '-' || c == '~' || c == '^' || c == ']' || IsDigit(c)
  }

  predicate StartsWith(cs: string, c: char) {
    cs != "" && cs[0] == c
  }

  lemma KeptIsNotDropped(c: char)
    requires Kept(c)
    ensures !MeansItself(c)
  {
  }

  lemma FirstKept(u: char -> bool, cs: string, s: Scan, c: char)
    requires Translate(u, cs, s).Ok? && Kept(c)
    ensures StartsWith(Translate(u, cs, s).value, c) <==> StartsWith(cs, c)
  {
    if cs != "" {
      var step := StepAt(u, cs, s).value;
      KeptIsNotDropped(c);
      PieceStart(u, cs, s);
      assert Translate(u, cs, s).value[0] == step.piece[0];
    }
  }

  /** Every piece begins with the character it stands for, a backslash, a brace or
      the punctuation whose backslash is dropped. */
  lemma PieceStart(u: char -> bool, cs: string, s: Scan)
    requires cs != "" && StepAt(u, cs, s).Ok?
    ensures var piece := StepAt(u, cs, s).value.piece;
            && piece != ""
            && (if cs[0] == '\\' then piece[0] == '\\' || MeansItself(piece[0])
                else piece[0] == cs[0] || (piece[0] == '\\' && (cs[0] == '[' || cs[0] == '{')))
  {
    if cs[0] == '\\' {
      EscapePiece(cs, s);
    } else if !s.inClass && cs[0] == '(' {
      GroupPiece(u, cs, s);
    } else if !s.inClass && cs[0] == '{' {
      assert StepAt(u, cs, s) == StepBrace(cs, s);
    }
  }

  lemma EscapePiece(cs: string, s: Scan)
    requires cs != "" && cs[0] == '\\' && StepEscape(cs, s).Ok?
    ensures var piece := StepEscape(cs, s).value.piece; piece != "" && (piece[0] == '\\' || MeansItself(piece[0]))
  {
  }

  lemma GroupPiece(u: char -> bool, cs: string, s: Scan)
    requires cs != "" && cs[0] == '(' && StepGroup(u, cs, s).Ok?
    ensures var piece := StepGroup(u, cs, s).value.piece; piece != "" && piece[0] == '('
  {
  }

  // ----- one Python token at a time -----

  /** Rust reads Python's next token off `out`, `n` characters long, or, at a
      hazard, something else. */
  predicate Alike(u: char -> bool, cs: string, p: Py.Reading, b: Beside, out: string, n: nat)
    requires cs != "" && out != "" && Py.PyNext(u, cs, p).Some?
  {
    var next, r := Py.PyNext(u, cs, p).value, Rust.RustNext(u, out, b.rust);
    if Hazard(u, cs, p, b) then r.None? || r.value.token != next.token
    else r == Some(Rust.Next(next.token, n, BesideNext(u, cs, p, b).rust))
  }

  /** The translator writes `piece` for Python's next token and goes on in `s2`. */
  ghost predicate Followed(u: char -> bool, cs: string, p: Py.Reading, s: Scan, b: Beside, piece: string, s2: Scan)
    requires cs != "" && Py.PyNext(u, cs, p).Some?
  {
    var next := Py.PyNext(u, cs, p).value;
    var rest := Translate(u, cs[next.length..], s2);
    && piece != ""
    && Translate(u, cs, s) == Prefix(piece, rest)
    && Conditions(u, cs, s) == ConditionAt(u, cs, s) + Conditions(u, cs[next.length..], s2)
    && Synced(next.reading, s2, BesideNext(u, cs, p, b))
    && (rest.Ok? ==> Alike(u, cs, p, b, piece + rest.value, |piece|))
  }

  ghost predicate Ready(u: char -> bool, cs: string, p: Py.Reading, s: Scan, b: Beside) {
    && cs != "" && Py.PyNext(u, cs, p).Some? && StepAt(u, cs, s).Ok?
    && Synced(p, s, b) && !(b.astray && AstrayHazard(cs))
  }

  /** A token outside a class that opens no group changes nothing. */
  lemma StaysBeside(u: char -> bool, cs: string, p: Py.Reading, b: Beside)
    requires cs != "" && cs[0] != ']' && p.mode == Outside && !b.lag && b.rust == Outside
    requires Py.PyNext(u, cs, p).Some? && Py.PyNext(u, cs, p).value.reading == p
    requires !(IsCondition(cs) && IsDigit(cs[3]))
    ensures BesideNext(u, cs, p, b) == b
  {
    hide Py.PyNext;
    assert p.groups[|p.groups|..] == [] && b.counted + [] == b.counted;
  }

  lemma FollowPlain(u: char -> bool, cs: string, p: Py.Reading, s: Scan, b: Beside) returns (s2: Scan)
    requires Ready(u, cs, p, s, b) && p.mode == Outside
    requires cs[0] != '\\' && cs[0] != '[' && cs[0] != '(' && cs[0] != '{'
    ensures Followed(u, cs, p, s, b, [cs[0]], s2)
  {
    s2 := s.(inClass := b.astray && cs[0] != ']');
    assert StepAt(u, cs, s) == Ok(Step([cs[0]], 1, s2));
  }

  lemma FollowOpenClass(u: char -> bool, cs: string, p: Py.Reading, s: Scan, b: Beside) returns (piece: string, s2: Scan)
    requires Ready(u, cs, p, s, b) && p.mode == Outside && cs[0] == '['
    ensures Followed(u, cs, p, s, b, piece, s2)
  {
    s2 := s.(inClass := true, head := true);
    assert StepAt(u, cs, s) == Ok(Step("[", 1, s2));
    if Translate(u, cs[1..], s2).Ok? {
      FirstKept(u, cs[1..], s2, '^');
    }
    if |cs| > 1 && cs[1] == '^' {
      piece := "[^";
      assert StepAt(u, cs[1..], s2) == Ok(Step("^", 1, s2));
      assert cs[1..][1..] == cs[2..];
      PushPiece("[", "^", Translate(u, cs[2..], s2));
      assert "[" + "^" == "[^";
    } else {
      piece := "[";
    }
  }

  lemma FollowClassChar(u: char -> bool, cs: string, p: Py.Reading, s: Scan, b: Beside) returns (piece: string, s2: Scan)
    requires Ready(u, cs, p, s, b) && p.mode != Outside && cs[0] != '\\'
    ensures Followed(u, cs, p, s, b, piece, s2)
  {
    var step := StepClass(cs, s);
    piece, s2 := step.piece, step.scan;
    assert StepAt(u, cs, s) == Ok(step);
    ClassCharNext(u, cs, p, s, b);
    var rest := Translate(u, cs[1..], s2);
    if rest.Ok? {
      SomethingWritten(u, cs[1..], s2);
      if Kept(cs[0]) {
        FirstKept(u, cs[1..], s2, cs[0]);
      }
      FirstKept(u, cs[1..], s2, ']');
      ClassCharAlike(u, cs, p, b, rest.value);
    }
  }

  lemma SomethingWritten(u: char -> bool, cs: string, s: Scan)
    requires Translate(u, cs, s).Ok?
    ensures Translate(u, cs, s).value == "" <==> cs == ""
  {
    if cs != "" {
      PieceStart(u, cs, s);
    }
  }

  lemma ClassCharNext(u: char -> bool, cs: string, p: Py.Reading, s: Scan, b: Beside)
    requires cs != "" && p.mode != Outside && cs[0] != '\\' && Py.PyNext(u, cs, p).Some? && Synced(p, s, b)
    ensures Py.PyNext(u, cs, p).value.length == 1
    ensures Synced(Py.PyNext(u, cs, p).value.reading, StepClass(cs, s).scan, BesideNext(u, cs, p, b))
  {
    assert Py.PyNext(u, cs, p) == Py.PyClassNext(cs, p);
  }

  lemma ClassCharAlike(u: char -> bool, cs: string, p: Py.Reading, b: Beside, rest: string)
    requires cs != "" && p.mode != Outside && cs[0] != '\\' && Py.PyNext(u, cs, p).Some?
    requires p.mode != HeadDashes && Parallel(p.mode, b.rust)
    requires rest == "" <==> |cs| == 1
    requires StartsWith(rest, ']') <==> StartsWith(cs[1..], ']')
    requires Kept(cs[0]) ==> (StartsWith(rest, cs[0]) <==> StartsWith(cs[1..], cs[0]))
    ensures var piece := if cs[0] == '[' then "\\[" else [cs[0]]; Alike(u, cs, p, b, piece + rest, |piece|)
  {
    var piece := if cs[0] == '[' then "\\[" else [cs[0]];
    var out := piece + rest;
    assert Py.PyNext(u, cs, p) == Py.PyClassNext(cs, p);
    assert Rust.RustNext(u, out, b.rust) == Rust.RustClassNext(out, b.rust);
    assert cs[0] != '[' && |cs| > 1 ==> out[1] == rest[0] && cs[1] == cs[1..][0];
  }

  lemma DigitRunIs(digits: string, rest: string)
    requires AllDigits(digits) && (rest != "" ==> !IsDigit(rest[0]))
    ensures DigitRun(digits + rest) == |digits|
  {
    var cs := digits + rest;
    assert forall i :: 0 <= i < |digits| ==> cs[i] == digits[i];
    assert rest != "" ==> cs[|digits|] == rest[0];
  }

  function BracesText(min: string, comma: bool, max: string): string {
    "{" + min + (if comma then "," else "") + max + "}"
  }

  lemma DigitRunAt(cs: string, n: nat)
    requires n <= |cs| && forall i :: 0 <= i < n ==> IsDigit(cs[i])
    requires n < |cs| ==> !IsDigit(cs[n])
    ensures DigitRun(cs) == n
  {
  }

  lemma BracesAtComma(cs: string, m: nat, n: nat)
    requires 3 + m + n <= |cs| && cs[0] == '{' && cs[1 + m] == ',' && cs[2 + m + n] == '}'
    requires forall i :: 1 <= i < 1 + m ==> IsDigit(cs[i])
    requires forall i :: 2 + m <= i < 2 + m + n ==> IsDigit(cs[i])
    ensures ReadBraces(cs) == Some(Braces(cs[1..1 + m], true, cs[2 + m..2 + m + n], 3 + m + n))
  {
    DigitRunAt(cs[1..], m);
    DigitRunAt(cs[2 + m..], n);
  }

  lemma BracesAtClose(cs: string, m: nat)
    requires 2 + m <= |cs| && m > 0 && cs[0] == '{' && cs[1 + m] == '}'
    requires forall i :: 1 <= i < 1 + m ==> IsDigit(cs[i])
    ensures ReadBraces(cs) == Some(Braces(cs[1..1 + m], false, "", 2 + m))
  {
    DigitRunAt(cs[1..], m);
    assert cs[1 + m..1 + m] == "";
  }

  lemma BracesTextReads(min: string, comma: bool, max: string, rest: string)
    requires AllDigits(min) && AllDigits(max) && (min != "" || comma) && (max != "" ==> comma)
    ensures ReadBraces(BracesText(min, comma, max) + rest) == Some(Braces(min, comma, max, |BracesText(min, comma, max)|))
  {
    if comma {
      CommaTextReads(min, max, rest);
    } else {
      var cs := BracesText(min, comma, max) + rest;
      assert cs[1..1 + |min|] == min;
      assert forall i :: 1 <= i < 1 + |min| ==> cs[i] == min[i - 1];
      BracesAtClose(cs, |min|);
    }
  }

  lemma CommaTextReads(min: string, max: string, rest: string)
    requires AllDigits(min) && AllDigits(max)
    ensures ReadBraces("{" + min + "," + max + "}" + rest) == Some(Braces(min, true, max, 3 + |min| + |max|))
  {
    var cs := "{" + min + "," + max + "}" + rest;
    var m, n := |min|, |max|;
    assert cs[1..1 + m] == min;
    assert cs[2 + m..2 + m + n] == max;
    forall i | 1 <= i < 1 + m
      ensures IsDigit(cs[i])
    {
      assert cs[i] == min[i - 1];
    }
    forall i | 2 + m <= i < 2 + m + n
      ensures IsDigit(cs[i])
    {
      assert cs[i] == max[i - 2 - m];
    }
    BracesAtComma(cs, m, n);
  }

  lemma ReadBracesText(cs: string)
    requires cs != "" && cs[0] == '{' && ReadBraces(cs).Some?
    ensures var b := ReadBraces(cs).value;
            && (b.min == "" ==> b.comma) && (b.max != "" ==> b.comma)
            && cs[..b.length] == BracesText(b.min, b.comma, b.max)
  {
  }

  lemma FollowBrace(u: char -> bool, cs: string, p: Py.Reading, s: Scan, b: Beside) returns (piece: string)
    requires Ready(u, cs, p, s, b) && p.mode == Outside && cs[0] == '{'
    ensures Followed(u, cs, p, s, b, piece, s)
  {
    if ReadBraces(cs).None? {
      piece := FollowLoneBrace(u, cs, p, s, b);
    } else {
      piece := FollowRepetition(u, cs, p, s, b, ReadBraces(cs).value);
    }
  }

  lemma FollowLoneBrace(u: char -> bool, cs: string, p: Py.Reading, s: Scan, b: Beside) returns (piece: string)
    requires Ready(u, cs, p, s, b) && p.mode == Outside && cs[0] == '{' && ReadBraces(cs).None?
    ensures Followed(u, cs, p, s, b, piece, s)
  {
    hide ReadBraces, Rust.RustNext, StepGroup, StepEscape, Py.PyGroup, Py.PyEscape;
    assert StepAt(u, cs, s) == StepBrace(cs, s);
    piece := "\\{";
    var rest := Translate(u, cs[1..], s);
    if rest.Ok? {
      EscapedBrace(u, rest.value);
    }
  }

  lemma FollowRepetition(u: char -> bool, cs: string, p: Py.Reading, s: Scan, b: Beside, r: Braces) returns (piece: string)
    requires Ready(u, cs, p, s, b) && p.mode == Outside && cs[0] == '{' && ReadBraces(cs) == Some(r)
    ensures Followed(u, cs, p, s, b, piece, s)
  {
    hide ReadBraces, Rust.RustNext, Rust.RustRepeat, Translate, StepAt, Py.PyNext, Hazard, BesideNext, Conditions, BracesMin, BracesMax;
    piece := BracesText(WrittenMin(r), r.comma, r.max);
    BracePiece(u, cs, s, r);
    ReadBracesText(cs);
    PyRepetitionNext(u, cs, p, r);
    StaysBeside(u, cs, p, b);
    RepetitionIsSafe(u, cs, p, b);
    var rest := Translate(u, cs[r.length..], s);
    if rest.Ok? {
      BraceReads(r, piece, rest.value);
      BraceNext(u, piece + rest.value);
    }
  }

  lemma PyRepetitionNext(u: char -> bool, cs: string, p: Py.Reading, r: Braces)
    requires cs != "" && cs[0] == '{' && p.mode == Outside && ReadBraces(cs) == Some(r) && Py.PyNext(u, cs, p).Some?
    ensures BracesMax(r).Some? ==> BracesMax(r).value >= BracesMin(r)
    ensures Py.PyNext(u, cs, p) == Some(Py.Next(Repeat(BracesMin(r), BracesMax(r)), r.length, p))
  {
    hide ReadBraces, BracesMin, BracesMax;
  }

  lemma RepetitionIsSafe(u: char -> bool, cs: string, p: Py.Reading, b: Beside)
    requires cs != "" && cs[0] == '{' && p.mode == Outside && !(b.astray && AstrayHazard(cs))
    ensures !Hazard(u, cs, p, b)
  {
  }

  lemma BraceNext(u: char -> bool, out: string)
    requires out != "" && out[0] == '{'
    ensures Rust.RustNext(u, out, Outside) == Rust.RustRepeat(out)
  {
  }

  lemma EscapedBrace(u: char -> bool, rest: string)
    ensures Rust.RustNext(u, "\\{" + rest, Outside) == Some(Rust.Next(Lit('{' as nat), 2, Outside))
  {
  }

  function WrittenMin(b: Braces): string {
    if b.min == "" then "0" else b.min
  }

  /** A repetition is written with its minimum, or, where the scan is astray, as it is. */
  lemma BracePiece(u: char -> bool, cs: string, s: Scan, b: Braces)
    requires cs != "" && cs[0] == '{' && ReadBraces(cs) == Some(b) && StepAt(u, cs, s).Ok?
    requires s.inClass ==> b.min != "" && !s.head
    ensures Translate(u, cs, s) == Prefix(BracesText(WrittenMin(b), b.comma, b.max), Translate(u, cs[b.length..], s))
    ensures Conditions(u, cs, s) == Conditions(u, cs[b.length..], s)
  {
    hide Translate, StepAt, ReadBraces;
    ReadBracesText(cs);
    if s.inClass {
      BracesAreCopied(b, s);
      CopyFront(u, cs, b.length, s);
    } else {
      BraceStep(u, cs, s, b);
    }
  }

  lemma BraceStep(u: char -> bool, cs: string, s: Scan, b: Braces)
    requires cs != "" && cs[0] == '{' && ReadBraces(cs) == Some(b) && StepAt(u, cs, s).Ok? && !s.inClass
    ensures Translate(u, cs, s) == Prefix(BracesText(WrittenMin(b), b.comma, b.max), Translate(u, cs[b.length..], s))
    ensures Conditions(u, cs, s) == Conditions(u, cs[b.length..], s)
  {
    hide ReadBraces;
    ReadBracesText(cs);
    assert StepAt(u, cs, s) == StepBrace(cs, s);
    assert WrittenMin(b) == b.min ==> StepAt(u, cs, s).value.piece == cs[..b.length];
    if b.min == "" {
      assert cs[..b.length] == "{" + cs[1..b.length];
      assert cs[1..b.length] == "," + b.max + "}";
      assert StepAt(u, cs, s) == Ok(Step("{0" + cs[1..b.length], b.length, s));
      assert "{0" + cs[1..b.length] == BracesText("0", true, b.max);
    }
  }

  lemma BracesAreCopied(b: Braces, s: Scan)
    requires AllDigits(b.min) && AllDigits(b.max) && s.inClass && !s.head
    ensures forall i :: 0 <= i < |BracesText(b.min, b.comma, b.max)| ==> Copied(BracesText(b.min, b.comma, b.max)[i], s)
  {
  }

  lemma BraceReads(b: Braces, piece: string, rest: string)
    requires AllDigits(b.min) && AllDigits(b.max) && (b.min == "" ==> b.comma) && (b.max != "" ==> b.comma)
    requires piece == BracesText(WrittenMin(b), b.comma, b.max)
    requires BracesMax(b).Some? ==> BracesMax(b).value >= BracesMin(b)
    ensures Rust.RustRepeat(piece + rest) == Some(Rust.Next(Repeat(BracesMin(b), BracesMax(b)), |piece|, Outside))
  {
    BracesTextReads(WrittenMin(b), b.comma, b.max, rest);
    ZeroMinimum(b, Braces(WrittenMin(b), b.comma, b.max, |piece|));
  }

  lemma ZeroMinimum(b: Braces, written: Braces)
    requires AllDigits(b.min) && AllDigits(b.max) && (b.min == "" ==> b.comma)
    requires written.min == (if b.min == "" then "0" else b.min) && written.comma == b.comma && written.max == b.max
    ensures AllDigits(written.min)
    ensures BracesMin(written) == BracesMin(b) && BracesMax(written) == BracesMax(b)
  {
    assert DigitsValue("") == 0;
    assert "0"[..0] == "";
    assert DigitsValue("0") == 0;
  }

  // ----- escapes -----

  /** Python's reading of an escape that is one character. */
  function LiteralToken(mode: Mode, code: nat): Token {
    if mode == Outside then Lit(code) else ClassLit(code)
  }

  predicate LettersApart(c: char) {
    !IsDigit(c) && c != 'z' && !IsAnchorLetter(c) && !IsClassShorthand(c)
  }

  lemma RustLiteral(u: char -> bool, out: string, mode: Mode, code: nat, length: nat)
    requires |out| >= 2 && out[0] == '\\' && LettersApart(out[1])
    requires Rust.RustLiteralEscape(out) == Some((code, length))
    ensures Rust.RustNext(u, out, mode) == Some(Rust.Next(LiteralToken(mode, code), length, Behind(mode)))
  {
  }

  lemma HexEscapeLocal(cs: string, rest: string)
    requires |cs| >= 2 && HexWidth(cs[1]) > 0 && HexEscape(cs).Some?
    ensures var n := 2 + HexWidth(cs[1]);
            n <= |cs| && HexEscape(cs[..n] + rest) == HexEscape(cs)
  {
    var n := 2 + HexWidth(cs[1]);
    assert (cs[..n] + rest)[2..n] == cs[2..n];
  }

  lemma FollowHex(u: char -> bool, cs: string, p: Py.Reading, s: Scan, b: Beside) returns (piece: string, s2: Scan)
    requires Ready(u, cs, p, s, b) && |cs| >= 2 && cs[0] == '\\' && HexWidth(cs[1]) > 0
    ensures Followed(u, cs, p, s, b, piece, s2)
  {
    var n := 2 + HexWidth(cs[1]);
    piece, s2 := cs[..n], s.(head := false);
    PyHexNext(u, cs, p, b);
    HexStep(u, cs, s);
    var out := Translate(u, cs[n..], s2);
    HexAlike(u, cs, p, b, if out.Ok? then out.value else "");
  }

  lemma HexAlike(u: char -> bool, cs: string, p: Py.Reading, b: Beside, rest: string)
    requires |cs| >= 2 && cs[0] == '\\' && HexWidth(cs[1]) > 0 && Py.PyNext(u, cs, p).Some?
    requires p.mode != HeadDashes && Parallel(p.mode, b.rust)
    ensures 2 + HexWidth(cs[1]) <= |cs|
    ensures Alike(u, cs, p, b, cs[..2 + HexWidth(cs[1])] + rest, 2 + HexWidth(cs[1]))
  {
    var n := 2 + HexWidth(cs[1]);
    var out := cs[..n] + rest;
    PyHexNext(u, cs, p, b);
    HexEscapeLocal(cs, rest);
    assert out[0] == '\\' && out[1] == cs[1];
    if SurrogateEscape(cs) {
      assert Rust.RustLiteralEscape(out) == None;
      RustRefuses(u, out, b.rust);
    } else {
      RustLiteral(u, out, b.rust, HexEscape(cs).value, n);
    }
  }

  lemma RustRefuses(u: char -> bool, out: string, mode: Mode)
    requires |out| >= 2 && out[0] == '\\' && HexWidth(out[1]) > 0 && Rust.RustLiteralEscape(out) == None
    ensures Rust.RustNext(u, out, mode) == None
  {
  }

  lemma PyHexNext(u: char -> bool, cs: string, p: Py.Reading, b: Beside)
    requires |cs| >= 2 && cs[0] == '\\' && HexWidth(cs[1]) > 0 && Py.PyNext(u, cs, p).Some?
    ensures HexEscape(cs).Some? && 2 + HexWidth(cs[1]) <= |cs|
    ensures Py.PyNext(u, cs, p) == Some(Py.Next(LiteralToken(p.mode, HexEscape(cs).value), 2 + HexWidth(cs[1]),
                                                p.(mode := Behind(p.mode))))
    ensures Hazard(u, cs, p, b) <==> SurrogateEscape(cs)
  {
    if p.mode == Outside {
      assert Py.PyNext(u, cs, p) == Py.PyEscape(cs, p);
    } else {
      assert Py.PyNext(u, cs, p) == Py.PyClassEscape(cs, p);
    }
  }

  lemma HexStep(u: char -> bool, cs: string, s: Scan)
    requires |cs| >= 2 && cs[0] == '\\' && HexWidth(cs[1]) > 0 && HexEscape(cs).Some?
    ensures var n := 2 + HexWidth(cs[1]);
            && Translate(u, cs, s) == Prefix(cs[..n], Translate(u, cs[n..], s.(head := false)))
            && Conditions(u, cs, s) == Conditions(u, cs[n..], s.(head := false))
  {
    var n, s2 := 2 + HexWidth(cs[1]), s.(head := false);
    assert KnowsEscape(cs[1]);
    assert StepAt(u, cs, s) == StepEscape(cs, s) == Ok(Step(cs[..2], 2, s2));
    forall i | 2 <= i < n
      ensures Copied(cs[i], s2)
    {
      assert IsHex(cs[2..n][i - 2]);
    }
    CopyRest(u, cs, 2, n, s2);
    PushPiece(cs[..2], cs[2..n], Translate(u, cs[n..], s2));
    assert cs[..2] + cs[2..n] == cs[..n];
  }

  /** A letter escape, or a metacharacter's: copied, and read alike. */
  lemma FollowCopiedEscape(u: char -> bool, cs: string, p: Py.Reading, s: Scan, b: Beside) returns (piece: string, s2: Scan)
    requires Ready(u, cs, p, s, b) && |cs| >= 2 && cs[0] == '\\'
    requires !IsDigit(cs[1]) && HexWidth(cs[1]) == 0 && !MeansItself(cs[1]) && cs[1] != 'Z'
    ensures Followed(u, cs, p, s, b, piece, s2)
  {
    piece, s2 := cs[..2], s.(head := false);
    CopiedStep(u, cs, s);
    var rest := Translate(u, cs[2..], s2);
    assert Translate(u, cs, s) == Prefix(piece, rest);
    CopiedEscapeAlike(u, cs, p, b, if rest.Ok? then rest.value else "");
    CopiedReading(u, cs, p);
  }

  lemma CopiedReading(u: char -> bool, cs: string, p: Py.Reading)
    requires |cs| >= 2 && cs[0] == '\\' && !IsDigit(cs[1]) && Py.PyNext(u, cs, p).Some?
    ensures Py.PyNext(u, cs, p).value.reading == p.(mode := Behind(p.mode))
  {
  }

  lemma CopiedStep(u: char -> bool, cs: string, s: Scan)
    requires |cs| >= 2 && cs[0] == '\\' && StepAt(u, cs, s).Ok?
    requires !IsDigit(cs[1]) && !MeansItself(cs[1]) && cs[1] != 'Z'
    ensures StepAt(u, cs, s) == Ok(Step(cs[..2], 2, s.(head := false)))
  {
  }

  lemma CopiedEscapeAlike(u: char -> bool, cs: string, p: Py.Reading, b: Beside, rest: string)
    requires |cs| >= 2 && cs[0] == '\\' && Py.PyNext(u, cs, p).Some?
    requires p.mode != HeadDashes && Parallel(p.mode, b.rust)
    requires !IsDigit(cs[1]) && HexWidth(cs[1]) == 0 && !MeansItself(cs[1]) && cs[1] != 'Z'
    ensures Py.PyNext(u, cs, p).value.length == 2
    ensures Alike(u, cs, p, b, cs[..2] + rest, 2)
  {
    var out := cs[..2] + rest;
    assert out[0] == cs[0] && out[1] == cs[1];
    if p.mode == Outside {
      assert Py.PyNext(u, cs, p) == Py.PyEscape(cs, p);
      assert Rust.RustNext(u, out, Outside) == Rust.RustEscape(out);
    } else {
      assert Py.PyNext(u, cs, p) == Py.PyClassEscape(cs, p);
      assert Rust.RustNext(u, out, b.rust) == Rust.RustClassEscape(out, b.rust);
    }
  }

  lemma FollowTextEnd(u: char -> bool, cs: string, p: Py.Reading, s: Scan, b: Beside) returns (piece: string, s2: Scan)
    requires Ready(u, cs, p, s, b) && |cs| >= 2 && cs[0] == '\\' && cs[1] == 'Z'
    ensures Followed(u, cs, p, s, b, piece, s2)
  {
    hide ReadBraces, StepGroup, Py.PyGroup, Py.PyRepeat;
    piece, s2 := "\\z", s.(head := false);
    assert p.mode == Outside && !s.inClass;
    assert StepAt(u, cs, s) == Ok(Step(piece, 2, s2));
    var rest := Translate(u, cs[2..], s2);
    if rest.Ok? {
      var out := piece + rest.value;
      assert out[0] == '\\' && out[1] == 'z';
      assert Rust.RustNext(u, out, Outside) == Rust.RustEscape(out);
    }
  }

  /** Punctuation that means itself: the backslash is dropped. */
  lemma FollowDropped(u: char -> bool, cs: string, p: Py.Reading, s: Scan, b: Beside) returns (piece: string, s2: Scan)
    requires Ready(u, cs, p, s, b) && |cs| >= 2 && cs[0] == '\\' && MeansItself(cs[1])
    ensures Followed(u, cs, p, s, b, piece, s2)
  {
    piece, s2 := [cs[1]], s.(head := false);
    assert StepAt(u, cs, s) == Ok(Step(piece, 2, s2));
    var rest := Translate(u, cs[2..], s2);
    DroppedAlike(u, cs, p, b, if rest.Ok? then rest.value else "");
  }

  lemma DroppedAlike(u: char -> bool, cs: string, p: Py.Reading, b: Beside, rest: string)
    requires |cs| >= 2 && cs[0] == '\\' && MeansItself(cs[1])
    requires p.mode != HeadDashes && Parallel(p.mode, b.rust)
    ensures Py.PyNext(u, cs, p) == Some(Py.Next(LiteralToken(p.mode, cs[1] as nat), 2, p.(mode := Behind(p.mode))))
    ensures Alike(u, cs, p, b, [cs[1]] + rest, 1)
  {
    var out := [cs[1]] + rest;
    assert out[0] == cs[1];
    if p.mode == Outside {
      assert Py.PyNext(u, cs, p) == Py.PyEscape(cs, p);
    } else {
      assert Py.PyNext(u, cs, p) == Py.PyClassEscape(cs, p);
      assert Rust.RustNext(u, out, b.rust) == Rust.RustClassNext(out, b.rust);
    }
  }

  // ----- numbered escapes -----

  lemma OctalRunAt(cs: string, n: nat)
    requires n <= |cs| && forall i :: 0 <= i < n ==> IsOctal(cs[i])
    requires n < |cs| ==> !IsOctal(cs[n])
    ensures OctalRun(cs) == n
  {
  }

  /** Cutting off behind the digits leaves the octal digits where they are. */
  lemma OctalRunOfDigits(cs: string)
    ensures OctalRun(cs[..DigitRun(cs)]) == OctalRun(cs)
  {
    var n := OctalRun(cs);
    var digits := cs[..DigitRun(cs)];
    assert forall i :: 0 <= i < n ==> IsDigit(cs[i]);
    assert n <= |digits|;
    OctalRunAt(digits, n);
  }

  lemma HexTextReads(u: char -> bool, value: nat, rest: string, mode: Mode)
    requires value < 256
    ensures Rust.RustNext(u, HexText(value) + rest, mode) == Some(Rust.Next(LiteralToken(mode, value), 4, Behind(mode)))
  {
    var text := HexText(value);
    var out := text + rest;
    var digits := [HexChar(value / 16, false), HexChar(value % 16, false)];
    assert out[0] == '\\' && out[1] == 'x' && out[2..4] == digits;
    assert digits[..1] == [HexChar(value / 16, false)] && digits[..1][..0] == "";
    assert HexNumber(digits[..1]) == value / 16;
    assert HexNumber(digits) == value;
    RustLiteral(u, out, mode, value, 4);
  }

  /** Where Python reads an octal escape, of `span` digits. */
  function OctalSpan(cs: string, mode: Mode): (span: nat)
    requires |cs| >= 2 && IsDigit(cs[1])
    ensures span <= OctalRun(cs[1..])
  {
    var n := OctalRun(cs[1..]);
    if cs[1] == '0' || mode != Outside then (if n < 3 then n else 3)
    else if n >= 3 then 3
    else 0
  }

  lemma OctalStep(u: char -> bool, cs: string, s: Scan, mode: Mode)
    requires |cs| >= 2 && cs[0] == '\\' && IsDigit(cs[1]) && s.inClass == (mode != Outside)
    ensures var span := OctalSpan(cs, mode);
            StepAt(u, cs, s) ==
              if span == 0 then Ok(Step(cs[..2], 2, s.(head := false)))
              else if OctalValue(cs[1..][..span]) > 255 then Err(OctalTooLarge)
              else Ok(Step(HexText(OctalValue(cs[1..][..span])), 1 + span, s.(head := false)))
  {
    var digits := cs[1..][..DigitRun(cs[1..])];
    assert StepAt(u, cs, s) == StepEscape(cs, s);
    OctalRunOfDigits(cs[1..]);
    assert digits != "" && digits[0] == cs[1];
    NumberedEscape(digits, s.inClass, OctalSpan(cs, mode));
    assert digits[..OctalSpan(cs, mode)] == cs[1..][..OctalSpan(cs, mode)];
  }

  lemma NumberedEscape(digits: string, inClass: bool, span: nat)
    requires digits != "" && AllDigits(digits) && span <= |digits|
    requires span == (if digits[0] == '0' || inClass then (if OctalRun(digits) < 3 then OctalRun(digits) else 3)
                      else if OctalRun(digits) >= 3 then 3 else 0)
    ensures forall i :: 0 <= i < span ==> IsOctal(digits[i])
    ensures ReadNumberedEscape(digits, inClass) ==
      if span == 0 then Ok(BackReference)
      else if OctalValue(digits[..span]) > 255 then Err(OctalTooLarge)
      else Ok(Octal(HexText(OctalValue(digits[..span])), span))
  {
  }

  lemma PyOctalNext(u: char -> bool, cs: string, p: Py.Reading)
    requires |cs| >= 2 && cs[0] == '\\' && IsDigit(cs[1]) && OctalSpan(cs, p.mode) > 0
    ensures var span := OctalSpan(cs, p.mode);
            var value := OctalValue(cs[1..][..span]);
            Py.PyNext(u, cs, p) == if value > 255 then None
              else Some(Py.Next(LiteralToken(p.mode, value), 1 + span, p.(mode := Behind(p.mode))))
  {
    var n := OctalRun(cs[1..]);
    var span := OctalSpan(cs, p.mode);
    assert cs[1..][0] == cs[1] && IsOctal(cs[1]);
    assert cs[1..1 + span] == cs[1..][..span];
    if p.mode == Outside {
      assert Py.PyNext(u, cs, p) == Py.PyNumber(cs, p);
      if cs[1] == '0' {
        assert forall i :: 0 <= i < n - 1 ==> cs[2..][i] == cs[1..][i + 1];
        OctalRunAt(cs[2..], n - 1);
      } else {
        assert cs[1..][1] == cs[2] && cs[1..][2] == cs[3];
      }
    } else {
      assert Py.PyNext(u, cs, p) == Py.PyClassEscape(cs, p);
    }
  }

  lemma FollowOctal(u: char -> bool, cs: string, p: Py.Reading, s: Scan, b: Beside) returns (piece: string, s2: Scan)
    requires Ready(u, cs, p, s, b) && |cs| >= 2 && cs[0] == '\\' && IsDigit(cs[1])
    requires OctalSpan(cs, p.mode) > 0
    ensures Followed(u, cs, p, s, b, piece, s2)
  {
    hide Py.PyNext, Rust.RustNext, StepAt, ReadBraces, OctalValue;
    var span := OctalSpan(cs, p.mode);
    var value := OctalValue(cs[1..][..span]);
    ScanSpan(cs, p, s, b);
    OctalStep(u, cs, s, ScanMode(s));
    PyOctalNext(u, cs, p);
    piece, s2 := HexText(value), s.(head := false);
    NoOctalHazard(u, cs, p, b);
    var rest := Translate(u, cs[1 + span..], s2);
    assert Translate(u, cs, s) == Prefix(piece, rest);
    if rest.Ok? {
      HexTextReads(u, value, rest.value, b.rust);
    }
  }

  function ScanMode(s: Scan): Mode {
    if s.inClass then InClass else Outside
  }

  /** The scan finds the octal escapes that Python finds. */
  lemma ScanSpan(cs: string, p: Py.Reading, s: Scan, b: Beside)
    requires |cs| >= 2 && cs[0] == '\\' && IsDigit(cs[1]) && Synced(p, s, b) && !(b.astray && AstrayHazard(cs))
    ensures OctalSpan(cs, ScanMode(s)) == OctalSpan(cs, p.mode)
  {
    assert cs[1..][0] == cs[1];
  }

  lemma NoOctalHazard(u: char -> bool, cs: string, p: Py.Reading, b: Beside)
    requires |cs| >= 2 && cs[0] == '\\' && IsDigit(cs[1]) && OctalSpan(cs, p.mode) > 0
    ensures Hazard(u, cs, p, b) ==> b.astray && AstrayHazard(cs)
  {
    if p.mode == Outside && cs[1] != '0' {
      assert cs[1..][0] == cs[1] && cs[1..][1] == cs[2] && cs[1..][2] == cs[3];
    }
  }

  lemma {:induction false} MoreDigitsIsMore(a: string, b: string)
    requires AllDigits(a) && AllDigits(b) && DigitsValue(a) > 0
    ensures AllDigits(a + b)
    ensures if b == "" then DigitsValue(a + b) == DigitsValue(a) else DigitsValue(a + b) > DigitsValue(a)
  {
    if b == "" {
      assert a + b == a;
    } else {
      assert (a + b)[..|a + b| - 1] == a + b[..|b| - 1];
      MoreDigitsIsMore(a, b[..|b| - 1]);
    }
  }

  lemma FirstDigit(cs: string)
    requires 0 < |cs| <= 2 && AllDigits(cs) && cs[0] != '0'
    ensures DigitsValue(cs) > 0
  {
    assert cs[..1] == [cs[0]] && cs[..1][..0] == "";
    assert DigitsValue(cs[..1]) == DigitValue(cs[0]);
  }

  /** A reference of `digits`, as Rust reads it in front of `rest`. */
  lemma ReferenceReads(u: char -> bool, out: string, digits: string, rest: string)
    requires 0 < |digits| <= 2 && AllDigits(digits) && digits[0] != '0'
    requires out != "" && out[0] == '\\' && out[1..] == digits + rest
    ensures var r := Rust.RustNext(u, out, Outside);
            if rest != "" && IsDigit(rest[0]) then r.Some? && r.value.token != BackRef(DigitsValue(digits))
            else r == Some(Rust.Next(BackRef(DigitsValue(digits)), 1 + |digits|, Outside))
  {
    var more := rest[..DigitRun(rest)];
    var all := digits + more;
    assert out[1] == out[1..][0] == digits[0];
    assert AllDigits(all);
    DigitRunAt(digits + rest, |all|);
    assert (digits + rest)[..|all|] == all;
    FirstDigit(digits);
    MoreDigitsIsMore(digits, more);
    ReferenceNext(u, out, all);
  }

  lemma ReferenceNext(u: char -> bool, out: string, all: string)
    requires all != "" && |out| > |all| && out[0] == '\\' && out[1..][..|all|] == all && AllDigits(all)
    requires DigitRun(out[1..]) == |all|
    ensures Rust.RustNext(u, out, Outside) == Some(Rust.Next(BackRef(DigitsValue(all)), 1 + |all|, Outside))
  {
    assert out[1] == out[1..][..|all|][0];
    assert IsDigit(out[1]);
  }

  lemma DigitFollows(u: char -> bool, cs: string, s: Scan)
    requires Translate(u, cs, s).Ok?
    ensures (Translate(u, cs, s).value != "" && IsDigit(Translate(u, cs, s).value[0])) <==> (cs != "" && IsDigit(cs[0]))
  {
    var out := Translate(u, cs, s).value;
    if cs != "" && IsDigit(cs[0]) {
      FirstKept(u, cs, s, cs[0]);
    }
    if out != "" && IsDigit(out[0]) {
      FirstKept(u, cs, s, out[0]);
    }
  }

  lemma FollowReference(u: char -> bool, cs: string, p: Py.Reading, s: Scan, b: Beside) returns (piece: string, s2: Scan)
    requires Ready(u, cs, p, s, b) && |cs| >= 2 && cs[0] == '\\' && IsDigit(cs[1])
    requires OctalSpan(cs, p.mode) == 0
    ensures Followed(u, cs, p, s, b, piece, s2)
  {
    hide Py.PyNext, Rust.RustNext, StepAt, Translate, ReadBraces, Hazard, BesideNext, AstrayHazard, Conditions;
    var n := PyReferenceNext(u, cs, p);
    piece, s2 := cs[..n], s.(head := false);
    ScanSpan(cs, p, s, b);
    ReferenceStep(u, cs, s, n);
    var rest := Translate(u, cs[n..], s2);
    if rest.Ok? {
      DigitFollows(u, cs[n..], s2);
      ReferencePiece(u, cs, n, rest.value);
    }
    StaysBeside(u, cs, p, b);
    ReferenceHazard(u, cs, p, b);
  }

  lemma ReferenceHazard(u: char -> bool, cs: string, p: Py.Reading, b: Beside)
    requires |cs| >= 2 && cs[0] == '\\' && IsDigit(cs[1]) && p.mode == Outside
    ensures Hazard(u, cs, p, b) <==> LongReference(cs) || (b.astray && AstrayHazard(cs))
  {
  }

  lemma ReferenceStep(u: char -> bool, cs: string, s: Scan, n: nat)
    requires |cs| >= 2 && cs[0] == '\\' && IsDigit(cs[1]) && OctalSpan(cs, ScanMode(s)) == 0
    requires n == 2 || (n == 3 && |cs| > 2 && IsDigit(cs[2]))
    ensures Translate(u, cs, s) == Prefix(cs[..n], Translate(u, cs[n..], s.(head := false)))
    ensures Conditions(u, cs, s) == Conditions(u, cs[n..], s.(head := false))
  {
    var s2 := s.(head := false);
    OctalStep(u, cs, s, ScanMode(s));
    if n == 3 {
      CopyRest(u, cs, 2, 3, s2);
      PushPiece(cs[..2], cs[2..3], Translate(u, cs[3..], s2));
      assert cs[..2] + cs[2..3] == cs[..3];
    }
  }

  lemma ReferencePiece(u: char -> bool, cs: string, n: nat, rest: string)
    requires n <= |cs| && (n == 2 || n == 3) && AllDigits(cs[1..n]) && cs[0] == '\\' && cs[1] != '0'
    ensures var r := Rust.RustNext(u, cs[..n] + rest, Outside);
            if rest != "" && IsDigit(rest[0]) then r.Some? && r.value.token != BackRef(DigitsValue(cs[1..n]))
            else r == Some(Rust.Next(BackRef(DigitsValue(cs[1..n])), n, Outside))
  {
    assert (cs[..n] + rest)[1..] == cs[1..n] + rest;
    ReferenceReads(u, cs[..n] + rest, cs[1..n], rest);
  }

  lemma ThreeOctals(cs: string)
    requires |cs| > 2 && IsOctal(cs[0]) && IsOctal(cs[1]) && IsOctal(cs[2])
    ensures OctalRun(cs) >= 3
  {
  }

  lemma PyReferenceNext(u: char -> bool, cs: string, p: Py.Reading) returns (n: nat)
    requires |cs| >= 2 && cs[0] == '\\' && IsDigit(cs[1]) && OctalSpan(cs, p.mode) == 0
    requires Py.PyNext(u, cs, p).Some?
    ensures p.mode == Outside && cs[1] != '0' && (n == 2 || n == 3) && n <= |cs| && AllDigits(cs[1..n])
    ensures n == 3 <==> |cs| > 2 && IsDigit(cs[2])
    ensures Py.PyNext(u, cs, p) == Some(Py.Next(BackRef(DigitsValue(cs[1..n])), n, p))
    ensures LongReference(cs) <==> n == 3 && |cs| > 3 && IsDigit(cs[3])
  {
    assert cs[1..][0] == cs[1];
    n := if |cs| > 2 && IsDigit(cs[2]) then 3 else 2;
    if |cs| > 3 && IsOctal(cs[1]) && IsOctal(cs[2]) && IsOctal(cs[3]) {
      ThreeOctals(cs[1..]);
    }
    if p.mode != Outside {
      assert false;
    } else {
      assert Py.PyNext(u, cs, p) == Py.PyNumber(cs, p);
    }
  }

  // ----- groups -----

  lemma FlagRunAt(cs: string, n: nat)
    requires n <= |cs| && forall i :: 0 <= i < n ==> IsFlag(cs[i])
    requires n < |cs| ==> !IsFlag(cs[n])
    ensures FlagRun(cs) == n
  {
  }

  lemma WordRunAt(u: char -> bool, cs: string, n: nat)
    requires n <= |cs| && forall i :: 0 <= i < n ==> IsWord(u, cs[i])
    requires n < |cs| ==> !IsWord(u, cs[n])
    ensures WordRun(u, cs) == n
  {
  }

  /** A group opening is recognised by its own characters alone. */
  lemma HeaderLocal(u: char -> bool, cs: string, n: nat, rest: string)
    requires |cs| >= 2 && cs[0] == '(' && cs[1] == '?' && GroupHeader(u, cs) == Some(n)
    ensures GroupHeader(u, cs[..n] + rest) == Some(n)
  {
    var out := cs[..n] + rest;
    assert out[0] == cs[0] && out[1] == cs[1] && out[2] == cs[2];
    if cs[2] == 'P' {
      NameHeaderLocal(u, cs, n, rest);
    } else if cs[2] == '<' {
      assert out[3] == cs[3];
    } else if cs[2] !in {':', '=', '!', '>'} {
      FlagHeaderLocal(cs, n, rest);
    }
  }

  lemma NameHeaderLocal(u: char -> bool, cs: string, n: nat, rest: string)
    requires |cs| >= 3 && NameHeader(u, cs) == Some(n)
    ensures NameHeader(u, cs[..n] + rest) == Some(n)
  {
    var out := cs[..n] + rest;
    assert forall i :: 0 <= i < n ==> out[i] == cs[i];
    forall i | 0 <= i < n - 5
      ensures out[4..][i] == cs[4..][i]
    {
      assert out[i + 4] == cs[i + 4];
    }
    assert out[4..][n - 5] == cs[n - 1];
    WordRunAt(u, out[4..], n - 5);
  }

  /** A run of flags that ends within the first `n` characters ends there whatever
      follows them. */
  lemma FlagRunLocal(cs: string, n: nat, rest: string, from: nat)
    requires from <= n <= |cs| && from + FlagRun(cs[from..]) < n
    ensures FlagRun((cs[..n] + rest)[from..]) == FlagRun(cs[from..])
  {
    var out, k := cs[..n] + rest, FlagRun(cs[from..]);
    forall i | 0 <= i <= k
      ensures out[from..][i] == cs[from..][i]
    {
      assert out[from + i] == cs[from + i];
    }
    FlagRunAt(out[from..], k);
  }

  lemma FlagHeaderLocal(cs: string, n: nat, rest: string)
    requires |cs| >= 3 && FlagHeader(cs) == Some(n)
    ensures FlagHeader(cs[..n] + rest) == Some(n)
  {
    hide MayTurnOff, IsFlag, Run;
    var out, on := cs[..n] + rest, FlagRun(cs[2..]);
    FlagRunLocal(cs, n, rest, 2);
    assert out[2 + on] == cs[2 + on];
    if !(on > 0 && cs[2 + on] in {':', ')'}) {
      FlagRunLocal(cs, n, rest, 3 + on);
      assert out[n - 1] == cs[n - 1];
      var off := FlagRun(cs[3 + on..]);
      assert out[2..2 + on] == cs[2..2 + on] && out[3 + on..3 + on + off] == cs[3 + on..3 + on + off];
      assert out[3 + on..][..off] == out[3 + on..3 + on + off] && cs[3 + on..][..off] == cs[3 + on..3 + on + off];
    }
  }

  predicate Harmless(c: char) {
    c != '\\' && c != '[' && c != ']' && c != '^' && c != '(' && c != '{'
  }

  /** No character of a group opening, behind its parenthesis, is rewritten. */
  lemma HeaderCopied(u: char -> bool, cs: string, n: nat, s: Scan)
    requires |cs| >= 2 && cs[0] == '(' && cs[1] == '?' && GroupHeader(u, cs) == Some(n) && !(s.inClass && s.head)
    ensures forall i :: 1 <= i < n ==> Copied(cs[i], s)
  {
    hide NameHeader, FlagHeader;
    if cs[2] == 'P' {
      NameIsHarmless(u, cs, n);
    } else if cs[2] !in {':', '=', '!', '>', '<'} {
      FlagsAreHarmless(cs, n);
    }
    assert forall i :: 1 <= i < n ==> Harmless(cs[i]);
  }

  lemma NameIsHarmless(u: char -> bool, cs: string, n: nat)
    requires |cs| >= 3 && NameHeader(u, cs) == Some(n)
    ensures forall i :: 3 <= i < n ==> Harmless(cs[i])
  {
    forall i | 3 <= i < n
      ensures Harmless(cs[i])
    {
      if 4 <= i < n - 1 {
        assert cs[i] == cs[4..][i - 4];
      }
    }
  }

  lemma FlagsAreHarmless(cs: string, n: nat)
    requires |cs| >= 3 && FlagHeader(cs) == Some(n)
    ensures forall i :: 2 <= i < n ==> Harmless(cs[i])
  {
    var on := FlagRun(cs[2..]);
    forall i | 2 <= i < n
      ensures Harmless(cs[i])
    {
      if i < 2 + on {
        assert cs[i] == cs[2..][i - 2];
      } else if i > 2 + on && i < n - 1 {
        assert cs[i] == cs[3 + on..][i - 3 - on];
      }
    }
  }

  lemma FlagsNotRefused(cs: string, n: nat)
    requires |cs| >= 3 && FlagHeader(cs) == Some(n)
    ensures RefusedFlags(cs[2..]) == None
  {
    var flags := cs[2..];
    var on, k := FlagRun(flags), FlagSyntaxRun(flags);
    assert flags[on] == cs[2 + on];
    if flags[on] != '-' {
      assert k == on by {
        assert forall i :: 0 <= i < on ==> IsFlagSyntax(flags[i]);
      }
    } else {
      var off := FlagRun(cs[3 + on..]);
      assert forall i :: 1 + on <= i < 1 + on + off ==> flags[i] == cs[3 + on..][i - 1 - on];
      assert forall i :: 1 + on <= i < 1 + on + off ==> IsFlag(flags[i]);
      assert flags[1 + on + off] == ':';
      assert forall i :: 0 <= i < 1 + on + off ==> IsFlagSyntax(flags[i]) && flags[i] != 'a';
      assert k == 1 + on + off;
    }
  }

  lemma NoFlags(cs: string)
    requires |cs| > 2 && !IsFlagSyntax(cs[2])
    ensures RefusedFlags(cs[2..]) == None
  {
  }

  predicate IsNamedGroup(cs: string) {
    |cs| > 3 && cs[2] == 'P' && cs[3] == '<'
  }

  lemma HeaderKind(u: char -> bool, cs: string, n: nat)
    requires |cs| >= 2 && cs[0] == '(' && cs[1] == '?' && GroupHeader(u, cs) == Some(n)
    ensures ReadGroup(u, cs) == Ok(if IsNamedGroup(cs) then Capturing(Some(cs[4..n - 1])) else PlainGroup)
  {
    if cs[2] == 'P' || cs[2] in {':', '=', '!', '>', '<'} {
      NoFlags(cs);
    } else {
      FlagsNotRefused(cs, n);
    }
    if IsNamedGroup(cs) {
      assert cs[4..][..n - 5] == cs[4..n - 1];
    }
  }

  lemma FollowHeader(u: char -> bool, cs: string, p: Py.Reading, s: Scan, b: Beside, n: nat) returns (piece: string, s2: Scan)
    requires Ready(u, cs, p, s, b) && p.mode == Outside
    requires |cs| > 2 && cs[0] == '(' && cs[1] == '?' && cs[2] != '(' && GroupHeader(u, cs) == Some(n)
    ensures Followed(u, cs, p, s, b, piece, s2)
  {
    hide Translate, Conditions, StepAt, Rust.RustNext, Py.PyNext, Hazard, ReadBraces;
    piece := cs[..n];
    s2 := if IsNamedGroup(cs) && !s.inClass then s.(groups := s.groups + [Some(cs[4..n - 1])]) else s;
    PyHeaderNext(u, cs, p, b, n);
    HeaderStep(u, cs, s, n, s2);
    var rest := Translate(u, cs[n..], s2);
    HeaderReads(u, cs, n, if rest.Ok? then rest.value else "");
  }

  lemma PyHeaderNext(u: char -> bool, cs: string, p: Py.Reading, b: Beside, n: nat)
    requires p.mode == Outside && |cs| > 2 && cs[0] == '(' && cs[1] == '?' && cs[2] != '(' && GroupHeader(u, cs) == Some(n)
    requires Py.PyNext(u, cs, p).Some?
    ensures Py.PyNext(u, cs, p) == Some(Py.Next(Group(cs[..n]), n,
              if IsNamedGroup(cs) then p.(groups := p.groups + [Some(cs[4..n - 1])]) else p))
    ensures !Hazard(u, cs, p, b)
  {
    assert Py.PyNext(u, cs, p) == Py.PyGroup(u, cs, p);
  }

  lemma HeaderStep(u: char -> bool, cs: string, s: Scan, n: nat, s2: Scan)
    requires |cs| > 2 && cs[0] == '(' && cs[1] == '?' && cs[2] != '(' && GroupHeader(u, cs) == Some(n)
    requires !(s.inClass && s.head)
    requires s2 == if IsNamedGroup(cs) && !s.inClass then s.(groups := s.groups + [Some(cs[4..n - 1])]) else s
    ensures Translate(u, cs, s) == Prefix(cs[..n], Translate(u, cs[n..], s2))
    ensures ConditionAt(u, cs, s) == [] && Conditions(u, cs, s) == Conditions(u, cs[n..], s2)
  {
    hide Translate, Conditions, GroupHeader, StepAt, Copied;
    HeaderStart(u, cs, s, n, s2);
    OneStep(u, cs, s, Step([cs[0]], 1, s2));
    HeaderCopied(u, cs, n, s2);
    CopyRest(u, cs, 1, n, s2);
    PushPiece([cs[0]], cs[1..n], Translate(u, cs[n..], s2));
    assert [cs[0]] + cs[1..n] == cs[..n];
  }

  lemma HeaderStart(u: char -> bool, cs: string, s: Scan, n: nat, s2: Scan)
    requires |cs| > 2 && cs[0] == '(' && cs[1] == '?' && cs[2] != '(' && GroupHeader(u, cs) == Some(n)
    requires !(s.inClass && s.head)
    requires s2 == if IsNamedGroup(cs) && !s.inClass then s.(groups := s.groups + [Some(cs[4..n - 1])]) else s
    ensures StepAt(u, cs, s) == Ok(Step([cs[0]], 1, s2)) && ConditionAt(u, cs, s) == []
  {
    hide ReadGroup, GroupHeader;
    if !s.inClass {
      HeaderKind(u, cs, n);
      assert StepAt(u, cs, s) == StepGroup(u, cs, s);
    }
  }

  lemma HeaderReads(u: char -> bool, cs: string, n: nat, rest: string)
    requires |cs| > 2 && cs[0] == '(' && cs[1] == '?' && cs[2] != '(' && GroupHeader(u, cs) == Some(n)
    ensures Rust.RustNext(u, cs[..n] + rest, Outside) == Some(Rust.Next(Group(cs[..n]), n, Outside))
  {
    var out := cs[..n] + rest;
    HeaderLocal(u, cs, n, rest);
    assert out[..n] == cs[..n] && out[0] == cs[0] && out[1] == cs[1] && out[2] == cs[2];
    assert Rust.RustNext(u, out, Outside) == Rust.RustGroup(u, out);
  }

  lemma CopyRest(u: char -> bool, cs: string, from: nat, to: nat, s: Scan)
    requires from <= to <= |cs| && forall i :: from <= i < to ==> Copied(cs[i], s)
    ensures Translate(u, cs[from..], s) == Prefix(cs[from..to], Translate(u, cs[to..], s))
    ensures Conditions(u, cs[from..], s) == Conditions(u, cs[to..], s)
  {
    assert cs[from..] == cs[from..to] + cs[to..];
    CopyPlain(u, cs[from..to], cs[to..], s);
  }

  lemma CopyFront(u: char -> bool, cs: string, n: nat, s: Scan)
    requires n <= |cs| && forall i :: 0 <= i < n ==> Copied(cs[..n][i], s)
    ensures Translate(u, cs, s) == Prefix(cs[..n], Translate(u, cs[n..], s))
    ensures Conditions(u, cs, s) == Conditions(u, cs[n..], s)
  {
    assert cs == cs[..n] + cs[n..];
    CopyPlain(u, cs[..n], cs[n..], s);
  }

  lemma FollowCapture(u: char -> bool, cs: string, p: Py.Reading, s: Scan, b: Beside) returns (piece: string, s2: Scan)
    requires Ready(u, cs, p, s, b) && p.mode == Outside && cs[0] == '(' && (|cs| < 2 || cs[1] != '?')
    ensures Followed(u, cs, p, s, b, piece, s2)
  {
    piece, s2 := "(", if s.inClass then s else s.(groups := s.groups + [None]);
    assert StepAt(u, cs, s) == Ok(Step([cs[0]], 1, s2));
    var rest := Translate(u, cs[1..], s2);
    if rest.Ok? {
      var out := piece + rest.value;
      FirstKept(u, cs[1..], s2, '?');
      FirstKept(u, cs[1..], s2, '*');
      assert rest.value != "" ==> out[1] == rest.value[0];
      assert Rust.RustNext(u, out, Outside) == Rust.RustGroup(u, out);
    }
  }

  lemma ConditionKind(u: char -> bool, cs: string)
    requires |cs| > 2 && cs[0] == '(' && cs[1] == '?' && cs[2] == '('
    ensures ReadGroup(u, cs) == Ok(ReadCondition(u, cs[3..]))
  {
    NoFlags(cs);
  }

  lemma FollowNumberCondition(u: char -> bool, cs: string, p: Py.Reading, s: Scan, b: Beside) returns (piece: string, s2: Scan)
    requires Ready(u, cs, p, s, b) && p.mode == Outside
    requires |cs| > 2 && cs[0] == '(' && cs[1] == '?' && cs[2] == '(' && DigitRun(cs[3..]) > 0
    ensures Followed(u, cs, p, s, b, piece, s2)
  {
    var d := DigitRun(cs[3..]);
    var n := 4 + d;
    assert Py.PyNext(u, cs, p) == Py.PyCondition(u, cs, p);
    piece, s2 := cs[..n], if s.inClass then s else s.(groups := s.groups + [None]);
    NumberConditionStep(u, cs, s);
    var rest := Translate(u, cs[n..], s2);
    NumberConditionPiece(u, cs, if rest.Ok? then rest.value else "");
  }

  lemma NumberConditionPiece(u: char -> bool, cs: string, rest: string)
    requires |cs| > 2 && cs[0] == '(' && cs[1] == '?' && cs[2] == '('
    requires var d := DigitRun(cs[3..]); d > 0 && 3 + d < |cs| && cs[3 + d] == ')'
    ensures (var d := DigitRun(cs[3..]);
             Rust.RustNext(u, cs[..4 + d] + rest, Outside)
             == Some(Rust.Next(Condition(DigitsValue(cs[3..][..d])), 4 + d, Outside)))
  {
    var d := DigitRun(cs[3..]);
    assert (cs[..4 + d] + rest)[3..] == cs[3..][..d] + (")" + rest);
    NumberConditionReads(u, cs[..4 + d] + rest, cs[3..][..d], rest);
  }

  /** The parenthesis of the condition itself is counted as one more group. */
  lemma NumberConditionStep(u: char -> bool, cs: string, s: Scan)
    requires |cs| > 2 && cs[0] == '(' && cs[1] == '?' && cs[2] == '(' && !(s.inClass && s.head)
    requires ReadCondition(u, cs[3..]).NumberCondition? && ReadCondition(u, cs[3..]).number > 0
    ensures var n := 4 + DigitRun(cs[3..]);
            && n <= |cs|
            && Translate(u, cs, s) == Prefix(cs[..n], Translate(u, cs[n..],
                 if s.inClass then s else s.(groups := s.groups + [None])))
            && Conditions(u, cs, s) == ConditionAt(u, cs, s) + Conditions(u, cs[n..],
                 if s.inClass then s else s.(groups := s.groups + [None]))
  {
    hide Translate, Conditions, StepAt, ConditionAt, ReadCondition, Copied;
    var d := DigitRun(cs[3..]);
    var n, s2 := 4 + d, if s.inClass then s else s.(groups := s.groups + [None]);
    NumberConditionCloses(u, cs);
    ConditionStart(u, cs, s);
    OneStep(u, cs, s, Step([cs[0]], 1, s));
    QuestionIsCopied(s);
    CopyRest(u, cs, 1, 2, s);
    InnerParenthesis(u, cs[2..], s);
    OneStep(u, cs[2..], s, Step([cs[2]], 1, s2));
    assert cs[2..][1..] == cs[3..];
    assert [] + Conditions(u, cs[3..], s2) == Conditions(u, cs[3..], s2);
    DigitsAreCopied(cs, n, s2);
    CopyRest(u, cs, 3, n, s2);
    Join4(cs, n, Translate(u, cs[n..], s2));
  }

  lemma QuestionIsCopied(s: Scan)
    requires !(s.inClass && s.head)
    ensures Copied('?', s)
  {
  }

  lemma NumberConditionCloses(u: char -> bool, cs: string)
    requires |cs| > 2 && ReadCondition(u, cs[3..]).NumberCondition?
    ensures DigitRun(cs[3..]) > 0 && 3 + DigitRun(cs[3..]) < |cs| && cs[3 + DigitRun(cs[3..])] == ')'
  {
    assert cs[3..][DigitRun(cs[3..])] == cs[3 + DigitRun(cs[3..])];
  }

  lemma DigitsAreCopied(cs: string, n: nat, s: Scan)
    requires 3 < n <= |cs| && n == 4 + DigitRun(cs[3..]) && cs[n - 1] == ')' && !(s.inClass && s.head)
    ensures forall i :: 3 <= i < n ==> Copied(cs[i], s)
  {
    forall i | 3 <= i < n
      ensures Copied(cs[i], s)
    {
      if i < n - 1 {
        assert cs[i] == cs[3..][i - 3];
      }
    }
  }

  lemma ConditionStart(u: char -> bool, cs: string, s: Scan)
    requires |cs| > 2 && cs[0] == '(' && cs[1] == '?' && cs[2] == '(' && !(s.inClass && s.head)
    requires ReadCondition(u, cs[3..]).NumberCondition? && ReadCondition(u, cs[3..]).number > 0
    ensures StepAt(u, cs, s) == Ok(Step([cs[0]], 1, s))
  {
    ConditionKind(u, cs);
  }

  lemma InnerParenthesis(u: char -> bool, cs: string, s: Scan)
    requires |cs| > 1 && cs[0] == '(' && cs[1] != '*' && cs[1] != '?' && !(s.inClass && s.head)
    ensures StepAt(u, cs, s) == Ok(Step([cs[0]], 1, if s.inClass then s else s.(groups := s.groups + [None])))
    ensures ConditionAt(u, cs, s) == []
  {
  }

  lemma Join4(cs: string, n: nat, rest: Result<string, Refusal>)
    requires 3 <= n <= |cs|
    ensures Prefix([cs[0]], Prefix(cs[1..2], Prefix([cs[2]], Prefix(cs[3..n], rest)))) == Prefix(cs[..n], rest)
  {
    PushPiece([cs[2]], cs[3..n], rest);
    PushPiece(cs[1..2], [cs[2]] + cs[3..n], rest);
    PushPiece([cs[0]], cs[1..2] + ([cs[2]] + cs[3..n]), rest);
    assert [cs[0]] + (cs[1..2] + ([cs[2]] + cs[3..n])) == cs[..n];
  }

  lemma NumberConditionReads(u: char -> bool, out: string, digits: string, rest: string)
    requires digits != "" && AllDigits(digits)
    requires |out| > 3 && out[0] == '(' && out[1] == '?' && out[2] == '(' && out[3..] == digits + (")" + rest)
    ensures Rust.RustNext(u, out, Outside)
         == Some(Rust.Next(Condition(DigitsValue(digits)), 4 + |digits|, Outside))
  {
    var d := |digits|;
    DigitRunIs(digits, ")" + rest);
    assert out[3..][..d] == digits;
    assert out[3..][d] == ')';
    assert out[3 + d] == ')';
    assert Rust.RustNext(u, out, Outside) == Rust.RustGroup(u, out);
  }

  lemma FollowNameCondition(u: char -> bool, cs: string, p: Py.Reading, s: Scan, b: Beside) returns (piece: string, s2: Scan)
    requires Ready(u, cs, p, s, b) && p.mode == Outside
    requires IsCondition(cs) && !IsDigit(cs[3])
    ensures Followed(u, cs, p, s, b, piece, s2)
  {
    hide Rust.RustNext, ReadBraces, Rust.RustGroup, Translate, Conditions, ConditionAt, Hazard, BesideNext, StepAt, Py.PyNext, Decimal;
    var n, i := NameConditionStep(u, cs, p, s);
    piece, s2 := "(?(" + Decimal(i + 1) + ")", s.(head := false);
    OneStep(u, cs, s, Step(piece, 4 + n, s2));
    var rest := Translate(u, cs[4 + n..], s2);
    NameConditionPiece(u, i + 1, if rest.Ok? then rest.value else "");
    StaysBeside(u, cs, p, b);
    ConditionHazard(u, cs, p, b);
  }

  lemma ConditionHazard(u: char -> bool, cs: string, p: Py.Reading, b: Beside)
    requires IsCondition(cs) && p.mode == Outside && !b.astray
    ensures Hazard(u, cs, p, b) <==> Miscounted(u, cs, p, b)
  {
  }

  lemma NameConditionStep(u: char -> bool, cs: string, p: Py.Reading, s: Scan) returns (n: nat, i: nat)
    requires IsCondition(cs) && !IsDigit(cs[3]) && p.mode == Outside && !s.inClass
    requires Py.PyNext(u, cs, p).Some? && StepAt(u, cs, s).Ok?
    ensures Position(s.groups, ConditionName(u, cs)) == Some(i) && Position(p.groups, ConditionName(u, cs)).Some?
    ensures 4 + n <= |cs|
    ensures Py.PyNext(u, cs, p) == Some(Py.Next(Condition(Position(p.groups, ConditionName(u, cs)).value + 1), 4 + n, p))
    ensures StepAt(u, cs, s) == Ok(Step("(?(" + Decimal(i + 1) + ")", 4 + n, s.(head := false)))
    ensures ConditionAt(u, cs, s) == [Target(i + 1, Some(ConditionName(u, cs)))]
  {
    hide Translate, Rust.RustNext;
    n := WordRun(u, cs[3..]);
    assert cs[3..][0] == cs[3];
    assert Py.PyNext(u, cs, p) == Py.PyCondition(u, cs, p);
    ConditionKind(u, cs);
    assert ReadCondition(u, cs[3..]) == NameCondition(ConditionName(u, cs));
    i := Position(s.groups, ConditionName(u, cs)).value;
  }

  lemma NameConditionPiece(u: char -> bool, number: nat, rest: string)
    ensures var piece := "(?(" + Decimal(number) + ")";
            Rust.RustNext(u, piece + rest, Outside) == Some(Rust.Next(Condition(number), |piece|, Outside))
  {
    hide Rust.RustNext, Decimal;
    var piece := "(?(" + Decimal(number) + ")";
    DecimalReads(number);
    assert (piece + rest)[3..] == Decimal(number) + (")" + rest);
    NumberConditionReads(u, piece + rest, Decimal(number), rest);
  }

  lemma FollowGroup(u: char -> bool, cs: string, p: Py.Reading, s: Scan, b: Beside) returns (piece: string, s2: Scan)
    requires Ready(u, cs, p, s, b) && p.mode == Outside && cs[0] == '('
    ensures Followed(u, cs, p, s, b, piece, s2)
  {
    if |cs| < 2 || cs[1] != '?' {
      piece, s2 := FollowCapture(u, cs, p, s, b);
    } else if |cs| > 2 && cs[2] == '(' {
      assert |cs| > 3 && cs[3..][0] == cs[3];
      if IsDigit(cs[3]) {
        piece, s2 := FollowNumberCondition(u, cs, p, s, b);
      } else {
        piece, s2 := FollowNameCondition(u, cs, p, s, b);
      }
    } else {
      piece, s2 := FollowHeader(u, cs, p, s, b, GroupHeader(u, cs).value);
    }
  }

  lemma FollowEscape(u: char -> bool, cs: string, p: Py.Reading, s: Scan, b: Beside) returns (piece: string, s2: Scan)
    requires Ready(u, cs, p, s, b) && cs[0] == '\\'
    ensures Followed(u, cs, p, s, b, piece, s2)
  {
    assert |cs| >= 2;
    if IsDigit(cs[1]) {
      if OctalSpan(cs, p.mode) > 0 {
        piece, s2 := FollowOctal(u, cs, p, s, b);
      } else {
        piece, s2 := FollowReference(u, cs, p, s, b);
      }
    } else if cs[1] == 'Z' {
      piece, s2 := FollowTextEnd(u, cs, p, s, b);
    } else if HexWidth(cs[1]) > 0 {
      piece, s2 := FollowHex(u, cs, p, s, b);
    } else if MeansItself(cs[1]) {
      piece, s2 := FollowDropped(u, cs, p, s, b);
    } else {
      piece, s2 := FollowCopiedEscape(u, cs, p, s, b);
    }
  }

  lemma Follow(u: char -> bool, cs: string, p: Py.Reading, s: Scan, b: Beside) returns (piece: string, s2: Scan)
    requires Ready(u, cs, p, s, b)
    ensures Followed(u, cs, p, s, b, piece, s2)
  {
    if cs[0] == '\\' {
      piece, s2 := FollowEscape(u, cs, p, s, b);
    } else if p.mode != Outside {
      piece, s2 := FollowClassChar(u, cs, p, s, b);
    } else if cs[0] == '[' {
      piece, s2 := FollowOpenClass(u, cs, p, s, b);
    } else if cs[0] == '(' {
      piece, s2 := FollowGroup(u, cs, p, s, b);
    } else if cs[0] == '{' {
      piece := FollowBrace(u, cs, p, s, b);
      s2 := s;
    } else {
      s2 := FollowPlain(u, cs, p, s, b);
      piece := [cs[0]];
    }
  }

  // ----- what is refused -----

  /** Whatever Python reads, the translator takes, but for a condition on a group that
      the scan has not counted. */
  lemma Accepts(u: char -> bool, cs: string, p: Py.Reading, s: Scan, b: Beside)
    requires cs != "" && Py.PyNext(u, cs, p).Some? && Synced(p, s, b)
    ensures StepAt(u, cs, s).Err? ==> Miscounted(u, cs, p, b) && !b.astray
    ensures StepAt(u, cs, s).Err? ==> Position(b.counted, ConditionName(u, cs)) == None
  {
    if cs[0] == '\\' {
      AcceptsEscape(u, cs, p, s, b);
    } else if !s.inClass && cs[0] == '(' {
      AcceptsGroup(u, cs, p, s, b);
    } else if !s.inClass && cs[0] == '{' && ReadBraces(cs).Some? {
      var braces := ReadBraces(cs).value;
      ExceedsIsGreater(braces.min, braces.max);
      ReadBracesText(cs);
    }
  }

  lemma AcceptsEscape(u: char -> bool, cs: string, p: Py.Reading, s: Scan, b: Beside)
    requires cs != "" && cs[0] == '\\' && Py.PyNext(u, cs, p).Some? && Synced(p, s, b)
    ensures StepAt(u, cs, s).Ok?
  {
    if p.mode == Outside {
      assert Py.PyNext(u, cs, p) == Py.PyEscape(cs, p);
    } else {
      assert Py.PyNext(u, cs, p) == Py.PyClassEscape(cs, p);
    }
    if IsDigit(cs[1]) {
      OctalStep(u, cs, s, ScanMode(s));
      if OctalSpan(cs, p.mode) > 0 {
        PyOctalNext(u, cs, p);
      } else if OctalSpan(cs, ScanMode(s)) > 0 {
        ShortOctal(cs[1..][..OctalSpan(cs, ScanMode(s))]);
      }
    }
  }

  /** Two octal digits never exceed a byte. */
  lemma ShortOctal(digits: string)
    requires 0 < |digits| <= 2 && forall i :: 0 <= i < |digits| ==> IsOctal(digits[i])
    ensures OctalValue(digits) <= 63
  {
    var front := digits[..|digits| - 1];
    assert front != "" ==> front == [digits[0]] && front[..0] == "";
    assert OctalValue(front) <= 7;
  }

  lemma AcceptsGroup(u: char -> bool, cs: string, p: Py.Reading, s: Scan, b: Beside)
    requires cs != "" && cs[0] == '(' && p.mode == Outside && Py.PyNext(u, cs, p).Some? && !s.inClass
    requires s.groups == b.counted
    ensures StepAt(u, cs, s).Err? ==> Miscounted(u, cs, p, b) && Position(b.counted, ConditionName(u, cs)) == None
  {
    assert Py.PyNext(u, cs, p) == Py.PyGroup(u, cs, p);
    if |cs| > 2 && cs[1] == '?' && cs[2] == '(' {
      ConditionKind(u, cs);
      assert |cs| > 3 && cs[3..][0] == cs[3];
    } else if |cs| > 1 && cs[1] == '?' {
      HeaderKind(u, cs, GroupHeader(u, cs).value);
    }
  }

  lemma {:induction false} DigitsBelow(s: string)
    requires AllDigits(s)
    ensures DigitsValue(s) < Power10(|s|)
  {
    if s != "" {
      DigitsBelow(s[..|s| - 1]);
    }
  }

  lemma {:induction false} FromTheFront(s: string)
    requires AllDigits(s) && s != ""
    ensures AllDigits(s[1..]) && DigitsValue(s) == DigitValue(s[0]) * Power10(|s| - 1) + DigitsValue(s[1..])
  {
    if |s| > 1 {
      var front := s[..|s| - 1];
      FromTheFront(front);
      assert front[1..] == s[1..][..|s| - 2];
      assert front[0] == s[0];
      TenTimes(DigitValue(s[0]), Power10(|s| - 2));
    } else {
      assert s[..0] == "" && s[1..] == "";
    }
  }

  lemma TenTimes(d: nat, power: nat)
    ensures 10 * (d * power) == d * (10 * power)
  {
  }

  lemma {:induction false} SignificantValue(s: string)
    requires AllDigits(s)
    ensures AllDigits(Significant(s)) && DigitsValue(Significant(s)) == DigitsValue(s)
    ensures Significant(s) != "" ==> Significant(s)[0] != '0'
  {
    if s != "" && s[0] == '0' {
      FromTheFront(s);
      SignificantValue(s[1..]);
    }
  }

  lemma {:induction false} LaterIsGreater(a: string, b: string)
    requires |a| == |b| && AllDigits(a) && AllDigits(b)
    ensures Later(a, b) <==> DigitsValue(a) > DigitsValue(b)
  {
    if a != "" {
      FromTheFront(a);
      FromTheFront(b);
      LaterIsGreater(a[1..], b[1..]);
      DigitsBelow(a[1..]);
      DigitsBelow(b[1..]);
      LeadingDigit(DigitValue(a[0]), DigitValue(b[0]), Power10(|a| - 1));
      LeadingDigit(DigitValue(b[0]), DigitValue(a[0]), Power10(|a| - 1));
    }
  }

  lemma LeadingDigit(a: nat, b: nat, power: nat)
    ensures a > b ==> a * power >= b * power + power
  {
    if a > b {
      Spread(b, a - b - 1, power);
    }
  }

  lemma Spread(b: nat, more: nat, power: nat)
    ensures (b + 1 + more) * power == b * power + power + more * power
    ensures more * power >= 0
  {
  }

  lemma LongerIsGreater(a: string, b: string)
    requires AllDigits(a) && AllDigits(b) && |a| > |b| && a[0] != '0'
    ensures DigitsValue(a) > DigitsValue(b)
  {
    FromTheFront(a);
    DigitsBelow(b);
    LeadingDigit(DigitValue(a[0]), 0, Power10(|a| - 1));
    PowerGrows(|b|, |a| - 1);
  }

  lemma {:induction false} PowerGrows(m: nat, n: nat)
    requires m <= n
    ensures Power10(m) <= Power10(n)
  {
    if m < n {
      PowerGrows(m, n - 1);
    }
  }

  /** Comparing the digits compares the numbers, however long they are. */
  lemma ExceedsIsGreater(minimum: string, maximum: string)
    requires AllDigits(minimum) && AllDigits(maximum)
    ensures Exceeds(minimum, maximum) <==> DigitsValue(minimum) > DigitsValue(maximum)
  {
    SignificantValue(minimum);
    SignificantValue(maximum);
    var a, b := Significant(minimum), Significant(maximum);
    if |a| > |b| {
      LongerIsGreater(a, b);
    } else if |a| < |b| {
      LongerIsGreater(b, a);
    } else {
      LaterIsGreater(a, b);
    }
  }

  // ----- astray -----

  /** Where the scan is astray, Rust does not read the token that Python reads at a
      hazard of that kind. */
  lemma AstrayDiffers(u: char -> bool, cs: string, p: Py.Reading, s: Scan, b: Beside)
    requires cs != "" && Py.PyNext(u, cs, p).Some? && Synced(p, s, b) && b.astray && AstrayHazard(cs)
    requires Translate(u, cs, s).Ok?
    ensures Translate(u, cs, s).value != ""
    ensures var r := Rust.RustNext(u, Translate(u, cs, s).value, Outside);
            r.None? || r.value.token != Py.PyNext(u, cs, p).value.token
  {
    var out := Translate(u, cs, s).value;
    if cs[0] == '[' {
      assert StepAt(u, cs, s) == Ok(Step("\\[", 1, s));
      assert out[0] == '\\' && out[1] == '[';
    } else if cs[0] == '{' {
      AstrayBrace(u, cs, p, s);
    } else if cs[0] == '(' {
      AstrayCondition(u, cs, p, s);
    } else if cs[1] == 'Z' {
      assert StepAt(u, cs, s) == StepEscape(cs, s) == Ok(Step(cs[..2], 2, s));
      assert out[0] == '\\' && out[1] == 'Z';
    } else {
      AstrayReference(u, cs, p, s);
    }
  }

  lemma AstrayBrace(u: char -> bool, cs: string, p: Py.Reading, s: Scan)
    requires cs != "" && cs[0] == '{' && p.mode == Outside && Py.PyNext(u, cs, p).Some?
    requires ReadBraces(cs).None? || ReadBraces(cs).value.min == ""
    requires s.inClass && !s.head && Translate(u, cs, s).Ok?
    ensures Translate(u, cs, s).value != ""
    ensures var r := Rust.RustNext(u, Translate(u, cs, s).value, Outside);
            r.None? || r.value.token != Py.PyNext(u, cs, p).value.token
  {
    var out := Translate(u, cs, s).value;
    assert StepAt(u, cs, s) == Ok(Step([cs[0]], 1, s));
    assert Rust.RustNext(u, out, Outside) == Rust.RustRepeat(out);
    if ReadBraces(cs).Some? {
      assert cs[1] == ',';
      PieceStart(u, cs[1..], s);
      assert StepAt(u, cs[1..], s) == Ok(Step([','], 1, s));
      assert out[1] == ',';
      assert DigitRun(out[1..]) == 0;
    }
  }

  lemma AstrayCondition(u: char -> bool, cs: string, p: Py.Reading, s: Scan)
    requires IsCondition(cs) && !IsDigit(cs[3]) && p.mode == Outside && Py.PyNext(u, cs, p).Some?
    requires s.inClass && !s.head && Translate(u, cs, s).Ok?
    ensures Translate(u, cs, s).value != ""
    ensures var r := Rust.RustNext(u, Translate(u, cs, s).value, Outside);
            r.None? || r.value.token != Py.PyNext(u, cs, p).value.token
  {
    assert cs[3..][0] == cs[3];
    assert Py.PyNext(u, cs, p) == Py.PyCondition(u, cs, p);
    assert IsWord(u, cs[3..][0]);
    CopyRest(u, cs, 0, 4, s);
    assert cs[0..] == cs && cs[0..4] == ['(', '?', '(', cs[3]];
    var out := Translate(u, cs, s).value;
    assert out[..4] == cs[0..4];
    assert out[3..][0] == cs[3];
  }

  lemma AstrayReference(u: char -> bool, cs: string, p: Py.Reading, s: Scan)
    requires |cs| > 1 && cs[0] == '\\' && IsOctal(cs[1]) && OctalSpan(cs, Outside) == 0
    requires p.mode == Outside && Py.PyNext(u, cs, p).Some?
    requires s.inClass && Translate(u, cs, s).Ok?
    ensures Translate(u, cs, s).value != ""
    ensures var r := Rust.RustNext(u, Translate(u, cs, s).value, Outside);
            r.None? || r.value.token != Py.PyNext(u, cs, p).value.token
  {
    var n := PyReferenceNext(u, cs, p);
    assert cs[1..][0] == cs[1];
    var span := OctalSpan(cs, InClass);
    OctalStep(u, cs, s, InClass);
    var value := OctalValue(cs[1..][..span]);
    HexTextReads(u, value, Translate(u, cs[1 + span..], s.(head := false)).value, Outside);
  }

  // ----- the theorem -----

  lemma LexStep(u: char -> bool, cs: string, p: Py.Reading, b: Beside, piece: string, rest: string)
    requires cs != "" && piece != "" && Py.PyLex(u, cs, p).Some?
    requires Alike(u, cs, p, b, piece + rest, |piece|)
    ensures (var next := Py.PyNext(u, cs, p).value;
             Rust.RustLex(u, piece + rest, b.rust) == Py.PyLex(u, cs, p)
             <==> (!Hazard(u, cs, p, b)
                   && Rust.RustLex(u, rest, BesideNext(u, cs, p, b).rust) == Py.PyLex(u, cs[next.length..], next.reading)))
  {
    hide Hazard, BesideNext, Rust.RustNext, Py.PyNext;
    var next := Py.PyNext(u, cs, p).value;
    assert (piece + rest)[|piece|..] == rest;
    assert Py.PyLex(u, cs, p).value[0] == next.token;
    assert Py.PyLex(u, cs, p).value[1..] == Py.PyLex(u, cs[next.length..], next.reading).value;
    var r := Rust.RustNext(u, piece + rest, b.rust);
    var whole := Rust.RustLex(u, piece + rest, b.rust);
    if r.Some? && whole.Some? {
      assert whole.value[0] == r.value.token;
      assert whole.value[1..] == Rust.RustLex(u, (piece + rest)[r.value.length..], r.value.mode).value;
    }
  }

  lemma LexDiffers(u: char -> bool, cs: string, p: Py.Reading, out: string, mode: Mode)
    requires cs != "" && out != "" && Py.PyLex(u, cs, p).Some?
    requires Rust.RustNext(u, out, mode).None? || Rust.RustNext(u, out, mode).value.token != Py.PyNext(u, cs, p).value.token
    ensures Rust.RustLex(u, out, mode) != Py.PyLex(u, cs, p)
  {
    hide Rust.RustNext, Py.PyNext;
    assert Py.PyLex(u, cs, p).value[0] == Py.PyNext(u, cs, p).value.token;
    if Rust.RustLex(u, out, mode).Some? {
      assert Rust.RustLex(u, out, mode).value[0] == Rust.RustNext(u, out, mode).value.token;
    }
  }

  lemma {:induction false} TranslationFrom(u: char -> bool, cs: string, p: Py.Reading, s: Scan, b: Beside)
    requires Py.PyLex(u, cs, p).Some? && Synced(p, s, b)
    ensures (Translate(u, cs, s).Ok? && Rust.RustLex(u, Translate(u, cs, s).value, b.rust) == Py.PyLex(u, cs, p))
       <==> Safe(u, cs, p, b)
    decreases |cs|
  {
    if cs != "" {
      Accepts(u, cs, p, s, b);
      if StepAt(u, cs, s).Err? {
        assert Hazard(u, cs, p, b);
      } else if b.astray && AstrayHazard(cs) {
        assert Hazard(u, cs, p, b);
        if Translate(u, cs, s).Ok? {
          AstrayDiffers(u, cs, p, s, b);
          LexDiffers(u, cs, p, Translate(u, cs, s).value, Outside);
        }
      } else {
        var piece, s2 := Follow(u, cs, p, s, b);
        var next := Py.PyNext(u, cs, p).value;
        TranslationFrom(u, cs[next.length..], next.reading, s2, BesideNext(u, cs, p, b));
        var rest := Translate(u, cs[next.length..], s2);
        if rest.Ok? {
          LexStep(u, cs, p, b, piece, rest.value);
        }
      }
    }
  }

  /** For every pattern that Python reads: the translator accepts it and Rust reads
      Python's tokens off the translation exactly when no token of it is a hazard. */
  lemma TranslationKeepsTokens(u: char -> bool, pattern: string)
    requires Py.PyLex(u, pattern, Py.START).Some?
    ensures var r := Translate(u, pattern, BEGIN);
            (r.Ok? && Rust.RustLex(u, r.value, Outside) == Py.PyLex(u, pattern, Py.START))
            <==> Safe(u, pattern, Py.START, LEVEL)
  {
    TranslationFrom(u, pattern, Py.START, BEGIN, LEVEL);
  }

  // ----- acceptance -----

  ghost predicate NamesCounted(p: Py.Reading, b: Beside) {
    forall name :: Some(name) in p.groups ==> Some(name) in b.counted
  }

  lemma {:induction false} PositionIffMember(groups: seq<Option<string>>, name: string)
    ensures Position(groups, name).Some? <==> Some(name) in groups
  {
    if groups != [] && groups[0] != Some(name) {
      PositionIffMember(groups[1..], name);
    }
  }

  lemma NamesStayCounted(u: char -> bool, cs: string, p: Py.Reading, b: Beside)
    requires cs != "" && Py.PyNext(u, cs, p).Some? && NamesCounted(p, b) && !b.astray
    ensures NamesCounted(Py.PyNext(u, cs, p).value.reading, BesideNext(u, cs, p, b))
  {
    var next := Py.PyNext(u, cs, p).value.reading;
    var b2 := BesideNext(u, cs, p, b);
    assert p.groups <= next.groups;
    assert next.groups == p.groups + next.groups[|p.groups|..];
    if IsCondition(cs) || p.mode != Outside {
      assert next.groups == p.groups;
    }
    assert b.counted <= b2.counted;
  }

  lemma NeverRefused(u: char -> bool, cs: string, p: Py.Reading, s: Scan, b: Beside)
    requires cs != "" && Py.PyNext(u, cs, p).Some? && Synced(p, s, b) && !b.astray && NamesCounted(p, b)
    ensures Ready(u, cs, p, s, b)
  {
    Accepts(u, cs, p, s, b);
    if StepAt(u, cs, s).Err? {
      PositionIffMember(p.groups, ConditionName(u, cs));
      PositionIffMember(b.counted, ConditionName(u, cs));
    }
  }

  lemma {:induction false} AcceptedFrom(u: char -> bool, cs: string, p: Py.Reading, s: Scan, b: Beside)
    requires Py.PyLex(u, cs, p).Some? && Synced(p, s, b)
    requires NeverAstray(u, cs, p, b) && NamesCounted(p, b)
    ensures Translate(u, cs, s).Ok?
    decreases |cs|
  {
    if cs != "" {
      NeverRefused(u, cs, p, s, b);
      var piece, s2 := Follow(u, cs, p, s, b);
      var next := Py.PyNext(u, cs, p).value;
      NamesStayCounted(u, cs, p, b);
      AcceptedFrom(u, cs[next.length..], next.reading, s2, BesideNext(u, cs, p, b));
    }
  }

  /** Every pattern that Python reads is accepted, unless a negated class of it is
      nothing but carets. */
  lemma ReadableIsAccepted(u: char -> bool, pattern: string)
    requires Py.PyLex(u, pattern, Py.START).Some? && NeverAstray(u, pattern, Py.START, LEVEL)
    ensures Translate(u, pattern, BEGIN).Ok?
  {
    AcceptedFrom(u, pattern, Py.START, BEGIN, LEVEL);
  }
}
