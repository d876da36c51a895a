/** One pattern for every way in which the translation fails: Python reads it, and
    either the translator refuses it or Rust reads other tokens off the translation. */
module RegexHazards {
  import opened Text
  import opened RegexTokens
  import opened RegexTranslator
  import opened RegexTranslation
  import Py = PythonRegex
  import Rust = RustRegex

  predicate Misread(u: char -> bool, pattern: string) {
    var python, r := Py.PyLex(u, pattern, Py.START), Translate(u, pattern, BEGIN);
    python.Some? && (r.Ok? ==> Rust.RustLex(u, r.value, Outside) != python)
  }

  // ----- reaching a hazard -----

  predicate Unsafe(u: char -> bool, cs: string, p: Py.Reading, b: Beside) {
    Py.PyLex(u, cs, p).Some? && !Safe(u, cs, p, b)
  }

  lemma UnsafeIsMisread(u: char -> bool, pattern: string)
    requires Unsafe(u, pattern, Py.START, LEVEL)
    ensures Misread(u, pattern)
  {
    TranslationKeepsTokens(u, pattern);
  }

  lemma Here(u: char -> bool, cs: string, p: Py.Reading, b: Beside, rest: string)
    requires cs != "" && Py.PyNext(u, cs, p).Some? && Hazard(u, cs, p, b)
    requires rest == cs[Py.PyNext(u, cs, p).value.length..]
    requires Py.PyLex(u, rest, Py.PyNext(u, cs, p).value.reading).Some?
    ensures Unsafe(u, cs, p, b)
  {
  }

  lemma Ahead(u: char -> bool, cs: string, p: Py.Reading, b: Beside, rest: string)
    requires cs != "" && Py.PyNext(u, cs, p).Some?
    requires rest == cs[Py.PyNext(u, cs, p).value.length..]
    requires Unsafe(u, rest, Py.PyNext(u, cs, p).value.reading, BesideNext(u, cs, p, b))
    ensures Unsafe(u, cs, p, b)
  {
  }

  /** The same where no group is opened. */
  lemma Along(u: char -> bool, cs: string, p: Py.Reading, b: Beside, rest: string, p2: Py.Reading, b2: Beside)
    requires cs != "" && Py.PyNext(u, cs, p).Some? && rest == cs[Py.PyNext(u, cs, p).value.length..]
    requires Py.PyNext(u, cs, p).value.reading == p2 && p2.groups == p.groups && !IsCondition(cs)
    requires b2 == BesideNext(u, cs, p, b).(counted := b.counted)
    requires Unsafe(u, rest, p2, b2)
    ensures Unsafe(u, cs, p, b)
  {
    hide Unsafe, Py.PyNext;
    assert p2.groups[|p.groups|..] == [];
    assert b.counted + [] == b.counted;
    assert BesideNext(u, cs, p, b) == b2;
    Ahead(u, cs, p, b, rest);
  }

  /** `]` and the end of the pattern. */
  lemma Closing(u: char -> bool, p: Py.Reading)
    requires p.mode == InClass || p.mode == AfterItem
    ensures Py.PyLex(u, "]", p) == Some([ClassClose])
  {
    assert "]"[1..] == "" && [ClassClose] + [] == [ClassClose];
  }

  /** `)` and the end of the pattern. */
  lemma Ending(u: char -> bool, p: Py.Reading)
    requires p.mode == Outside
    ensures Py.PyLex(u, ")", p) == Some([Sym(')')])
  {
    assert ")"[1..] == "" && [Sym(')')] + [] == [Sym(')')];
  }

  // ----- hazards of escapes and of classes -----

  lemma FourDigits(s: string)
    requires |s| == 4 && AllHex(s)
    ensures HexNumber(s) == 16 * (16 * (16 * HexDigitValue(s[0]) + HexDigitValue(s[1])) + HexDigitValue(s[2])) + HexDigitValue(s[3])
  {
    assert s[..3][..2] == s[..2] && s[..2][..1] == s[..1] && s[..1][..0] == "";
    assert HexNumber(s[..1]) == HexDigitValue(s[0]);
    assert HexNumber(s[..2]) == 16 * HexNumber(s[..1]) + HexDigitValue(s[1]);
    assert HexNumber(s[..3]) == 16 * HexNumber(s[..2]) + HexDigitValue(s[2]);
  }

  /** Half a surrogate pair is a character to Python alone. */
  lemma SurrogateIsMisread(u: char -> bool)
    ensures Misread(u, "\\ud800")
  {
    var cs := "\\ud800";
    var digits := cs[2..6];
    assert digits[0] == 'd' && digits[1] == '8' && digits[2] == '0' && digits[3] == '0';
    FourDigits(digits);
    assert HexEscape(cs) == Some(0xD800);
    assert Py.PyNext(u, cs, Py.START) == Py.PyEscape(cs, Py.START);
    Here(u, cs, Py.START, LEVEL, "");
    UnsafeIsMisread(u, cs);
  }

  /** A backslash before a character beyond ASCII. */
  lemma EscapeBeyondAsciiIsMisread(u: char -> bool)
    ensures Misread(u, ['\\', '\U{E9}'])
  {
    var cs := ['\\', '\U{E9}'];
    assert Py.PyNext(u, cs, Py.START) == Some(Py.Next(Lit(0xE9), 2, Py.START));
    Here(u, cs, Py.START, LEVEL, "");
    UnsafeIsMisread(u, cs);
  }

  /** Group ten and an eight, to Python. */
  lemma LongReferenceIsMisread(u: char -> bool)
    ensures Misread(u, "\\108")
  {
    var cs := "\\108";
    assert cs[3..] == "8" && "8"[1..] == "";
    assert Py.PyNext(u, cs, Py.START) == Py.PyNumber(cs, Py.START);
    assert Py.PyLex(u, "8", Py.START).Some?;
    Here(u, cs, Py.START, LEVEL, "8");
    UnsafeIsMisread(u, cs);
  }

  /** Backspace to Python; Rust knows no such member. */
  lemma BackspaceIsMisread(u: char -> bool)
    ensures Misread(u, "[\\b]")
  {
    var p, b := Py.START.(mode := ClassHead), LEVEL.(rust := ClassHead);
    var class_, escape := "[\\b]", "\\b]";
    assert class_[1..] == escape && escape[2..] == "]";
    assert Py.PyNext(u, escape, p) == Py.PyClassEscape(escape, p);
    Closing(u, p.(mode := AfterItem));
    Here(u, escape, p, b, "]");
    Ahead(u, class_, Py.START, LEVEL, escape);
    UnsafeIsMisread(u, class_);
  }

  /** Two members to Python, an intersection to Rust. */
  lemma DoubledAmpersandIsMisread(u: char -> bool)
    ensures Misread(u, "[a&&b]")
  {
    hide Unsafe, Misread;
    var a, ops := "a&&b]", "&&b]";
    assert a[1..] == ops;
    DoubledAmpersand(u);
    Along(u, a, Py.START.(mode := ClassHead), LEVEL.(rust := ClassHead), ops, Py.START.(mode := AfterItem), LEVEL.(rust := AfterItem));
    InNewClass(u, a);
    assert "[" + a == "[a&&b]";
  }

  lemma DoubledAmpersand(u: char -> bool)
    ensures Unsafe(u, "&&b]", Py.START.(mode := AfterItem), LEVEL.(rust := AfterItem))
  {
    hide Rust.RustNext, Translate, ReadBraces, Py.PyGroup, Py.PyRepeat, Py.PyEscape;
    var p, ops, op, c := Py.START.(mode := AfterItem), "&&b]", "&b]", "b]";
    assert ops[1..] == op && op[1..] == c && c[1..] == "]";
    Closing(u, p);
    assert Py.PyLex(u, c, p).Some?;
    assert Py.PyLex(u, op, p).Some?;
    Here(u, ops, p, LEVEL.(rust := AfterItem), op);
  }

  /** A class opens. */
  lemma InNewClass(u: char -> bool, rest: string)
    requires Unsafe(u, rest, Py.START.(mode := ClassHead), LEVEL.(rust := ClassHead)) && (rest != "" ==> rest[0] != '^')
    ensures Misread(u, "[" + rest)
  {
    hide Unsafe, Misread;
    var pattern := "[" + rest;
    assert pattern[1..] == rest;
    Along(u, pattern, Py.START, LEVEL, rest, Py.START.(mode := ClassHead), LEVEL.(rust := ClassHead));
    UnsafeIsMisread(u, pattern);
  }

  /** A range that ends at a dash, to Python. */
  lemma DoubledDashIsMisread(u: char -> bool)
    ensures Misread(u, "[+--]")
  {
    hide Unsafe, Misread;
    var plus, dashes := "+--]", "--]";
    assert plus[1..] == dashes;
    DoubledDash(u);
    Along(u, plus, Py.START.(mode := ClassHead), LEVEL.(rust := ClassHead), dashes, Py.START.(mode := AfterItem), LEVEL.(rust := AfterItem));
    InNewClass(u, plus);
    assert "[" + plus == "[+--]";
  }

  lemma DoubledDash(u: char -> bool)
    ensures Unsafe(u, "--]", Py.START.(mode := AfterItem), LEVEL.(rust := AfterItem))
  {
    hide Rust.RustNext, Translate, ReadBraces, Py.PyGroup, Py.PyRepeat, Py.PyEscape;
    var p, dashes, dash := Py.START.(mode := AfterItem), "--]", "-]";
    assert dashes[1..] == dash && dash[1..] == "]";
    Closing(u, p.(mode := InClass));
    assert Py.PyLex(u, dash, p.(mode := RangeEnd)).Some?;
    Here(u, dashes, p, LEVEL.(rust := AfterItem), dash);
  }

  /** Two dashes behind a range, which Python takes for members. */
  lemma DashesBehindRangeAreMisread(u: char -> bool)
    ensures Misread(u, "[a-b" + "--]")
  {
    hide Unsafe, Misread;
    var p, head := Py.START, Py.START.(mode := ClassHead);
    var a, b, dashes := "a-b" + "--]", "b" + "--]", "--]";
    var range := "-" + b;
    DoubledDashBehindRange(u);
    assert b[1..] == dashes && range[1..] == b && a[1..] == range && a == "a" + range;
    Along(u, b, p.(mode := RangeEnd), LEVEL.(rust := RangeEnd), dashes, p.(mode := InClass), LEVEL.(rust := InClass));
    Along(u, range, p.(mode := AfterItem), LEVEL.(rust := AfterItem), b, p.(mode := RangeEnd), LEVEL.(rust := RangeEnd));
    Along(u, a, head, LEVEL.(rust := ClassHead), range, p.(mode := AfterItem), LEVEL.(rust := AfterItem));
    var pattern := "[" + a;
    assert pattern[1..] == a && pattern == "[a-b" + "--]";
    Along(u, pattern, p, LEVEL, a, head, LEVEL.(rust := ClassHead));
    UnsafeIsMisread(u, pattern);
  }

  lemma DoubledDashBehindRange(u: char -> bool)
    ensures Unsafe(u, "--]", Py.START.(mode := InClass), LEVEL.(rust := InClass))
  {
    var p, dashes, dash := Py.START, "--]", "-]";
    assert dashes[1..] == dash && dash[1..] == "]";
    Closing(u, p.(mode := AfterItem));
    assert Py.PyLex(u, dash, p.(mode := AfterItem)).Some?;
    Here(u, dashes, p.(mode := InClass), LEVEL.(rust := InClass), dash);
  }

  /** A range that begins at the dash its class opens with, to Python. */
  lemma RangeFromDashIsMisread(u: char -> bool)
    ensures Misread(u, "[--a]")
  {
    hide Unsafe, Misread;
    var first, dash := "--a]", "-a]";
    assert first[1..] == dash;
    RangeToA(u, HeadDashes);
    Along(u, first, Py.START.(mode := ClassHead), LEVEL.(rust := ClassHead), dash, Py.START.(mode := AfterItem), LEVEL.(rust := HeadDashes));
    InNewClass(u, first);
    assert "[" + first == "[--a]";
  }

  /** A range, where Rust begins none. */
  lemma RangeToA(u: char -> bool, rust: Mode)
    requires rust == HeadDashes || rust == InClass
    ensures Unsafe(u, "-a]", Py.START.(mode := AfterItem), LEVEL.(rust := rust))
  {
    hide Rust.RustNext, Translate, ReadBraces, Py.PyGroup, Py.PyRepeat, Py.PyEscape;
    var p, dash, a := Py.START.(mode := AfterItem), "-a]", "a]";
    assert dash[1..] == a && a[1..] == "]";
    Closing(u, p.(mode := InClass));
    assert Py.PyLex(u, a, p.(mode := RangeEnd)).Some?;
    Here(u, dash, p, LEVEL.(rust := rust), a);
  }

  /** A range that begins at the bracket its class opens with, to Python. */
  lemma RangeFromBracketIsMisread(u: char -> bool)
    ensures Misread(u, "[]-a]")
  {
    hide Unsafe, Misread;
    var bracket, dash := "]-a]", "-a]";
    assert bracket[1..] == dash;
    RangeToA(u, InClass);
    Along(u, bracket, Py.START.(mode := ClassHead), LEVEL.(rust := ClassHead), dash, Py.START.(mode := AfterItem), LEVEL.(rust := InClass));
    InNewClass(u, bracket);
    assert "[" + bracket == "[]-a]";
  }

  // ----- hazards of conditions -----

  lemma WordX(u: char -> bool, rest: string, c: char)
    requires |rest| > 1 && rest[0] == 'x' && rest[1] == c && (c == ')' || c == '>')
    ensures WordRun(u, rest) == 1 && DigitRun(rest) == 0
  {
    assert !IsWord(u, c);
  }

  lemma ConditionOnX(u: char -> bool, cs: string, p: Py.Reading, i: nat)
    requires |cs| > 4 && cs[0] == '(' && cs[1] == '?' && cs[2] == '(' && cs[3] == 'x' && cs[4] == ')'
    requires p.mode == Outside && Position(p.groups, "x") == Some(i)
    ensures IsCondition(cs) && ConditionName(u, cs) == "x"
    ensures Py.PyNext(u, cs, p) == Some(Py.Next(Condition(i + 1), 5, p))
  {
    WordX(u, cs[3..], ')');
    assert cs[3..][..1] == "x";
    assert Py.PyNext(u, cs, p) == Py.PyCondition(u, cs, p);
  }

  lemma GroupX(u: char -> bool, cs: string, p: Py.Reading)
    requires |cs| > 5 && cs[..6] == "(?P<x>" && p.mode == Outside && Some("x") !in p.groups
    ensures Py.PyNext(u, cs, p) == Some(Py.Next(Group("(?P<x>"), 6, p.(groups := p.groups + [Some("x")])))
  {
    assert forall i :: 0 <= i < 6 ==> cs[i] == cs[..6][i];
    assert cs[0] == '(' && cs[1] == '?' && cs[2] == 'P' && cs[3] == '<' && cs[4] == 'x' && cs[5] == '>';
    WordX(u, cs[4..], '>');
    assert cs[4..5] == "x";
    assert Py.PyNext(u, cs, p) == Py.PyGroup(u, cs, p);
    assert GroupHeader(u, cs) == Some(6);
  }

  predicate Level(p: Py.Reading, b: Beside) {
    p.mode == Outside && b.rust == Outside && !b.lag
  }

  lemma CloseGroup(u: char -> bool, rest: string, p: Py.Reading, b: Beside)
    requires Level(p, b) && Unsafe(u, rest, p, b)
    ensures Unsafe(u, ")" + rest, p, b)
  {
    assert (")" + rest)[1..] == rest;
    Along(u, ")" + rest, p, b, rest, p, b);
  }

  lemma OpenGroup(u: char -> bool, rest: string, p: Py.Reading, b: Beside)
    requires Level(p, b) && !b.astray && rest != "" && rest[0] == ')'
    requires Unsafe(u, rest, p.(groups := p.groups + [None]), b.(counted := b.counted + [None]))
    ensures Unsafe(u, "(" + rest, p, b)
  {
    var cs, p2 := "(" + rest, p.(groups := p.groups + [None]);
    assert cs[1..] == rest && cs[1] == ')';
    assert Py.PyNext(u, cs, p) == Some(Py.Next(Group("("), 1, p2));
    assert p2.groups[|p.groups|..] == [None];
    Ahead(u, cs, p, b, rest);
  }

  lemma OpenX(u: char -> bool, rest: string, p: Py.Reading, b: Beside)
    requires Level(p, b) && Some("x") !in p.groups
    requires Unsafe(u, rest, p.(groups := p.groups + [Some("x")]),
                    if b.astray then b else b.(counted := b.counted + [Some("x")]))
    ensures Unsafe(u, "(?P<x>" + rest, p, b)
  {
    var cs, p2 := "(?P<x>" + rest, p.(groups := p.groups + [Some("x")]);
    assert cs[6..] == rest && cs[..6] == "(?P<x>";
    assert cs[0] == '(' && cs[2] == 'P';
    GroupX(u, cs, p);
    assert p2.groups[|p.groups|..] == [Some("x")];
    Ahead(u, cs, p, b, rest);
  }

  lemma OnOne(u: char -> bool, rest: string, p: Py.Reading, b: Beside)
    requires Level(p, b) && !b.astray && Unsafe(u, rest, p, b.(counted := b.counted + [None]))
    ensures Unsafe(u, "(?(1)" + rest, p, b)
  {
    var cs := "(?(1)" + rest;
    assert cs[5..] == rest && cs[0] == '(' && cs[1] == '?' && cs[2] == '(' && cs[3] == '1' && cs[4] == ')';
    ConditionOnOne(u, cs, p);
    Ahead(u, cs, p, b, rest);
  }

  /** `(?(x))` is a hazard where the scan counts `x` differently, or is astray. */
  lemma OnX(u: char -> bool, p: Py.Reading, b: Beside)
    requires Level(p, b) && Position(p.groups, "x").Some?
    requires b.astray || Position(b.counted, "x") != Position(p.groups, "x")
    ensures Unsafe(u, "(?(x))", p, b)
  {
    var condition := "(?(x))";
    ConditionOnX(u, condition, p, Position(p.groups, "x").value);
    assert condition[5..] == ")";
    Ending(u, p);
    Here(u, condition, p, b, ")");
  }

  /** The parenthesis of `(?(1)` is counted, so that the second group gets the number 3. */
  lemma LateNameIsMisread(u: char -> bool)
    ensures Misread(u, "()(?(1))(?P<x>)(?(x))")
  {
    hide Unsafe, Misread, Position;
    var p1, b1 := Py.START.(groups := [None]), LEVEL.(counted := [None]);
    LateName(u);
    var late := "(?P<x>)(?(x))";
    CloseGroup(u, late, p1, b1.(counted := [None, None]));
    assert b1.counted + [None] == [None, None];
    OnOne(u, ")" + late, p1, b1);
    var first := ")" + ("(?(1)" + (")" + late));
    CloseGroup(u, "(?(1)" + (")" + late), p1, b1);
    assert LEVEL.counted + [None] == [None];
    OpenGroup(u, first, Py.START, LEVEL);
    UnsafeIsMisread(u, "(" + first);
    assert "(" + first == "()(?(1))(?P<x>)(?(x))";
  }

  lemma LateName(u: char -> bool)
    ensures Unsafe(u, "(?P<x>)(?(x))", Py.START.(groups := [None]), LEVEL.(counted := [None, None]))
  {
    hide Unsafe;
    var p1, p2 := Py.START.(groups := [None]), Py.START.(groups := [None, Some("x")]);
    var b2, b3 := LEVEL.(counted := [None, None]), LEVEL.(counted := [None, None, Some("x")]);
    assert p1.groups + [Some("x")] == p2.groups && b2.counted + [Some("x")] == b3.counted;
    PositionOfX(p2.groups, b3.counted);
    OnX(u, p2, b3);
    CloseGroup(u, "(?(x))", p2, b3);
    OpenX(u, ")" + "(?(x))", p1, b2);
    assert "(?P<x>" + (")" + "(?(x))") == "(?P<x>)(?(x))";
  }

  lemma PositionOfX(groups: seq<Option<string>>, counted: seq<Option<string>>)
    requires groups == [None, Some("x")] && counted == [None, None, Some("x")]
    ensures Position(groups, "x") == Some(1) && Position(counted, "x") == Some(2)
  {
    assert groups[1..] == [Some("x")] && counted[1..] == groups;
  }

  lemma ConditionOnOne(u: char -> bool, cs: string, p: Py.Reading)
    requires |cs| > 4 && cs[0] == '(' && cs[1] == '?' && cs[2] == '(' && cs[3] == '1' && cs[4] == ')' && p.mode == Outside
    ensures Py.PyNext(u, cs, p) == Some(Py.Next(Condition(1), 5, p))
  {
    DigitRunAt(cs[3..], 1);
    assert cs[3..][..1] == "1" && "1"[..0] == "";
    assert DigitsValue("1") == 1;
    assert Py.PyNext(u, cs, p) == Py.PyCondition(u, cs, p);
  }

  // ----- hazards behind a class of carets -----

  /** Where Python, the scan and Rust are behind `[^^]`. */
  lemma BehindCarets(u: char -> bool, rest: string, p: Py.Reading, counted: seq<Option<string>>)
    requires p.mode == Outside && Unsafe(u, rest, p, Beside(Outside, false, true, counted))
    ensures Unsafe(u, "[^^]" + rest, p, Beside(Outside, false, false, counted))
  {
    var head, item := p.(mode := ClassHead), p.(mode := AfterItem);
    var b := Beside(Outside, false, false, counted);
    var bracket := "]" + rest;
    var caret := "^" + bracket;
    var pattern := "[^" + caret;
    assert bracket[1..] == rest && caret[1..] == bracket && pattern[2..] == caret;
    Along(u, bracket, item, b.(rust := AfterItem, lag := true), rest, p, b.(astray := true));
    Along(u, caret, head, b.(rust := ClassHead), bracket, item, b.(rust := AfterItem, lag := true));
    Along(u, pattern, p, b, caret, head, b.(rust := ClassHead));
    assert pattern == "[^^]" + rest;
  }

  lemma AfterCaretsIsMisread(u: char -> bool, rest: string)
    requires Unsafe(u, rest, Py.START, LEVEL.(astray := true))
    ensures Misread(u, "[^^]" + rest)
  {
    BehindCarets(u, rest, Py.START, []);
    UnsafeIsMisread(u, "[^^]" + rest);
  }

  /** A class, whose bracket the scan escapes. */
  lemma ClassBehindCaretsIsMisread(u: char -> bool)
    ensures Misread(u, "[^^]" + "[a]")
  {
    var p, cs, a := Py.START, "[a]", "a]";
    assert cs[1..] == a && a[1..] == "]";
    Closing(u, p.(mode := AfterItem));
    assert Py.PyLex(u, a, p.(mode := ClassHead)).Some?;
    Here(u, cs, p, LEVEL.(astray := true), a);
    AfterCaretsIsMisread(u, cs);
  }

  /** `[^^]{`: Python's class ends at the bracket, but the translator takes that
      bracket for a member and leaves the brace alone, which Rust refuses. */
  lemma CaretClassIsMisread(u: char -> bool)
    ensures var pattern := "[^^]{";
            && Py.PyLex(u, pattern, Py.START) == Some([ClassOpen(true), ClassLit('^' as nat), ClassClose, Lit('{' as nat)])
            && Translate(u, pattern, BEGIN) == Ok("[^^]{")
            && Rust.RustLex(u, "[^^]{", Outside) == None
  {
    CaretClassByPython(u);
    CaretClassByTranslator(u);
    CaretClassByRust(u);
  }

  lemma CaretClassByPython(u: char -> bool)
    ensures var pattern := "[^^]{";
            && Py.PyLex(u, pattern, Py.START) == Some([ClassOpen(true), ClassLit('^' as nat), ClassClose, Lit('{' as nat)])
  {
    var p := Py.START;
    var a, b := p.(mode := ClassHead), p.(mode := AfterItem);
    var brace, bracket, caret, pattern := "{", "]{", "^]{", "[^^]{";
    assert pattern[2..] == caret && caret[1..] == bracket && bracket[1..] == brace && brace[1..] == "";
    assert ReadBraces(brace) == None;
    PyReads(u, brace, p, Lit('{' as nat), 1, p);
    PyReads(u, bracket, b, ClassClose, 1, p);
    PyReads(u, caret, a, ClassLit('^' as nat), 1, b);
    PyReads(u, pattern, p, ClassOpen(true), 2, a);
    assert [ClassOpen(true)] + ([ClassLit('^' as nat)] + ([ClassClose] + ([Lit('{' as nat)] + [])))
        == [ClassOpen(true), ClassLit('^' as nat), ClassClose, Lit('{' as nat)];
  }

  lemma CaretClassByTranslator(u: char -> bool)
    ensures Translate(u, "[^^]{", BEGIN) == Ok("[^^]{")
  {
    var stuck := Scan(true, true, []);
    var brace, bracket, caret, carets, pattern := "{", "]{", "^]{", "^^]{", "[^^]{";
    assert pattern[1..] == carets && carets[1..] == caret && caret[1..] == bracket && bracket[1..] == brace;
    assert brace[1..] == "";
    Copies(u, brace, Scan(true, false, []), "{", Scan(true, false, []));
    Copies(u, bracket, stuck, "]", Scan(true, false, []));
    Copies(u, caret, stuck, "^", stuck);
    Copies(u, carets, stuck, "^", stuck);
    Copies(u, pattern, BEGIN, "[", stuck);
    assert "[" + ("^" + ("^" + ("]" + ("{" + "")))) == pattern;
  }

  lemma CaretClassByRust(u: char -> bool)
    ensures Rust.RustLex(u, "[^^]{", Outside) == None
  {
    var brace, bracket, caret, pattern := "{", "]{", "^]{", "[^^]{";
    assert pattern[2..] == caret && caret[1..] == bracket && bracket[1..] == brace && brace[1..] == "";
    assert ReadBraces(brace) == None;
    assert Rust.RustNext(u, brace, Outside) == None;
    assert Rust.RustNext(u, bracket, AfterItem) == Some(Rust.Next(ClassClose, 1, Outside));
    assert Rust.RustNext(u, caret, ClassHead) == Some(Rust.Next(ClassLit('^' as nat), 1, AfterItem));
    assert Rust.RustNext(u, pattern, Outside) == Some(Rust.Next(ClassOpen(true), 2, ClassHead));
  }

  lemma PyReads(u: char -> bool, cs: string, p: Py.Reading, token: Token, n: nat, p2: Py.Reading)
    requires cs != "" && Py.PyNext(u, cs, p) == Some(Py.Next(token, n, p2)) && Py.PyLex(u, cs[n..], p2).Some?
    ensures Py.PyLex(u, cs, p) == Some([token] + Py.PyLex(u, cs[n..], p2).value)
  {
  }

  lemma Copies(u: char -> bool, cs: string, s: Scan, piece: string, s2: Scan)
    requires cs != "" && StepAt(u, cs, s) == Ok(Step(piece, 1, s2)) && Translate(u, cs[1..], s2).Ok?
    ensures Translate(u, cs, s) == Ok(piece + Translate(u, cs[1..], s2).value)
  {
  }

  /** A repetition without a minimum, which the scan leaves alone. */
  lemma OpenRepetitionBehindCaretsIsMisread(u: char -> bool)
    ensures Misread(u, "[^^]" + "{,2}")
  {
    var cs := "{,2}";
    BracesAtComma(cs, 0, 1);
    assert cs[1..1] == "" && cs[2..3] == "2" && "2"[..0] == "";
    assert DigitsValue("2") == 2 && DigitsValue("") == 0;
    assert Py.PyNext(u, cs, Py.START) == Py.PyRepeat(cs, Py.START);
    Here(u, cs, Py.START, LEVEL.(astray := true), "");
    AfterCaretsIsMisread(u, cs);
  }

  /** The end of the text, which the scan leaves alone. */
  lemma TextEndBehindCaretsIsMisread(u: char -> bool)
    ensures Misread(u, "[^^]" + "\\Z")
  {
    var cs := "\\Z";
    assert Py.PyNext(u, cs, Py.START) == Some(Py.Next(TextEnd, 2, Py.START));
    Here(u, cs, Py.START, LEVEL.(astray := true), "");
    AfterCaretsIsMisread(u, cs);
  }

  /** A reference, which the scan takes for an octal escape. */
  lemma ReferenceBehindCaretsIsMisread(u: char -> bool)
    ensures Misread(u, "()[^^]\\1")
  {
    hide Unsafe, Misread;
    var p1 := Py.START.(groups := [None]);
    var b1 := LEVEL.(counted := [None]);
    var reference := "\\1";
    ReferenceOne(u, p1, b1.(astray := true));
    BehindCarets(u, reference, p1, [None]);
    CloseGroup(u, "[^^]" + reference, p1, b1);
    var close := ")" + ("[^^]" + reference);
    assert LEVEL.counted + [None] == [None];
    OpenGroup(u, close, Py.START, LEVEL);
    UnsafeIsMisread(u, "(" + close);
    assert "(" + close == "()[^^]\\1";
  }

  lemma ReferenceOne(u: char -> bool, p: Py.Reading, b: Beside)
    requires Level(p, b) && b.astray
    ensures Unsafe(u, "\\1", p, b)
  {
    var cs := "\\1";
    assert cs[1..] == "1" && cs[2..] == "";
    assert Py.PyNext(u, cs, p) == Py.PyNumber(cs, p);
    Here(u, cs, p, b, "");
  }

  /** A condition by name, which the scan leaves alone. */
  lemma ConditionBehindCaretsIsMisread(u: char -> bool)
    ensures Misread(u, "(?P<x>)[^^](?(x))")
  {
    hide Unsafe, Misread;
    var p1 := Py.START.(groups := [Some("x")]);
    var b1 := LEVEL.(counted := [Some("x")]);
    OnX(u, p1, b1.(astray := true));
    BehindCarets(u, "(?(x))", p1, [Some("x")]);
    CloseGroup(u, "[^^]" + "(?(x))", p1, b1);
    var close := ")" + ("[^^]" + "(?(x))");
    assert LEVEL.counted + [Some("x")] == [Some("x")];
    OpenX(u, close, Py.START, LEVEL);
    UnsafeIsMisread(u, "(?P<x>" + close);
    assert "(?P<x>" + close == "(?P<x>)[^^](?(x))";
  }

  /** A group opened where the scan believes to be in a class is not counted, and a
      condition on it is refused. */
  lemma UncountedNameIsRefused(u: char -> bool)
    ensures Misread(u, "[^^]" + "(?P<x>)](?(x))")
  {
    hide Unsafe, Misread;
    var p1 := Py.START.(groups := [Some("x")]);
    var astray := LEVEL.(astray := true);
    OnX(u, p1, LEVEL);
    var bracket := "]" + "(?(x))";
    assert bracket[1..] == "(?(x))";
    Along(u, bracket, p1, astray, "(?(x))", p1, LEVEL);
    var close := ")" + bracket;
    CloseGroup(u, bracket, p1, astray);
    assert LEVEL.counted + [Some("x")] == [Some("x")];
    OpenX(u, close, Py.START, astray);
    assert "(?P<x>" + close == "(?P<x>)](?(x))";
    AfterCaretsIsMisread(u, "(?P<x>)](?(x))");
  }
}
