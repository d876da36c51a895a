/** One text for every excuse of the converse: Python refuses it, the translator takes
    it and Rust reads the translation. */
module RegexLoose {
  import opened Text
  import opened RegexTokens
  import opened RegexTranslator
  import opened RegexTranslation
  import opened RegexConditions
  import opened RegexConverse
  import Py = PythonRegex
  import Rust = RustRegex

  predicate RustAlone(u: char -> bool, text: string) {
    var r := Translate(u, text, BEGIN);
    Py.PyLex(u, text, Py.START).None? && r.Ok? && Reads(u, r.value, Outside, [])
  }

  // ----- one step at a time -----

  /** The translation of `text`, from `s` on, is `written`. */
  ghost predicate Becomes(u: char -> bool, text: string, s: Scan, written: string) {
    Translate(u, text, s) == Ok(written)
  }

  lemma Writes(u: char -> bool, cs: string, s: Scan, step: Step, rest: string, written: string)
    requires cs != "" && StepAt(u, cs, s) == Ok(step) && cs[step.length..] == rest
    requires Becomes(u, rest, step.scan, written)
    ensures Becomes(u, cs, s, step.piece + written)
  {
  }

  /** Copied characters that stand for themselves. */
  lemma WritesPlain(u: char -> bool, text: string, s: Scan)
    requires forall i :: 0 <= i < |text| ==> Copied(text[i], s)
    ensures Becomes(u, text, s, text)
  {
    assert text + "" == text;
    CopyPlain(u, text, "", s);
  }

  lemma RustReads(u: char -> bool, cs: string, mode: Mode, token: Token, n: nat, next: Mode, rest: string)
    requires cs != "" && Rust.RustNext(u, cs, mode) == Some(Rust.Next(token, n, next)) && n <= |cs| && cs[n..] == rest
    requires Rust.RustLex(u, rest, next).Some?
    ensures Rust.RustLex(u, cs, mode) == Some([token] + Rust.RustLex(u, rest, next).value)
  {
  }

  lemma {:induction false} PlainReads(u: char -> bool, cs: string)
    requires forall i :: 0 <= i < |cs| ==> cs[i] !in {'\\', '[', '(', '{'}
    ensures Rust.RustLex(u, cs, Outside).Some? && Groups(Rust.RustLex(u, cs, Outside).value) == []
  {
    if cs != "" {
      PlainReads(u, cs[1..]);
      var next := Rust.RustNext(u, cs, Outside).value;
      RustReads(u, cs, Outside, next.token, 1, Outside, cs[1..]);
      Unnamed(next.token, Rust.RustLex(u, cs[1..], Outside).value);
    }
  }

  lemma Unnamed(token: Token, rest: seq<Token>)
    requires Opens(token) == [] && Groups(rest) == []
    ensures Groups([token] + rest) == []
  {
    assert ([token] + rest)[1..] == rest;
  }

  /** A first token that Python lacks, in front of plain characters. */
  lemma Alone(u: char -> bool, text: string, written: string, token: Token, n: nat)
    requires text != "" && Py.PyNext(u, text, Py.START).None? && Becomes(u, text, BEGIN, written)
    requires written != "" && Rust.RustNext(u, written, Outside) == Some(Rust.Next(token, n, Outside)) && Opens(token) == []
    requires n <= |written| && forall i :: n <= i < |written| ==> written[i] !in {'\\', '[', '(', '{'}
    ensures RustAlone(u, text)
  {
    PlainReads(u, written[n..]);
    RustReads(u, written, Outside, token, n, Outside, written[n..]);
    Unnamed(token, Rust.RustLex(u, written[n..], Outside).value);
    assert [] + Groups(Rust.RustLex(u, written, Outside).value) == [];
  }

  // ----- the texts -----

  /** Rust takes the digits of an escape in braces. */
  lemma BracedEscapeIsRust(u: char -> bool)
    ensures RustAlone(u, "\\x{41}")
  {
    hide Py.PyNext, Rust.RustNext;
    BracedEscapeIsCopied(u);
    BracedEscapeReads(u);
    Alone(u, "\\x{41}", "\\x{41}", Lit(0x41), 6);
  }

  lemma BracedEscapeIsCopied(u: char -> bool)
    ensures Becomes(u, "\\x{41}", BEGIN, "\\x{41}")
  {
    hide ReadBraces, Translate, StepGroup;
    var cs, braces := "\\x{41}", "{41}";
    assert cs[2..] == braces && cs[..2] == "\\x" && braces[4..] == "" && braces[..4] == braces;
    BracesAtClose(braces, 2);
    assert StepAt(u, braces, BEGIN) == Ok(Step(braces, 4, BEGIN));
    WritesPlain(u, "", BEGIN);
    Writes(u, braces, BEGIN, Step(braces, 4, BEGIN), "", "");
    assert StepAt(u, cs, BEGIN) == Ok(Step("\\x", 2, BEGIN));
    assert braces + "" == braces && "\\x" + braces == cs;
    Writes(u, cs, BEGIN, Step("\\x", 2, BEGIN), braces, braces);
  }

  lemma BracedEscapeReads(u: char -> bool)
    ensures Py.PyNext(u, "\\x{41}", Py.START) == None
    ensures Rust.RustNext(u, "\\x{41}", Outside) == Some(Rust.Next(Lit(0x41), 6, Outside))
  {
    hide Rust.BracedHex, HexNumber;
    var cs := "\\x{41}";
    assert cs[2] == '{';
    BracedHexReads();
    assert Rust.RustNext(u, cs, Outside) == Rust.RustEscape(cs);
    assert cs[2..4][0] == '{' && HexEscape(cs) == None;
    assert Py.PyNext(u, cs, Py.START) == Py.PyEscape(cs, Py.START);
  }

  lemma BracedHexReads()
    ensures Rust.BracedHex("\\x{41}") == Some((0x41, 6))
  {
    var cs, digits := "\\x{41}", "41";
    assert cs[3..] == "41}";
    assert Run(c => IsHex(c), "41}") == 2;
    assert cs[3..][..2] == digits && digits[..1] == "4" && "4"[..0] == "";
    assert HexNumber("4") == 4;
    assert HexNumber(digits) == 0x41;
  }

  /** The translator drops the backslash, and a group is opened. */
  lemma EscapedHeaderIsRust(u: char -> bool)
    ensures RustAlone(u, "(?\\:a)")
  {
    hide Py.PyNext, Rust.RustNext, StepAt, Translate;
    var cs, question, colon, rest, out := "(?\\:a)", "?\\:a)", "\\:a)", "a)", "(?:a)";
    assert cs[1..] == question && question[1..] == colon && colon[2..] == rest;
    EscapedHeaderSteps(u);
    WritesPlain(u, rest, BEGIN);
    Writes(u, colon, BEGIN, Step(":", 2, BEGIN), rest, rest);
    Writes(u, question, BEGIN, Step("?", 1, BEGIN), colon, ":" + rest);
    Writes(u, cs, BEGIN, Step("(", 1, BEGIN), question, "?" + (":" + rest));
    assert "(" + ("?" + (":" + rest)) == out;
    EscapedHeaderReads(u);
    Alone(u, cs, out, Group("(?:"), 3);
  }

  lemma EscapedHeaderSteps(u: char -> bool)
    ensures StepAt(u, "\\:a)", BEGIN) == Ok(Step(":", 2, BEGIN))
    ensures StepAt(u, "?\\:a)", BEGIN) == Ok(Step("?", 1, BEGIN))
    ensures StepAt(u, "(?\\:a)", BEGIN) == Ok(Step("(", 1, BEGIN))
  {
    NotFlags("(?\\:a)");
  }

  lemma EscapedHeaderReads(u: char -> bool)
    ensures Py.PyNext(u, "(?\\:a)", Py.START) == None
    ensures Rust.RustNext(u, "(?:a)", Outside) == Some(Rust.Next(Group("(?:"), 3, Outside))
  {
    hide ReadBraces;
    assert FlagRun("(?\\:a)"[2..]) == 0;
    var out := "(?:a)";
    assert out[..3] == "(?:";
    assert Rust.RustNext(u, out, Outside) == Rust.RustGroup(u, out);
  }

  lemma NotFlags(cs: string)
    requires |cs| > 2 && cs[2] == '\\'
    ensures RefusedFlags(cs[2..]) == None
  {
    NoFlags(cs);
  }

  /** A flag of Rust's own. */
  lemma RustFlagIsRust(u: char -> bool)
    ensures RustAlone(u, "(?U)")
  {
    hide Py.PyNext, Rust.RustNext, StepAt;
    var cs := "(?U)";
    RustFlagReads(u);
    assert cs[1..] == "?U)";
    WritesPlain(u, "?U)", BEGIN);
    Writes(u, cs, BEGIN, Step("(", 1, BEGIN), "?U)", "?U)");
    assert "(" + "?U)" == cs;
    Alone(u, cs, cs, Group(cs), 4);
  }

  lemma RustFlagReads(u: char -> bool)
    ensures StepAt(u, "(?U)", BEGIN) == Ok(Step("(", 1, BEGIN))
    ensures Py.PyNext(u, "(?U)", Py.START) == None
    ensures Rust.RustNext(u, "(?U)", Outside) == Some(Rust.Next(Group("(?U)"), 4, Outside))
  {
    hide ReadBraces;
    var cs := "(?U)";
    assert cs[2..][0] == 'U' && FlagRun(cs[2..]) == 0 && FlagHeader(cs) == None && cs[..4] == cs;
    NoFlags(cs);
    assert cs[2..][1] == ')' && Rust.RustFlagRun(cs[2..]) == 1;
    assert Rust.WideFlags(cs) == Some(4);
    assert Rust.RustNext(u, cs, Outside) == Rust.RustGroup(u, cs);
  }

  /** Python never turns the Unicode flag off. */
  lemma UnicodeOffIsRust(u: char -> bool)
    ensures RustAlone(u, "(?-u:a)")
  {
    hide Py.PyNext, Rust.RustNext, StepAt;
    var cs := "(?-u:a)";
    UnicodeOffReads(u);
    assert cs[1..] == "?-u:a)";
    WritesPlain(u, "?-u:a)", BEGIN);
    Writes(u, cs, BEGIN, Step("(", 1, BEGIN), "?-u:a)", "?-u:a)");
    assert "(" + "?-u:a)" == cs;
    Alone(u, cs, cs, Group("(?-u:"), 5);
  }

  lemma UnicodeOffReads(u: char -> bool)
    ensures StepAt(u, "(?-u:a)", BEGIN) == Ok(Step("(", 1, BEGIN))
    ensures Py.PyNext(u, "(?-u:a)", Py.START) == None
    ensures Rust.RustNext(u, "(?-u:a)", Outside) == Some(Rust.Next(Group("(?-u:"), 5, Outside))
  {
    hide FlagHeader, RefusedFlags, Rust.WideFlags, ReadBraces;
    var cs := "(?-u:a)";
    UnicodeOffFlags();
    UnicodeOffWide();
    assert cs[..5] == "(?-u:";
    assert Rust.RustNext(u, cs, Outside) == Rust.RustGroup(u, cs);
  }

  lemma UnicodeOffFlags()
    ensures FlagHeader("(?-u:a)") == None && RefusedFlags("(?-u:a)"[2..]) == None
  {
    var cs, flags := "(?-u:a)", "-u:a)";
    assert cs[2..] == flags && cs[3..] == "u:a)" && "u:a)"[..1] == "u" && 'u' in "u";
    FlagRunAt(flags, 0);
    FlagRunAt("u:a)", 1);
    assert flags[2] == ':' && FlagSyntaxRun(flags) == 2 && flags[..2] == "-u" && 'a' !in "-u";
  }

  lemma UnicodeOffWide()
    ensures Rust.WideFlags("(?-u:a)") == Some(5)
  {
    var cs, flags := "(?-u:a)", "-u:a)";
    assert cs[2..] == flags && cs[3..] == "u:a)";
    assert Rust.RustFlagRun(flags) == 0 && Rust.RustFlagRun("u:a)") == 1;
  }

  /** A condition on what the text ahead is. */
  lemma ExpressionIsRust(u: char -> bool)
    ensures RustAlone(u, "(?(.)a)")
  {
    hide Translate, Py.PyNext, Rust.RustNext;
    ExpressionIsCopied(u);
    ExpressionIsRead(u);
    Alone(u, "(?(.)a)", "(?(.)a)", Group("(?("), 3);
  }

  lemma ExpressionIsRead(u: char -> bool)
    ensures Py.PyNext(u, "(?(.)a)", Py.START) == None
    ensures Rust.RustNext(u, "(?(.)a)", Outside) == Some(Rust.Next(Group("(?("), 3, Outside))
  {
    hide GroupHeader, ReadBraces, Rust.RustHeader;
    var cs := "(?(.)a)";
    assert cs[3..] == ".)a)" && DigitRun(cs[3..]) == 0 && WordRun(u, cs[3..]) == 0;
    assert Py.PyNext(u, cs, Py.START) == Py.PyGroup(u, cs, Py.START) == Py.PyCondition(u, cs, Py.START);
    assert Rust.RustNext(u, cs, Outside) == Rust.RustGroup(u, cs);
  }

  lemma ExpressionIsCopied(u: char -> bool)
    ensures Becomes(u, "(?(.)a)", BEGIN, "(?(.)a)")
  {
    hide Translate, Py.PyNext, Rust.RustNext, StepAt;
    var cs, question, inner, rest := "(?(.)a)", "?(.)a)", "(.)a)", ".)a)";
    var counted := BEGIN.(groups := [None]);
    assert cs[1..] == question && question[1..] == inner && inner[1..] == rest;
    ExpressionSteps(u);
    WritesPlain(u, rest, counted);
    Writes(u, inner, BEGIN, Step("(", 1, counted), rest, rest);
    assert "(" + rest == inner && "?" + inner == question && "(" + question == cs;
    Writes(u, question, BEGIN, Step("?", 1, BEGIN), inner, inner);
    Writes(u, cs, BEGIN, Step("(", 1, BEGIN), question, question);
  }

  lemma ExpressionSteps(u: char -> bool)
    ensures StepAt(u, "(.)a)", BEGIN) == Ok(Step("(", 1, BEGIN.(groups := [None])))
    ensures StepAt(u, "?(.)a)", BEGIN) == Ok(Step("?", 1, BEGIN))
    ensures StepAt(u, "(?(.)a)", BEGIN) == Ok(Step("(", 1, BEGIN))
  {
    var cs, rest := "(?(.)a)", ".)a)";
    assert cs[3..] == rest && DigitRun(rest) == 0 && WordRun(u, rest) == 0;
    OpenConditionStep(u, cs, BEGIN);
    InnerParenthesis(u, "(.)a)", BEGIN);
    assert BEGIN.groups + [None] == [None];
    assert [cs[0]] == "(" && ["(.)a)"[0]] == "(";
  }

  /** Behind a class of carets the scan lets the name pass. */
  lemma BehindCaretsIsRust(u: char -> bool)
    ensures RustAlone(u, "[^^](?<n>)")
  {
    CaretsRefused(u);
    CaretsBecome(u);
    CaretsReadOn(u);
  }

  lemma CaretsBecome(u: char -> bool)
    ensures Becomes(u, "[^^](?<n>)", BEGIN, "[^^](?<n>)")
  {
    hide Py.PyNext, Rust.RustNext, StepAt;
    var group, close, caret, carets, text := "(?<n>)", "](?<n>)", "^](?<n>)", "^^](?<n>)", "[^^](?<n>)";
    var stuck, after := Scan(true, true, []), Scan(true, false, []);
    assert text[1..] == carets && carets[1..] == caret && caret[1..] == close && close[1..] == group;
    WritesPlain(u, group, after);
    CaretsStep(u);
    Writes(u, close, stuck, Step("]", 1, after), group, group);
    Writes(u, caret, stuck, Step("^", 1, stuck), close, "]" + group);
    Writes(u, carets, stuck, Step("^", 1, stuck), caret, "^" + ("]" + group));
    Writes(u, text, BEGIN, Step("[", 1, stuck), carets, "^" + ("^" + ("]" + group)));
    assert "[" + ("^" + ("^" + ("]" + group))) == text;
  }

  /** One more token, and no more groups. */
  lemma ReadsOne(u: char -> bool, cs: string, mode: Mode, token: Token, n: nat, next: Mode, rest: string)
    requires cs != "" && Rust.RustNext(u, cs, mode) == Some(Rust.Next(token, n, next)) && n <= |cs| && cs[n..] == rest
    requires Reads(u, rest, next, []) && Groups(Rust.RustLex(u, rest, next).value) == [] && Opens(token) == []
    ensures Reads(u, cs, mode, []) && Groups(Rust.RustLex(u, cs, mode).value) == []
  {
    hide Rust.RustNext, Opens;
    RustReads(u, cs, mode, token, n, next, rest);
    Unnamed(token, Rust.RustLex(u, rest, next).value);
    assert [] + Groups(Rust.RustLex(u, cs, mode).value) == [];
  }

  lemma CaretsReadOn(u: char -> bool)
    ensures Reads(u, "[^^](?<n>)", Outside, [])
  {
    hide Rust.RustNext, Opens, Reads, Groups;
    var group, close, caret, text := "(?<n>)", "](?<n>)", "^](?<n>)", "[^^](?<n>)";
    assert text[2..] == caret && caret[1..] == close && close[1..] == group && group[5..] == ")";
    PlainReads(u, ")");
    assert Reads(u, ")", Outside, []) by { ClosingReads(u); }
    CaretsRead(u);
    ReadsOne(u, group, Outside, Group("(?<n>"), 5, Outside, ")");
    ReadsOne(u, close, AfterItem, ClassClose, 1, Outside, group);
    ReadsOne(u, caret, ClassHead, ClassLit('^' as nat), 1, AfterItem, close);
    ReadsOne(u, text, Outside, ClassOpen(true), 2, ClassHead, caret);
  }

  lemma ClosingReads(u: char -> bool)
    ensures Reads(u, ")", Outside, [])
  {
    PlainReads(u, ")");
    assert [] + Groups(Rust.RustLex(u, ")", Outside).value) == [];
  }

  lemma CaretsStep(u: char -> bool)
    ensures var stuck := Scan(true, true, []);
            && StepAt(u, "](?<n>)", stuck) == Ok(Step("]", 1, Scan(true, false, [])))
            && StepAt(u, "^](?<n>)", stuck) == Ok(Step("^", 1, stuck))
            && StepAt(u, "^^](?<n>)", stuck) == Ok(Step("^", 1, stuck))
            && StepAt(u, "[^^](?<n>)", BEGIN) == Ok(Step("[", 1, stuck))
  {
  }

  lemma CaretsRefused(u: char -> bool)
    ensures Py.PyLex(u, "[^^](?<n>)", Py.START) == None
  {
    var group, close, caret, text := "(?<n>)", "](?<n>)", "^](?<n>)", "[^^](?<n>)";
    var head, member := Py.START.(mode := ClassHead), Py.START.(mode := AfterItem);
    assert text[2..] == caret && caret[1..] == close && close[1..] == group;
    assert Py.PyNext(u, group, Py.START) == None;
    assert Py.PyNext(u, close, member) == Some(Py.Next(ClassClose, 1, Py.START));
    assert Py.PyNext(u, caret, head) == Some(Py.Next(ClassLit('^' as nat), 1, member));
    assert Py.PyNext(u, text, Py.START) == Some(Py.Next(ClassOpen(true), 2, head));
  }

  lemma CaretsRead(u: char -> bool)
    ensures Rust.RustNext(u, "(?<n>)", Outside) == Some(Rust.Next(Group("(?<n>"), 5, Outside))
    ensures Opens(Group("(?<n>")) == []
    ensures Rust.RustNext(u, "](?<n>)", AfterItem) == Some(Rust.Next(ClassClose, 1, Outside))
    ensures Rust.RustNext(u, "^](?<n>)", ClassHead) == Some(Rust.Next(ClassLit('^' as nat), 1, AfterItem))
    ensures Rust.RustNext(u, "[^^](?<n>)", Outside) == Some(Rust.Next(ClassOpen(true), 2, ClassHead))
    ensures Opens(ClassClose) == Opens(ClassLit('^' as nat)) == Opens(ClassOpen(true)) == []
  {
    var group := "(?<n>)";
    assert group[3..] == "n>)" && WordRun(u, "n>)") == 1;
    assert group[..5] == "(?<n>";
    assert Rust.AngleHeader(u, group) == Some(5);
  }
}
