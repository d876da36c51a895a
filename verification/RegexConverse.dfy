/** The other direction: what the translator accepts and Rust reads was read by Python,
    but for the shapes that the engines take and Python does not. */
module RegexConverse {
  import opened Text
  import opened RegexTokens
  import opened RegexTranslator
  import opened RegexTranslation
  import opened RegexConditions
  import Py = PythonRegex
  import Rust = RustRegex

  // ----- the exceptions -----

  predicate BracedEscape(cs: string) {
    |cs| > 2 && cs[0] == '\\' && HexWidth(cs[1]) > 0 && cs[2] == '{'
  }

  /** What the opening of a group may hold, up to and with its end. */
  predicate IsHeaderChar(u: char -> bool, c: char) {
    IsWord(u, c) || c in {'<', '>', '=', '!', ':', '-', ')'}
  }

  function HeaderRun(u: char -> bool, cs: string): (n: nat)
    ensures n <= |cs| && (forall i :: 0 <= i < n ==> IsHeaderChar(u, cs[i]))
    ensures n < |cs| ==> !IsHeaderChar(u, cs[n])
  {
    Run(c => IsHeaderChar(u, c), cs)
  }

  /** A backslash in the opening of a group, which the translator drops. */
  predicate EscapedHeader(u: char -> bool, cs: string) {
    && |cs| > 2 && cs[0] == '(' && cs[1] == '?'
    && EscapedAt(cs, 2 + HeaderRun(u, cs[2..]))
  }

  predicate EscapedAt(cs: string, n: nat) {
    n + 1 < |cs| && cs[n] == '\\' && MeansItself(cs[n + 1])
  }

  /** A condition that is neither a number nor a name. */
  predicate TestsExpression(u: char -> bool, cs: string) {
    && |cs| > 3 && cs[0] == '(' && cs[1] == '?' && cs[2] == '(' && !IsDigit(cs[3])
    && var n := WordRun(u, cs[3..]); n == 0 || 3 + n >= |cs| || cs[3 + n] != ')'
  }

  /** Flags that only Rust has, or turns off. */
  predicate RustFlags(u: char -> bool, cs: string) {
    |cs| > 2 && cs[0] == '(' && cs[1] == '?' && cs[2] != '<' && GroupHeader(u, cs).None? && Rust.WideFlags(cs).Some?
  }

  /** Where Python stops reading and Rust may go on. */
  predicate Loose(u: char -> bool, cs: string, p: Py.Reading, b: Beside)
    requires cs != ""
  {
    || b.astray || BracedEscape(cs)
    || (p.mode == Outside && (EscapedHeader(u, cs) || TestsExpression(u, cs) || RustFlags(u, cs)))
  }

  /** A hazard, or the place where Python stops and Rust may go on. */
  predicate Excused(u: char -> bool, cs: string, p: Py.Reading, b: Beside)
    decreases |cs|
  {
    if cs == "" then false
    else match Py.PyNext(u, cs, p)
      case None => Loose(u, cs, p, b)
      case Some(next) => Hazard(u, cs, p, b) || Excused(u, cs[next.length..], next.reading, BesideNext(u, cs, p, b))
  }

  // ----- where Python stops, Rust stops too -----

  /** Rust reads `out` to its end, and no two groups have the same name. */
  predicate Reads(u: char -> bool, out: string, mode: Mode, groups: seq<Option<string>>) {
    Rust.RustLex(u, out, mode).Some? && Distinct(groups + Groups(Rust.RustLex(u, out, mode).value))
  }

  ghost predicate Stopped(u: char -> bool, cs: string, p: Py.Reading, s: Scan, b: Beside) {
    cs != "" && Py.PyNext(u, cs, p).None? && Synced(p, s, b) && !Loose(u, cs, p, b)
  }

  /** Hexadecimal digits at the head of the output stand at the head of the input. */
  lemma {:induction false} HexIsCopied(u: char -> bool, cs: string, s: Scan, n: nat)
    requires Translate(u, cs, s).Ok? && n <= |Translate(u, cs, s).value| && AllHex(Translate(u, cs, s).value[..n])
    requires !s.head
    ensures n <= |cs| && cs[..n] == Translate(u, cs, s).value[..n]
    decreases n
  {
    hide Translate;
    var out := Translate(u, cs, s).value;
    if n > 0 {
      assert IsHex(out[..n][0]);
      HexHead(u, cs, s);
      var rest := Translate(u, cs[1..], s).value;
      assert out[..n] == [cs[0]] + rest[..n - 1];
      HexTail(cs[0], rest[..n - 1]);
      HexIsCopied(u, cs[1..], s, n - 1);
      assert cs[..n] == [cs[0]] + cs[1..][..n - 1];
    }
  }

  lemma HexTail(c: char, rest: string)
    requires AllHex([c] + rest)
    ensures AllHex(rest)
  {
    var all := [c] + rest;
    forall i | 0 <= i < |rest|
      ensures IsHex(rest[i])
    {
      assert rest[i] == all[i + 1];
    }
  }

  lemma HexHead(u: char -> bool, cs: string, s: Scan)
    requires Translate(u, cs, s).Ok? && Translate(u, cs, s).value != "" && IsHex(Translate(u, cs, s).value[0]) && !s.head
    ensures cs != "" && cs[0] == Translate(u, cs, s).value[0]
    ensures Translate(u, cs[1..], s).Ok? && Translate(u, cs, s).value == [cs[0]] + Translate(u, cs[1..], s).value
  {
    if cs != "" {
      PieceStart(u, cs, s);
      var step := StepAt(u, cs, s).value;
      assert Translate(u, cs, s).value[0] == step.piece[0];
      assert cs[0] == step.piece[0];
      assert step == Step([cs[0]], 1, s);
    }
  }

  /** The head of the output is not an opening brace unless the input's is. */
  lemma BraceHead(u: char -> bool, cs: string, s: Scan)
    requires Translate(u, cs, s).Ok? && StartsWith(Translate(u, cs, s).value, '{')
    ensures StartsWith(cs, '{')
  {
    if cs != "" {
      PieceStart(u, cs, s);
      assert Translate(u, cs, s).value[0] == StepAt(u, cs, s).value.piece[0];
    }
  }

  lemma BadHexStops(u: char -> bool, cs: string, p: Py.Reading, s: Scan, b: Beside)
    requires Stopped(u, cs, p, s, b) && |cs| > 1 && cs[0] == '\\' && HexWidth(cs[1]) > 0 && Translate(u, cs, s).Ok?
    ensures Translate(u, cs, s).value != "" && Rust.RustNext(u, Translate(u, cs, s).value, b.rust).None?
  {
    var n, s2 := HexWidth(cs[1]), s.(head := false);
    assert StepAt(u, cs, s) == StepEscape(cs, s) == Ok(Step(cs[..2], 2, s2));
    var rest, out := Translate(u, cs[2..], s2).value, Translate(u, cs, s).value;
    assert out == cs[..2] + rest && out[0] == '\\' && out[1] == cs[1] && out[2..] == rest;
    if |out| > 2 && out[2] == '{' {
      BraceHead(u, cs[2..], s2);
    }
    BadHex(u, cs, p);
    if |out| >= 2 + n && AllHex(out[2..2 + n]) {
      assert out[2..2 + n] == rest[..n];
      HexIsCopied(u, cs[2..], s2, n);
      assert cs[2..2 + n] == cs[2..][..n] == out[2..2 + n];
    }
    assert HexEscape(out) == None;
    RustRefuses(u, out, b.rust);
  }

  lemma BadHex(u: char -> bool, cs: string, p: Py.Reading)
    requires |cs| > 1 && cs[0] == '\\' && HexWidth(cs[1]) > 0 && Py.PyNext(u, cs, p).None?
    ensures HexEscape(cs) == None
  {
  }

  lemma EscapeStops(u: char -> bool, cs: string, p: Py.Reading, s: Scan, b: Beside)
    requires Stopped(u, cs, p, s, b) && cs[0] == '\\' && Translate(u, cs, s).Ok?
    ensures Translate(u, cs, s).value != "" && Rust.RustNext(u, Translate(u, cs, s).value, b.rust).None?
  {
    if |cs| == 1 {
      LoneBackslash(u, cs, s, b.rust);
    } else if HexWidth(cs[1]) > 0 {
      BadHexStops(u, cs, p, s, b);
    } else if IsDigit(cs[1]) {
      NumberStops(u, cs, p, s, b);
    } else {
      LetterStops(u, cs, p, s, b);
    }
  }

  lemma LoneBackslash(u: char -> bool, cs: string, s: Scan, mode: Mode)
    requires cs == "\\"
    ensures Translate(u, cs, s) == Ok("\\") && Rust.RustNext(u, "\\", mode).None?
  {
    var s2 := s.(head := false);
    assert StepAt(u, cs, s) == Ok(Step("\\", 1, s2)) && cs[1..] == "";
    assert Translate(u, "", s2) == Ok("") && "\\" + "" == "\\";
  }

  /** Only a digit that is not octal, in a class, is left to Rust, which refuses it. */
  lemma NumberStops(u: char -> bool, cs: string, p: Py.Reading, s: Scan, b: Beside)
    requires Stopped(u, cs, p, s, b) && |cs| > 1 && cs[0] == '\\' && IsDigit(cs[1]) && Translate(u, cs, s).Ok?
    ensures Translate(u, cs, s).value != "" && Rust.RustNext(u, Translate(u, cs, s).value, b.rust).None?
  {
    assert ScanMode(s) == Outside <==> p.mode == Outside;
    assert OctalSpan(cs, ScanMode(s)) == OctalSpan(cs, p.mode);
    OctalStep(u, cs, s, ScanMode(s));
    if OctalSpan(cs, p.mode) > 0 {
      PyOctalNext(u, cs, p);
    } else {
      NoOctalStops(u, cs, p);
      var out := Translate(u, cs, s).value;
      assert out[0] == '\\' && out[1] == cs[1];
    }
  }

  lemma NoOctalStops(u: char -> bool, cs: string, p: Py.Reading)
    requires |cs| > 1 && cs[0] == '\\' && IsDigit(cs[1]) && OctalSpan(cs, p.mode) == 0 && Py.PyNext(u, cs, p).None?
    ensures p.mode != Outside
  {
    assert cs[1..][0] == cs[1];
    if |cs| > 3 && IsOctal(cs[1]) && IsOctal(cs[2]) && IsOctal(cs[3]) {
      ThreeOctals(cs[1..]);
    }
  }

  lemma LetterStops(u: char -> bool, cs: string, p: Py.Reading, s: Scan, b: Beside)
    requires Stopped(u, cs, p, s, b) && |cs| > 1 && cs[0] == '\\' && Translate(u, cs, s).Ok?
    requires !IsDigit(cs[1]) && HexWidth(cs[1]) == 0
    ensures Translate(u, cs, s).value != "" && Rust.RustNext(u, Translate(u, cs, s).value, b.rust).None?
  {
    assert IsAsciiLetter(cs[1]);
    assert p.mode != Outside;
    assert cs[1] in {'A', 'B', 'Z'};
    CopiedInClass(u, cs, s);
    var out := Translate(u, cs, s).value;
    assert out[0] == '\\' && out[1] == cs[1];
  }

  lemma CopiedInClass(u: char -> bool, cs: string, s: Scan)
    requires |cs| > 1 && cs[0] == '\\' && cs[1] in {'A', 'B', 'Z'} && s.inClass
    ensures StepAt(u, cs, s) == Ok(Step(cs[..2], 2, s.(head := false)))
  {
  }

  // ----- groups -----

  lemma HeaderRunAt(u: char -> bool, cs: string, n: nat)
    requires n <= |cs| && (forall i :: 0 <= i < n ==> IsHeaderChar(u, cs[i])) && (n < |cs| ==> !IsHeaderChar(u, cs[n]))
    ensures HeaderRun(u, cs) == n
  {
  }

  /** A run that stays within the first `k` characters, or ends with the header there. */
  lemma RunAgrees(p: char -> bool, u: char -> bool, a: string, b: string, from: nat, k: nat)
    requires from <= k <= |a| && k <= |b| && a[..k] == b[..k]
    requires (k < |a| ==> !IsHeaderChar(u, a[k])) && (k < |b| ==> !IsHeaderChar(u, b[k]))
    requires forall c :: p(c) ==> IsHeaderChar(u, c)
    ensures Run(p, a[from..]) == Run(p, b[from..]) && from + Run(p, a[from..]) <= k
  {
    var n := Run(p, a[from..]);
    assert k < |a| ==> a[from..][k - from] == a[k];
    forall i | 0 <= i < n
      ensures p(b[from..][i])
    {
      assert a[from..][i] == a[..k][from + i] == b[..k][from + i];
    }
    if from + n < |b| && from + n < k {
      assert b[..k][from + n] == a[..k][from + n] == a[from..][n];
    }
    RunIs(p, b[from..], n);
  }

  lemma {:induction false} RunIs(p: char -> bool, cs: string, n: nat)
    requires n <= |cs| && (forall i :: 0 <= i < n ==> p(cs[i])) && (n < |cs| ==> !p(cs[n]))
    ensures Run(p, cs) == n
  {
  }

  /** Two texts that agree up to where an opening of a group must have ended. */
  ghost predicate Agree(u: char -> bool, a: string, b: string, k: nat) {
    && 2 <= k <= |a| && k <= |b| && a[..k] == b[..k] && a[0] == '(' && a[1] == '?'
    && (k < |a| ==> !IsHeaderChar(u, a[k])) && (k < |b| ==> !IsHeaderChar(u, b[k]))
  }

  lemma CharAgrees(u: char -> bool, a: string, b: string, k: nat, i: nat, c: char)
    requires Agree(u, a, b, k) && i <= k && IsHeaderChar(u, c)
    ensures i < |a| && a[i] == c <==> i < |b| && b[i] == c
    ensures i < |a| && a[i] == c ==> i < k
  {
    if i < k {
      assert a[i] == a[..k][i] == b[..k][i] == b[i];
    }
  }

  lemma NameHeaderAgrees(u: char -> bool, a: string, b: string, k: nat)
    requires Agree(u, a, b, k) && |a| > 2 && a[2] == 'P' && |b| > 2
    ensures NameHeader(u, a) == NameHeader(u, b)
  {
    CharAgrees(u, a, b, k, 2, 'P');
    CharAgrees(u, a, b, k, 3, '<');
    CharAgrees(u, a, b, k, 3, '=');
    if |a| > 3 && (a[3] == '<' || a[3] == '=') {
      RunAgrees(c => IsWord(u, c), u, a, b, 4, k);
      var n := WordRun(u, a[4..]);
      CharAgrees(u, a, b, k, 4 + n, '>');
      CharAgrees(u, a, b, k, 4 + n, ')');
      if n > 0 {
        assert a[4] == a[4..][0] && b[4] == b[4..][0] && a[..k][4] == b[..k][4];
      }
    }
  }

  lemma AngleHeaderAgrees(u: char -> bool, a: string, b: string, k: nat)
    requires Agree(u, a, b, k) && |a| > 2 && a[2] == '<' && |b| > 2
    ensures Rust.AngleHeader(u, a) == Rust.AngleHeader(u, b)
  {
    CharAgrees(u, a, b, k, 2, '<');
    RunAgrees(c => IsWord(u, c), u, a, b, 3, k);
    var n := WordRun(u, a[3..]);
    CharAgrees(u, a, b, k, 3 + n, '>');
    if n > 0 {
      assert a[3] == a[3..][0] && b[3] == b[3..][0] && a[..k][3] == b[..k][3];
    }
  }

  lemma FlagRunAgrees(u: char -> bool, a: string, b: string, k: nat, from: nat)
    requires Agree(u, a, b, k) && from <= k
    ensures FlagRun(a[from..]) == FlagRun(b[from..]) && from + FlagRun(a[from..]) <= k
  {
    RunAgrees(c => IsFlag(c), u, a, b, from, k);
  }

  lemma SliceAgrees(u: char -> bool, a: string, b: string, k: nat, from: nat, to: nat)
    requires Agree(u, a, b, k) && from <= to <= k
    ensures |a| >= to && |b| >= to && a[from..to] == b[from..to]
  {
    assert a[from..to] == a[..k][from..to] && b[from..to] == b[..k][from..to];
  }

  lemma MarkAgrees(u: char -> bool, a: string, b: string, k: nat, i: nat, c: char)
    requires Agree(u, a, b, k) && i <= k && c in {':', ')', '-'}
    ensures i < |a| && a[i] == c <==> i < |b| && b[i] == c
    ensures i < |a| && a[i] == c ==> i < k
  {
    CharAgrees(u, a, b, k, i, c);
  }

  lemma FlagHeaderAgrees(u: char -> bool, a: string, b: string, k: nat)
    requires Agree(u, a, b, k) && |a| > 2 && |b| > 2
    ensures FlagHeader(a) == FlagHeader(b)
  {
    assert 2 <= k;
    hide Agree, MayTurnOff, FlagRun, IsFlag;
    FlagRunAgrees(u, a, b, k, 2);
    var on := FlagRun(a[2..]);
    MarkAgrees(u, a, b, k, 2 + on, ':');
    MarkAgrees(u, a, b, k, 2 + on, ')');
    MarkAgrees(u, a, b, k, 2 + on, '-');
    if 2 + on < |a| && a[2 + on] == '-' {
      TurnedOffAgrees(u, a, b, k, on);
    }
  }

  lemma TurnedOffAgrees(u: char -> bool, a: string, b: string, k: nat, on: nat)
    requires Agree(u, a, b, k) && 2 + on < k && a[2 + on] == '-' && b[2 + on] == '-'
    requires FlagRun(a[2..]) == on && FlagRun(b[2..]) == on
    ensures FlagHeader(a) == FlagHeader(b)
  {
    assert k <= |a| && k <= |b|;
    hide Agree, FlagHeader;
    FlagRunAgrees(u, a, b, k, 3 + on);
    var off := FlagRun(a[3 + on..]);
    MarkAgrees(u, a, b, k, 3 + on + off, ':');
    SliceAgrees(u, a, b, k, 2, 2 + on);
    SliceAgrees(u, a, b, k, 3 + on, 3 + on + off);
    TurnedOff(a, on, off);
    TurnedOff(b, on, off);
  }

  /** The header of flags turned off, by the lengths of its two runs. */
  lemma TurnedOff(cs: string, on: nat, off: nat)
    requires 2 + on < |cs| && FlagRun(cs[2..]) == on && cs[2 + on] == '-' && FlagRun(cs[3 + on..]) == off && 3 + on + off <= |cs|
    ensures FlagHeader(cs) == if off > 0 && 3 + on + off < |cs| && cs[3 + on + off] == ':'
                                 && MayTurnOff(cs[2..2 + on], cs[3 + on..3 + on + off]) then Some(4 + on + off) else None
  {
    hide MayTurnOff, FlagRun;
    assert cs[3 + on..][..off] == cs[3 + on..3 + on + off];
  }

  lemma RustRunAgrees(u: char -> bool, a: string, b: string, k: nat, from: nat)
    requires Agree(u, a, b, k) && from <= k
    ensures Rust.RustFlagRun(a[from..]) == Rust.RustFlagRun(b[from..]) && from + Rust.RustFlagRun(a[from..]) <= k
  {
    RunAgrees(c => Rust.IsRustFlag(c), u, a, b, from, k);
  }

  lemma WideFlagsAgree(u: char -> bool, a: string, b: string, k: nat)
    requires Agree(u, a, b, k)
    ensures Rust.WideFlags(a) == Rust.WideFlags(b)
  {
    hide Run, Rust.IsRustFlag, IsWord, Rust.RustFlagRun;
    RustRunAgrees(u, a, b, k, 2);
    var on := Rust.RustFlagRun(a[2..]);
    CharAgrees(u, a, b, k, 2 + on, ':');
    CharAgrees(u, a, b, k, 2 + on, ')');
    CharAgrees(u, a, b, k, 2 + on, '-');
    if 2 + on < |a| && a[2 + on] == '-' {
      RustRunAgrees(u, a, b, k, 3 + on);
      var off := Rust.RustFlagRun(a[3 + on..]);
      CharAgrees(u, a, b, k, 3 + on + off, ':');
      CharAgrees(u, a, b, k, 3 + on + off, ')');
    }
  }

  lemma GroupHeaderAgrees(u: char -> bool, a: string, b: string, k: nat)
    requires Agree(u, a, b, k)
    ensures GroupHeader(u, a) == GroupHeader(u, b)
  {
    hide NameHeader, FlagHeader;
    assert a[1] == a[..k][1] == b[..k][1] == b[1] && a[0] == a[..k][0] == b[..k][0] == b[0];
    CharAgrees(u, a, b, k, 2, ':');
    CharAgrees(u, a, b, k, 2, '=');
    CharAgrees(u, a, b, k, 2, '!');
    CharAgrees(u, a, b, k, 2, '>');
    CharAgrees(u, a, b, k, 2, '<');
    CharAgrees(u, a, b, k, 2, 'P');
    if |a| > 2 && a[2] == '<' {
      CharAgrees(u, a, b, k, 3, '=');
      CharAgrees(u, a, b, k, 3, '!');
    } else if |a| > 2 && a[2] == 'P' {
      NameHeaderAgrees(u, a, b, k);
    } else if |a| > 2 && |b| > 2 {
      FlagHeaderAgrees(u, a, b, k);
    } else if |a| > 2 {
      NoFlagHeader(u, a, k);
    } else if |b| > 2 {
      NoFlagHeader(u, b, k);
    }
  }

  lemma NoFlagHeader(u: char -> bool, cs: string, k: nat)
    requires k == 2 < |cs| && !IsHeaderChar(u, cs[2])
    ensures FlagHeader(cs) == None
  {
    assert cs[2..][0] == cs[2];
  }

  lemma RustHeaderAgrees(u: char -> bool, a: string, b: string, k: nat)
    requires Agree(u, a, b, k)
    ensures b[0] == '(' && b[1] == '?' && Rust.RustHeader(u, a) == Rust.RustHeader(u, b)
  {
    hide GroupHeader, Rust.AngleHeader, Rust.WideFlags;
    assert a[1] == a[..k][1] == b[..k][1] == b[1] && a[0] == a[..k][0] == b[..k][0] == b[0];
    GroupHeaderAgrees(u, a, b, k);
    WideFlagsAgree(u, a, b, k);
    CharAgrees(u, a, b, k, 2, '<');
    if |a| > 2 && a[2] == '<' {
      AngleHeaderAgrees(u, a, b, k);
    }
  }

  lemma HeaderText(u: char -> bool, cs: string, s: Scan, k: nat) returns (s2: Scan)
    requires |cs| > 1 && cs[0] == '(' && cs[1] == '?' && !(|cs| > 2 && cs[2] == '(') && !s.inClass && !s.head
    requires Translate(u, cs, s).Ok? && k == 2 + HeaderRun(u, cs[2..])
    ensures Translate(u, cs, s) == Prefix(cs[..k], Translate(u, cs[k..], s2))
  {
    hide Translate, StepAt;
    Taken(u, cs, s);
    s2 := OpeningStep(u, cs, s);
    OneStep(u, cs, s, Step("(", 1, s2));
    forall i | 1 <= i < k
      ensures Copied(cs[i], s2)
    {
      if i > 1 {
        assert cs[i] == cs[2..][i - 2];
      }
    }
    CopyRest(u, cs, 1, k, s2);
    PushPiece("(", cs[1..k], Translate(u, cs[k..], s2));
    assert "(" + cs[1..k] == cs[..k];
  }

  /** The opening of a group, as far as it may go, is copied, and nothing behind it
      continues it. */
  lemma HeaderIsCopied(u: char -> bool, cs: string, s: Scan, k: nat)
    requires |cs| > 1 && cs[0] == '(' && cs[1] == '?' && !(|cs| > 2 && cs[2] == '(') && !s.inClass && !s.head
    requires Translate(u, cs, s).Ok? && k == 2 + HeaderRun(u, cs[2..]) && !EscapedAt(cs, k)
    ensures Agree(u, cs, Translate(u, cs, s).value, k)
    ensures !(|Translate(u, cs, s).value| > 2 && Translate(u, cs, s).value[2] == '(')
  {
    hide Translate, StepAt, IsHeaderChar, EscapedAt;
    var s2 := HeaderText(u, cs, s, k);
    var rest, out := Translate(u, cs[k..], s2).value, Translate(u, cs, s).value;
    assert out == cs[..k] + rest && out[..k] == cs[..k];
    if k < |cs| {
      assert cs[2..][k - 2] == cs[k];
    }
    SomethingWritten(u, cs[k..], s2);
    if rest != "" {
      HeaderEnds(u, cs, k, s2);
      assert out[k] == rest[0];
    }
    if k > 2 {
      assert out[2] == out[..k][2] == cs[2];
    }
  }

  lemma Taken(u: char -> bool, cs: string, s: Scan)
    requires cs != "" && Translate(u, cs, s).Ok?
    ensures StepAt(u, cs, s).Ok?
  {
  }

  /** What the parenthesis of a group opening leaves the scan with. */
  lemma OpeningStep(u: char -> bool, cs: string, s: Scan) returns (s2: Scan)
    requires |cs| > 1 && cs[0] == '(' && cs[1] == '?' && !(|cs| > 2 && cs[2] == '(') && !s.inClass && !s.head
    requires StepAt(u, cs, s).Ok?
    ensures StepAt(u, cs, s) == Ok(Step("(", 1, s2)) && !s2.inClass && !s2.head
  {
    hide RefusedGroup;
    s2 := StepAt(u, cs, s).value.scan;
  }

  lemma HeaderEnds(u: char -> bool, cs: string, k: nat, s: Scan)
    requires 2 <= k < |cs| && !IsHeaderChar(u, cs[k]) && !EscapedAt(cs, k)
    requires Translate(u, cs[k..], s).Ok? && Translate(u, cs[k..], s).value != ""
    ensures !IsHeaderChar(u, Translate(u, cs[k..], s).value[0])
    ensures Translate(u, cs[k..], s).value[0] == '(' ==> cs[k] == '('
  {
    var rest := cs[k..];
    assert rest[0] == cs[k] && (|rest| > 1 ==> rest[1] == cs[k + 1]);
    var step := StepAt(u, rest, s).value;
    PieceStart(u, rest, s);
    assert Translate(u, rest, s).value[0] == step.piece[0];
    if rest[0] == '\\' {
      KeptBackslash(rest, s);
    }
  }

  /** A backslash stays unless it stands before punctuation that means itself. */
  lemma KeptBackslash(cs: string, s: Scan)
    requires cs != "" && cs[0] == '\\' && StepEscape(cs, s).Ok? && !EscapedAt(cs, 0)
    ensures StepEscape(cs, s).value.piece[0] == '\\'
  {
  }

  /** An opening of a group that Python does not read. */
  lemma HeaderStops(u: char -> bool, cs: string, p: Py.Reading, s: Scan, b: Beside)
    requires Stopped(u, cs, p, s, b) && p.mode == Outside && Translate(u, cs, s).Ok?
    requires |cs| > 1 && cs[0] == '(' && cs[1] == '?' && !(|cs| > 2 && cs[2] == '(') && GroupHeader(u, cs).None?
    ensures Translate(u, cs, s).value != "" && Rust.RustNext(u, Translate(u, cs, s).value, b.rust).None?
  {
    hide Translate, GroupHeader, HeaderRun, Rust.AngleHeader, Rust.WideFlags;
    var out, k := Translate(u, cs, s).value, 2 + HeaderRun(u, cs[2..]);
    Taken(u, cs, s);
    HeaderIsCopied(u, cs, s, k);
    RustHeaderAgrees(u, cs, out, k);
    NoRustHeader(u, cs, p, s, b);
    assert Rust.RustNext(u, out, Outside) == Rust.RustGroup(u, out);
  }

  lemma NoRustHeader(u: char -> bool, cs: string, p: Py.Reading, s: Scan, b: Beside)
    requires Stopped(u, cs, p, s, b) && p.mode == Outside && StepAt(u, cs, s).Ok?
    requires |cs| > 1 && cs[0] == '(' && cs[1] == '?' && !(|cs| > 2 && cs[2] == '(') && GroupHeader(u, cs).None?
    ensures Rust.RustHeader(u, cs) == None
  {
    hide Rust.AngleHeader, Rust.WideFlags, RefusedFlags, ReadNamedGroup;
  }

  // ----- conditions -----

  /** The names that the scan has counted are names that Python has read. */
  ghost predicate NamesRead(p: Py.Reading, b: Beside) {
    forall name :: Some(name) in b.counted ==> Some(name) in p.groups
  }

  lemma NamesStayRead(u: char -> bool, cs: string, p: Py.Reading, b: Beside)
    requires cs != "" && Py.PyNext(u, cs, p).Some? && NamesRead(p, b)
    ensures NamesRead(Py.PyNext(u, cs, p).value.reading, BesideNext(u, cs, p, b))
  {
    hide Py.PyNext;
    NextOpens(u, cs, p);
    var next := Py.PyNext(u, cs, p).value.reading;
    forall name | Some(name) in BesideNext(u, cs, p, b).counted
      ensures Some(name) in next.groups
    {
      assert Some(name) in b.counted || Some(name) in next.groups[|p.groups|..];
    }
  }

  lemma OpenConditionStep(u: char -> bool, cs: string, s: Scan)
    requires |cs| > 2 && cs[0] == '(' && cs[1] == '?' && cs[2] == '(' && !s.inClass
    requires ReadCondition(u, cs[3..]).OtherCondition?
    ensures StepAt(u, cs, s) == Ok(Step([cs[0]], 1, s))
  {
    ConditionKind(u, cs);
  }

  /** `(?(` at the very end. */
  lemma ConditionAtEnd(u: char -> bool, cs: string, s: Scan)
    requires cs == "(?(" && !s.inClass && !s.head
    ensures Translate(u, cs, s) == Ok("(?(") && Rust.RustNext(u, "(?(", Outside).None?
  {
    var s2 := s.(groups := s.groups + [None]);
    assert cs[3..] == "" && ReadCondition(u, "") == OtherCondition;
    OpenConditionStep(u, cs, s);
    OneStep(u, cs, s, Step([cs[0]], 1, s));
    assert cs[1..] == "?(" && "?("[1..] == "(" && "("[1..] == "";
    assert StepAt(u, "?(", s) == Ok(Step("?", 1, s));
    OneStep(u, "?(", s, Step("?", 1, s));
    assert StepAt(u, "(", s) == Ok(Step("(", 1, s2));
    OneStep(u, "(", s, Step("(", 1, s2));
    assert Translate(u, "", s2) == Ok("");
    assert "(" + "" == "(" && "?" + "(" == "?(" && "(" + "?(" == "(?(";
    assert Rust.RustNext(u, "(?(", Outside) == Rust.RustGroup(u, "(?(");
  }

  /** A number that no parenthesis ends. */
  lemma OpenNumberStops(u: char -> bool, cs: string, s: Scan)
    requires IsCondition(cs) && IsDigit(cs[3]) && !s.inClass && !s.head && Translate(u, cs, s).Ok?
    requires ReadCondition(u, cs[3..]).OtherCondition?
    ensures Translate(u, cs, s).value != "" && Rust.RustNext(u, Translate(u, cs, s).value, Outside).None?
  {
    hide Translate, StepAt, ReadCondition, Copied, Conditions;
    var d, s2 := DigitRun(cs[3..]), s.(groups := s.groups + [None]);
    var n := 3 + d;
    OpenConditionStep(u, cs, s);
    OneStep(u, cs, s, Step([cs[0]], 1, s));
    QuestionIsCopied(s);
    CopyRest(u, cs, 1, 2, s);
    InnerParenthesis(u, cs[2..], s);
    OneStep(u, cs[2..], s, Step([cs[2]], 1, s2));
    assert cs[2..][1..] == cs[3..];
    RunIsCopied(cs, n, s2);
    CopyRest(u, cs, 3, n, s2);
    Join4(cs, n, Translate(u, cs[n..], s2));
    OpenNumberReads(u, cs, s2);
  }

  lemma RunIsCopied(cs: string, n: nat, s: Scan)
    requires 3 <= n <= |cs| && n == 3 + DigitRun(cs[3..]) && !s.inClass
    ensures forall i :: 3 <= i < n ==> Copied(cs[i], s)
  {
    forall i | 3 <= i < n
      ensures Copied(cs[i], s)
    {
      assert cs[i] == cs[3..][i - 3];
    }
  }

  lemma OpenNumberReads(u: char -> bool, cs: string, s: Scan)
    requires IsCondition(cs) && IsDigit(cs[3]) && ReadCondition(u, cs[3..]).OtherCondition?
    requires Translate(u, cs[3 + DigitRun(cs[3..])..], s).Ok?
    ensures var n := 3 + DigitRun(cs[3..]); Rust.RustNext(u, cs[..n] + Translate(u, cs[n..], s).value, Outside).None?
  {
    hide Translate;
    var d := DigitRun(cs[3..]);
    var digits, after := cs[3..][..d], cs[3 + d..];
    var rest := Translate(u, after, s).value;
    var out := cs[..3 + d] + rest;
    assert cs[3..][0] == cs[3];
    assert after != "" ==> after[0] == cs[3 + d] == cs[3..][d];
    DigitFollows(u, after, s);
    FirstKept(u, after, s, ')');
    assert out[3..] == digits + rest;
    DigitRunIs(digits, rest);
    assert rest != "" ==> out[3 + d] == rest[0];
    assert Rust.RustNext(u, out, Outside) == Rust.RustGroup(u, out);
  }

  lemma ConditionStops(u: char -> bool, cs: string, p: Py.Reading, s: Scan, b: Beside)
    requires Stopped(u, cs, p, s, b) && p.mode == Outside && Translate(u, cs, s).Ok? && NamesRead(p, b)
    requires |cs| > 2 && cs[0] == '(' && cs[1] == '?' && cs[2] == '('
    ensures Translate(u, cs, s).value != "" && Rust.RustNext(u, Translate(u, cs, s).value, b.rust).None?
  {
    hide Translate, Rust.RustNext, Hazard;
    if |cs| == 3 {
      assert cs == "(?(";
      ConditionAtEnd(u, cs, s);
    } else {
      Taken(u, cs, s);
      ConditionStays(u, cs, p, s, b);
      OpenNumberStops(u, cs, s);
    }
  }

  /** Of the conditions that Python refuses, the translator leaves to Rust only those
      on a number that no parenthesis ends. */
  lemma ConditionStays(u: char -> bool, cs: string, p: Py.Reading, s: Scan, b: Beside)
    requires Stopped(u, cs, p, s, b) && p.mode == Outside && IsCondition(cs) && StepAt(u, cs, s).Ok? && NamesRead(p, b)
    ensures IsDigit(cs[3]) && ReadCondition(u, cs[3..]).OtherCondition?
  {
    hide HeaderRun, Rust.WideFlags;
    ConditionKind(u, cs);
    assert cs[3..][0] == cs[3];
    var d, n := DigitRun(cs[3..]), WordRun(u, cs[3..]);
    assert Py.PyNext(u, cs, p) == Py.PyCondition(u, cs, p);
    if IsDigit(cs[3]) {
      assert 3 + d < |cs| ==> cs[3..][d] == cs[3 + d];
    } else {
      var name := ConditionName(u, cs);
      assert cs[3..][n] == cs[3 + n];
      assert ReadCondition(u, cs[3..]) == NameCondition(name);
      PositionIffMember(s.groups, name);
      PositionIffMember(p.groups, name);
    }
  }

  // ----- everything else -----

  lemma BraceStops(u: char -> bool, cs: string, p: Py.Reading, s: Scan)
    requires cs != "" && cs[0] == '{' && p.mode == Outside && !s.inClass && Py.PyNext(u, cs, p).None?
    ensures StepAt(u, cs, s).Err?
  {
    var braces := ReadBraces(cs).value;
    ExceedsIsGreater(braces.min, braces.max);
    ReadBracesText(cs);
  }

  lemma GroupStops(u: char -> bool, cs: string, p: Py.Reading, s: Scan, b: Beside)
    requires Stopped(u, cs, p, s, b) && cs[0] == '(' && p.mode == Outside && Translate(u, cs, s).Ok? && NamesRead(p, b)
    requires !Repeats(u, cs, p)
    ensures Translate(u, cs, s).value != "" && Rust.RustNext(u, Translate(u, cs, s).value, b.rust).None?
  {
    hide HeaderRun, Rust.WideFlags, Rust.RustNext, GroupHeader;
    assert Py.PyNext(u, cs, p) == Py.PyGroup(u, cs, p);
    if |cs| > 2 && cs[1] == '?' && cs[2] == '(' {
      ConditionStops(u, cs, p, s, b);
    } else if |cs| > 1 && cs[1] == '?' {
      UnreadOrRepeated(u, cs, p);
      HeaderStops(u, cs, p, s, b);
    }
  }

  lemma UnreadOrRepeated(u: char -> bool, cs: string, p: Py.Reading)
    requires |cs| > 1 && cs[0] == '(' && cs[1] == '?' && !(|cs| > 2 && cs[2] == '(') && Py.PyGroup(u, cs, p).None?
    ensures GroupHeader(u, cs).None? || Repeats(u, cs, p)
  {
    hide NameHeader, FlagHeader;
  }

  lemma NotAstray(u: char -> bool, cs: string, p: Py.Reading, s: Scan, b: Beside)
    requires Stopped(u, cs, p, s, b)
    ensures !b.astray && s.inClass == (p.mode != Outside)
  {
  }

  /** A group with a name that was read before. */
  predicate Repeats(u: char -> bool, cs: string, p: Py.Reading) {
    && |cs| > 3 && cs[0] == '(' && cs[1] == '?' && IsNamedGroup(cs) && GroupHeader(u, cs).Some?
    && Some(cs[4..GroupHeader(u, cs).value - 1]) in p.groups
  }

  lemma RepeatedNameStops(u: char -> bool, cs: string, p: Py.Reading, s: Scan, b: Beside)
    requires Stopped(u, cs, p, s, b) && p.mode == Outside && Translate(u, cs, s).Ok? && Repeats(u, cs, p)
    ensures !Reads(u, Translate(u, cs, s).value, Outside, p.groups)
  {
    hide Translate, Loose, Py.PyNext, Rust.RustNext;
    var n, out := GroupHeader(u, cs).value, Translate(u, cs, s).value;
    var name := Some(cs[4..n - 1]);
    var s2 := s.(groups := s.groups + [name]);
    NotAstray(u, cs, p, s, b);
    HeaderStep(u, cs, s, n, s2);
    var rest := Translate(u, cs[n..], s2).value;
    HeaderReads(u, cs, n, rest);
    if Rust.RustLex(u, out, Outside).Some? {
      assert (cs[..n] + rest)[n..] == rest;
      var tokens := Rust.RustLex(u, out, Outside).value;
      assert tokens[0] == Group(cs[..n]);
      assert cs[..n][2] == cs[2] && cs[..n][3] == cs[3] && cs[..n][4..n - 1] == cs[4..n - 1];
      assert Opens(tokens[0]) == [name];
      var i :| 0 <= i < |p.groups| && p.groups[i] == name;
      assert (p.groups + Groups(tokens))[|p.groups|] == name == (p.groups + Groups(tokens))[i];
    }
  }

  /** A dash behind a member, at the end of the text. */
  lemma LastDashStops(u: char -> bool, cs: string, p: Py.Reading, s: Scan, b: Beside)
    requires Stopped(u, cs, p, s, b) && p.mode != Outside && cs[0] != '\\' && Translate(u, cs, s).Ok?
    ensures Rust.RustLex(u, Translate(u, cs, s).value, b.rust).None?
  {
    assert Py.PyNext(u, cs, p) == Py.PyClassNext(cs, p);
    assert cs == "-";
    var step := StepClass(cs, s);
    assert StepAt(u, cs, s) == Ok(step);
    assert cs[1..] == "" && "-" + "" == "-";
    assert Translate(u, cs, s) == Ok("-");
    var r := Rust.RustNext(u, "-", b.rust);
    assert r == Rust.RustClassNext("-", b.rust);
    if r.Some? {
      assert "-"[r.value.length..] == "";
    }
  }

  /** Where Python stops without excuse, the translator or Rust stops as well. */
  lemma AllStop(u: char -> bool, cs: string, p: Py.Reading, s: Scan, b: Beside)
    requires Stopped(u, cs, p, s, b) && Translate(u, cs, s).Ok? && NamesRead(p, b)
    ensures !Reads(u, Translate(u, cs, s).value, b.rust, p.groups)
  {
    hide Translate, Loose, Groups, Distinct;
    if cs[0] == '\\' {
      EscapeStops(u, cs, p, s, b);
    } else if p.mode != Outside {
      LastDashStops(u, cs, p, s, b);
    } else if cs[0] == '(' {
      if Repeats(u, cs, p) {
        RepeatedNameStops(u, cs, p, s, b);
      } else {
        GroupStops(u, cs, p, s, b);
      }
    } else {
      Taken(u, cs, s);
      NotAstray(u, cs, p, s, b);
      BraceStops(u, cs, p, s);
    }
  }

  // ----- the theorem -----

  /** Behind a token that both read, Rust goes on with the groups that Python has. */
  lemma ReadsOn(u: char -> bool, cs: string, p: Py.Reading, s: Scan, b: Beside, piece: string, s2: Scan)
    requires Ready(u, cs, p, s, b) && !Hazard(u, cs, p, b) && Followed(u, cs, p, s, b, piece, s2)
    requires Translate(u, cs, s).Ok? && Reads(u, Translate(u, cs, s).value, b.rust, p.groups)
    ensures var next := Py.PyNext(u, cs, p).value;
            var rest := Translate(u, cs[next.length..], s2);
            rest.Ok? && Reads(u, rest.value, BesideNext(u, cs, p, b).rust, next.reading.groups)
  {
    hide Translate, Hazard, BesideNext, Rust.RustNext, Py.PyNext, Distinct, Synced, Opens;
    var next := Py.PyNext(u, cs, p).value;
    var rest := Translate(u, cs[next.length..], s2).value;
    assert (piece + rest)[|piece|..] == rest;
    var more := Rust.RustLex(u, rest, BesideNext(u, cs, p, b).rust).value;
    assert Rust.RustLex(u, piece + rest, b.rust).value == [next.token] + more;
    assert ([next.token] + more)[1..] == more;
    NextOpens(u, cs, p);
    Regroup(p.groups, Opens(next.token), Groups(more));
  }

  lemma {:induction false} ConverseFrom(u: char -> bool, cs: string, p: Py.Reading, s: Scan, b: Beside)
    requires Synced(p, s, b) && NamesRead(p, b) && !Excused(u, cs, p, b)
    requires Translate(u, cs, s).Ok? && Reads(u, Translate(u, cs, s).value, b.rust, p.groups)
    ensures Py.PyLex(u, cs, p).Some?
    decreases |cs|
  {
    hide Hazard, BesideNext, Rust.RustNext, Py.PyNext, Distinct, Loose, Groups, AstrayHazard;
    if cs != "" {
      if Py.PyNext(u, cs, p).None? {
        AllStop(u, cs, p, s, b);
      } else {
        Taken(u, cs, s);
        NoAstrayHazard(u, cs, p, s, b);
        var piece, s2 := Follow(u, cs, p, s, b);
        var next := Py.PyNext(u, cs, p).value;
        ReadsOn(u, cs, p, s, b, piece, s2);
        NamesStayRead(u, cs, p, b);
        ConverseFrom(u, cs[next.length..], next.reading, s2, BesideNext(u, cs, p, b));
      }
    }
  }

  lemma NoAstrayHazard(u: char -> bool, cs: string, p: Py.Reading, s: Scan, b: Beside)
    requires cs != "" && Synced(p, s, b) && !Hazard(u, cs, p, b)
    ensures !(b.astray && AstrayHazard(cs))
  {
  }

  lemma {:induction false} NoExcuseIsSafe(u: char -> bool, cs: string, p: Py.Reading, b: Beside)
    requires !Excused(u, cs, p, b)
    ensures Safe(u, cs, p, b)
    decreases |cs|
  {
    if cs != "" && Py.PyNext(u, cs, p).Some? {
      var next := Py.PyNext(u, cs, p).value;
      NoExcuseIsSafe(u, cs[next.length..], next.reading, BesideNext(u, cs, p, b));
    }
  }

  /** For every text without a hazard and without a loose end: the translator accepts
      it and Rust reads the translation exactly when Python reads the text, and then
      they read the same. */
  lemma AcceptedExactly(u: char -> bool, text: string)
    requires !Excused(u, text, Py.START, LEVEL)
    ensures var r, python := Translate(u, text, BEGIN), Py.PyLex(u, text, Py.START);
            && (r.Ok? && Reads(u, r.value, Outside, []) <==> python.Some?)
            && (python.Some? ==> Rust.RustLex(u, r.value, Outside) == python)
  {
    var r, python := Translate(u, text, BEGIN), Py.PyLex(u, text, Py.START);
    if python.Some? {
      NoExcuseIsSafe(u, text, Py.START, LEVEL);
      TranslationKeepsTokens(u, text);
      NamesAreDistinct(u, text, Py.START);
      assert [] + Groups(python.value) == Groups(python.value);
    } else if r.Ok? && Reads(u, r.value, Outside, []) {
      ConverseFrom(u, text, Py.START, BEGIN, LEVEL);
    }
  }
}
