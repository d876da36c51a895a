/** What the translator refuses, read off the pattern one character at a time. */
module RegexRefusals {
  import opened Text
  import opened RegexTokens
  import opened RegexTranslator
  import RegexTranslation

  // ----- the shapes -----

  const ESCAPE_LETTERS: set<char> := {
    'a', 'b', 'f', 'n', 'r', 't', 'v', 'd', 'D', 's', 'S', 'w', 'W', 'A', 'B', 'Z', 'x', 'u', 'U'
  }

  /** Three octal digits of more than 0o377. */
  predicate LargeOctal(cs: string) {
    |cs| > 3 && cs[0] == '\\' && '4' <= cs[1] <= '7' && '0' <= cs[2] <= '7' && '0' <= cs[3] <= '7'
  }

  predicate FlagsOf(cs: string, n: nat) {
    && 0 < n && 2 + n < |cs| && "(?" <= cs
    && (forall i :: 2 <= i < 2 + n ==> cs[i] in {'-', 'a', 'i', 'L', 'm', 's', 'u', 'x'})
    && (cs[2 + n] == ':' || cs[2 + n] == ')')
  }

  predicate AsciiFlagged(cs: string) {
    exists n :: 0 <= n < |cs| && FlagsOf(cs, n) && 'a' in cs[2..2 + n]
  }

  predicate TurnsOff(cs: string) {
    exists n :: 0 <= n < |cs| && FlagsOf(cs, n) && '-' in cs[2..2 + n] && cs[2 + n] == ')'
  }

  /** `(?(`, `n` characters and `)`. */
  predicate Tests(cs: string, n: nat) {
    0 < n && 3 + n < |cs| && "(?(" <= cs && cs[3 + n] == ')'
  }

  predicate TestsZero(cs: string) {
    exists n :: 0 <= n < |cs| && Tests(cs, n) && forall i :: 3 <= i < 3 + n ==> cs[i] == '0'
  }

  predicate TestsName(u: char -> bool, cs: string, n: nat) {
    Tests(cs, n) && !IsDigit(cs[3]) && forall i :: 3 <= i < 3 + n ==> IsWord(u, cs[i])
  }

  predicate TestsUnread(u: char -> bool, cs: string, names: set<string>) {
    exists n :: 0 <= n < |cs| && TestsName(u, cs, n) && cs[3..3 + n] !in names
  }

  /** `{`, `m` digits, a comma, `n` digits and `}`. */
  predicate Bounds(cs: string, m: nat, n: nat) {
    && 0 < m && 0 < n && 2 + m + n < |cs| && cs[0] == '{' && cs[1 + m] == ',' && cs[2 + m + n] == '}'
    && AllDigits(cs[1..1 + m]) && AllDigits(cs[2 + m..2 + m + n])
  }

  predicate TurnedAround(cs: string) {
    exists m, n :: 0 <= m < |cs| && 0 <= n < |cs| && Bounds(cs, m, n)
      && DigitsValue(cs[1..1 + m]) > DigitsValue(cs[2 + m..2 + m + n])
  }

  /** What is refused at the start of `cs`, after groups of these names. */
  function RefusalHere(u: char -> bool, cs: string, inClass: bool, names: set<string>): Option<Refusal>
    requires cs != ""
  {
    if cs[0] == '\\' then
      if |cs| > 1 && cs[1] == 'N' then Some(NamedCharacter)
      else if LargeOctal(cs) then Some(OctalTooLarge)
      else if |cs| > 1 && IsAsciiLetter(cs[1]) && cs[1] !in ESCAPE_LETTERS then Some(UnknownEscape)
      else None
    else if inClass then None
    else if "(*" <= cs then Some(BacktrackingVerb)
    else if "(?<" <= cs && !("(?<=" <= cs) && !("(?<!" <= cs) then Some(AngleNamedGroup)
    else if AsciiFlagged(cs) then Some(AsciiFlag)
    else if TurnsOff(cs) then Some(FlagTurnedOff)
    else if TestsZero(cs) then Some(ConditionOnGroupZero)
    else if TestsUnread(u, cs, names) then Some(ConditionOnUnreadName)
    else if TurnedAround(cs) then Some(MinimumExceedsMaximum)
    else None
  }

  predicate NamesGroup(u: char -> bool, cs: string, n: nat) {
    0 < n && 4 + n < |cs| && "(?P<" <= cs && cs[4 + n] == '>' && forall i :: 4 <= i < 4 + n ==> IsWord(u, cs[i])
  }

  /** The name of the group that `cs` begins with, if it has one. */
  function NamedHere(u: char -> bool, cs: string): set<string> {
    set n | 0 <= n < |cs| && NamesGroup(u, cs, n) :: cs[4..4 + n]
  }

  /** The first refusal of a pattern. An escape takes two characters and anything else
      one; of what lies behind, only the class and the names read so far are kept. */
  function FirstRefusal(u: char -> bool, cs: string, inClass: bool, head: bool, names: set<string>): Option<Refusal> {
    if cs == "" then None
    else if RefusalHere(u, cs, inClass, names).Some? then RefusalHere(u, cs, inClass, names)
    else if cs[0] == '\\' then
      if |cs| == 1 then None else FirstRefusal(u, cs[2..], inClass, false, names)
    else if inClass then FirstRefusal(u, cs[1..], cs[0] != ']' || head, head && cs[0] == '^', names)
    else if cs[0] == '[' then FirstRefusal(u, cs[1..], true, true, names)
    else FirstRefusal(u, cs[1..], false, false, names + NamedHere(u, cs))
  }

  // ----- the translator finds the same -----

  function NamesIn(groups: seq<Option<string>>): set<string> {
    set i | 0 <= i < |groups| && groups[i].Some? :: groups[i].value
  }

  function RefusalOf<T>(r: Result<T, Refusal>): Option<Refusal> {
    if r.Err? then Some(r.error) else None
  }

  lemma DigitRunEnds(cs: string, n: nat)
    requires n <= |cs| && (forall i :: 0 <= i < n ==> IsDigit(cs[i])) && (n < |cs| ==> !IsDigit(cs[n]))
    ensures DigitRun(cs) == n
  {
  }

  lemma EscapeRefusal(cs: string, s: Scan)
    requires cs != "" && cs[0] == '\\'
    ensures RefusalOf(StepEscape(cs, s)) == RefusalHere(c => false, cs, s.inClass, {})
  {
    if |cs| > 1 && IsDigit(cs[1]) {
      var digits := cs[1..][..DigitRun(cs[1..])];
      assert cs[1..][0] == cs[1];
      NumberRefusal(digits, s.inClass);
      assert forall i :: 0 <= i < 3 && 1 + i < |cs| ==> cs[1..][i] == cs[1 + i];
    }
  }

  predicate LargeDigits(digits: string) {
    |digits| > 2 && '4' <= digits[0] <= '7' && IsOctal(digits[1]) && IsOctal(digits[2])
  }

  lemma NumberRefusal(digits: string, inClass: bool)
    requires digits != "" && AllDigits(digits)
    ensures RefusalOf(ReadNumberedEscape(digits, inClass)) == if LargeDigits(digits) then Some(OctalTooLarge) else None
  {
    var octal := OctalRun(digits);
    if |digits| > 2 && IsOctal(digits[0]) && IsOctal(digits[1]) && IsOctal(digits[2]) {
      ThreeDigits(digits[..3]);
    }
    assert octal >= 1 <==> IsOctal(digits[0]);
    if octal >= 1 {
      FewDigits(digits, octal);
    }
  }

  lemma ThreeDigits(digits: string)
    requires |digits| == 3 && IsOctal(digits[0]) && IsOctal(digits[1]) && IsOctal(digits[2])
    ensures OctalValue(digits) == 64 * DigitValue(digits[0]) + 8 * DigitValue(digits[1]) + DigitValue(digits[2])
  {
    assert digits[..2][..1] == digits[..1] && digits[..1][..0] == "";
    assert OctalValue(digits[..1]) == DigitValue(digits[0]);
    assert OctalValue(digits[..2]) == 8 * OctalValue(digits[..1]) + DigitValue(digits[1]);
  }

  /** A zero in front, or one or two octal digits, are small. */
  lemma FewDigits(digits: string, octal: nat)
    requires 1 <= octal <= |digits| && forall i :: 0 <= i < octal ==> IsOctal(digits[i])
    ensures OctalValue(digits[..1]) <= 7
    ensures octal >= 2 ==> OctalValue(digits[..2]) <= 63
    ensures octal >= 3 && digits[0] == '0' ==> OctalValue(digits[..3]) <= 63
  {
    assert digits[..1][..0] == "";
    if octal >= 2 {
      assert digits[..2][..1] == digits[..1];
    }
    if octal >= 3 {
      ThreeDigits(digits[..3]);
    }
  }

  // ----- groups -----

  lemma FlagsAreTheRun(cs: string, n: nat)
    requires "(?" <= cs
    ensures FlagsOf(cs, n) <==> n > 0 && n == FlagSyntaxRun(cs[2..]) && 2 + n < |cs| && (cs[2 + n] == ':' || cs[2 + n] == ')')
  {
    var flags := cs[2..];
    var run := FlagSyntaxRun(flags);
    if FlagsOf(cs, n) {
      assert flags[n] == cs[2 + n] && !IsFlagSyntax(flags[n]);
      assert forall i :: 0 <= i < n ==> flags[i] == cs[2 + i];
      assert forall i :: 0 <= i < n ==> IsFlagSyntax(flags[i]);
    }
    if n == run {
      forall i | 2 <= i < 2 + n
        ensures IsFlagSyntax(cs[i])
      {
        assert cs[i] == flags[i - 2];
      }
    }
  }

  lemma FlagRefusal(cs: string)
    requires "(?" <= cs
    ensures RefusedFlags(cs[2..])
         == if AsciiFlagged(cs) then Some(AsciiFlag) else if TurnsOff(cs) then Some(FlagTurnedOff) else None
  {
    var flags := cs[2..];
    var n := FlagSyntaxRun(flags);
    forall k: nat
      ensures FlagsOf(cs, k) ==> k == n
    {
      FlagsAreTheRun(cs, k);
    }
    FlagsAreTheRun(cs, n);
    assert flags[..n] == cs[2..2 + n];
    assert n < |flags| ==> flags[n] == cs[2 + n];
    if FlagsOf(cs, n) {
      assert 0 <= n < |cs|;
    }
  }

  lemma {:induction false} ZeroDigits(s: string)
    requires AllDigits(s)
    ensures DigitsValue(s) == 0 <==> forall i :: 0 <= i < |s| ==> s[i] == '0'
  {
    if s != "" {
      var front := s[..|s| - 1];
      ZeroDigits(front);
      assert forall i :: 0 <= i < |front| ==> front[i] == s[i];
      if forall i :: 0 <= i < |front| ==> front[i] == '0' {
        assert forall i :: 0 <= i < |s| - 1 ==> s[i] == '0';
      }
    }
  }

  lemma DigitsAreTheRun(cs: string, n: nat)
    requires Tests(cs, n) && forall i :: 3 <= i < 3 + n ==> IsDigit(cs[i])
    ensures DigitRun(cs[3..]) == n
  {
    assert forall i :: 0 <= i < n ==> cs[3..][i] == cs[3 + i];
    assert cs[3..][n] == ')';
    DigitRunEnds(cs[3..], n);
  }

  lemma WordsAreTheRun(u: char -> bool, cs: string, n: nat)
    requires Tests(cs, n) && forall i :: 3 <= i < 3 + n ==> IsWord(u, cs[i])
    ensures WordRun(u, cs[3..]) == n
  {
    assert forall i :: 0 <= i < n ==> cs[3..][i] == cs[3 + i];
    assert cs[3..][n] == ')';
    RegexTranslation.WordRunAt(u, cs[3..], n);
  }

  /** A condition on a number is refused exactly for zero. */
  lemma NumberedRefusal(u: char -> bool, cs: string, names: set<string>)
    requires "(?(" <= cs && |cs| > 3 && IsDigit(cs[3])
    ensures !TestsUnread(u, cs, names)
    ensures var c := ReadCondition(u, cs[3..]);
            !c.NameCondition? && (TestsZero(cs) <==> c.NumberCondition? && c.number == 0)
  {
    var rest, d := cs[3..], DigitRun(cs[3..]);
    assert rest[0] == cs[3] && d > 0;
    assert forall i :: 0 <= i < d ==> rest[i] == cs[3 + i];
    if d < |rest| && rest[d] == ')' {
      assert cs[3 + d] == ')' && Tests(cs, d);
      ZeroDigits(rest[..d]);
      assert forall i :: 0 <= i < d ==> rest[..d][i] == cs[3 + i];
      if DigitsValue(rest[..d]) == 0 {
        assert forall i :: 3 <= i < 3 + d ==> cs[i] == rest[..d][i - 3];
        assert 0 <= d < |cs|;
      }
    }
    forall n: nat
      ensures Tests(cs, n) && (forall i :: 3 <= i < 3 + n ==> cs[i] == '0') ==> n == d && cs[3 + n] == rest[d] == ')'
    {
      if Tests(cs, n) && forall i :: 3 <= i < 3 + n ==> cs[i] == '0' {
        DigitsAreTheRun(cs, n);
        assert rest[d] == cs[3 + d];
      }
    }
  }

  /** A condition on a name is refused exactly if no group of that name was read. */
  lemma NamedRefusal(u: char -> bool, cs: string, names: set<string>)
    requires "(?(" <= cs && (|cs| > 3 ==> !IsDigit(cs[3]))
    ensures !TestsZero(cs)
    ensures var c := ReadCondition(u, cs[3..]);
            !c.NumberCondition? && (TestsUnread(u, cs, names) <==> c.NameCondition? && c.name_ !in names)
  {
    var rest, n := cs[3..], WordRun(u, cs[3..]);
    assert rest != "" ==> rest[0] == cs[3];
    assert DigitRun(rest) == 0;
    assert forall i :: 0 <= i < n ==> rest[i] == cs[3 + i];
    if n > 0 && n < |rest| && rest[n] == ')' {
      assert cs[3 + n] == ')' && rest[..n] == cs[3..3 + n];
      assert forall i :: 3 <= i < 3 + n ==> cs[i] == rest[i - 3];
      assert TestsName(u, cs, n);
    }
    forall k: nat
      ensures TestsName(u, cs, k) ==> k == n && cs[3..3 + k] == rest[..n] && rest[n] == ')'
    {
      if TestsName(u, cs, k) {
        WordsAreTheRun(u, cs, k);
        assert rest[n] == cs[3 + n];
      }
    }
  }

  lemma {:induction false} PositionIsRead(groups: seq<Option<string>>, name: string)
    ensures Position(groups, name).None? <==> name !in NamesIn(groups)
  {
    RegexTranslation.PositionIffMember(groups, name);
    if Some(name) in groups {
      var i :| 0 <= i < |groups| && groups[i] == Some(name);
      assert groups[i].value in NamesIn(groups);
    }
  }

  lemma GroupRefusal(u: char -> bool, cs: string, s: Scan)
    requires cs != "" && cs[0] == '(' && !s.inClass
    ensures RefusalOf(StepGroup(u, cs, s)) == RefusalHere(u, cs, false, NamesIn(s.groups))
  {
    hide DigitRun, WordRun, ReadCondition, RefusedFlags, Position, NamesIn;
    assert !TurnedAround(cs);
    assert "(*" <= cs <==> |cs| > 1 && cs[1] == '*';
    if |cs| > 1 && cs[1] == '?' {
      assert "(?" <= cs;
      assert "(?<" <= cs <==> |cs| > 2 && cs[2] == '<';
      assert ("(?<=" <= cs <==> |cs| > 3 && cs[2] == '<' && cs[3] == '=')
          && ("(?<!" <= cs <==> |cs| > 3 && cs[2] == '<' && cs[3] == '!');
      FlagRefusal(cs);
      if |cs| > 2 && cs[2] == '(' {
        RegexTranslation.ConditionKind(u, cs);
        ConditionRefusal(u, cs, s);
      } else {
        assert !TestsZero(cs) && !TestsUnread(u, cs, NamesIn(s.groups));
      }
    }
  }

  lemma ConditionRefusal(u: char -> bool, cs: string, s: Scan)
    requires "(?(" <= cs && !s.inClass && ReadGroup(u, cs) == Ok(ReadCondition(u, cs[3..]))
    ensures !AsciiFlagged(cs) && !TurnsOff(cs)
    ensures RefusalOf(StepGroup(u, cs, s))
         == if TestsZero(cs) then Some(ConditionOnGroupZero)
            else if TestsUnread(u, cs, NamesIn(s.groups)) then Some(ConditionOnUnreadName) else None
  {
    hide DigitRun, WordRun, Position, NamesIn, ReadGroup;
    var c := ReadCondition(u, cs[3..]);
    forall n: nat
      ensures !FlagsOf(cs, n)
    {
      assert cs[2] == '(';
    }
    if |cs| > 3 && IsDigit(cs[3]) {
      NumberedRefusal(u, cs, NamesIn(s.groups));
    } else {
      NamedRefusal(u, cs, NamesIn(s.groups));
      if c.NameCondition? {
        PositionIsRead(s.groups, c.name_);
      }
    }
  }

  // ----- braces -----

  lemma BoundsAreRead(cs: string, m: nat, n: nat)
    requires Bounds(cs, m, n)
    ensures ReadBraces(cs) == Some(Braces(cs[1..1 + m], true, cs[2 + m..2 + m + n], 3 + m + n))
  {
    assert forall i :: 1 <= i < 1 + m ==> cs[i] == cs[1..1 + m][i - 1];
    assert forall i :: 2 + m <= i < 2 + m + n ==> cs[i] == cs[2 + m..2 + m + n][i - 2 - m];
    RegexTranslation.BracesAtComma(cs, m, n);
  }

  lemma TurnedAroundIs(cs: string)
    requires cs != "" && cs[0] == '{'
    ensures TurnedAround(cs)
       <==> ReadBraces(cs).Some? && ReadBraces(cs).value.min != "" && ReadBraces(cs).value.max != ""
            && DigitsValue(ReadBraces(cs).value.min) > DigitsValue(ReadBraces(cs).value.max)
  {
    hide ReadBraces;
    if TurnedAround(cs) {
      var m, n :| 0 <= m < |cs| && 0 <= n < |cs| && Bounds(cs, m, n)
        && DigitsValue(cs[1..1 + m]) > DigitsValue(cs[2 + m..2 + m + n]);
      BoundsAreRead(cs, m, n);
    }
    if ReadBraces(cs).Some? {
      ReadBoundsStand(cs, ReadBraces(cs).value);
    }
  }

  lemma BraceRefusal(u: char -> bool, cs: string, s: Scan)
    requires cs != "" && cs[0] == '{' && !s.inClass
    ensures RefusalOf(StepBrace(cs, s)) == RefusalHere(u, cs, false, NamesIn(s.groups))
  {
    hide ReadBraces, TurnedAround, Exceeds, NamesIn;
    TurnedAroundIs(cs);
    if ReadBraces(cs).Some? {
      RegexTranslation.ExceedsIsGreater(ReadBraces(cs).value.min, ReadBraces(cs).value.max);
    }
    assert !("(*" <= cs) && !("(?<" <= cs) && !AsciiFlagged(cs) && !TurnsOff(cs) && !TestsZero(cs);
    assert !TestsUnread(u, cs, NamesIn(s.groups));
  }

  lemma ReadBoundsStand(cs: string, b: Braces)
    requires cs != "" && cs[0] == '{' && ReadBraces(cs) == Some(b)
    ensures b.min != "" && b.max != "" ==>
      |b.min| < |cs| && |b.max| < |cs| && Bounds(cs, |b.min|, |b.max|) && cs[1..1 + |b.min|] == b.min && cs[2 + |b.min|..2 + |b.min| + |b.max|] == b.max
  {
  }

  // ----- the whole pattern -----

  lemma StepRefusal(u: char -> bool, cs: string, s: Scan)
    requires cs != ""
    ensures RefusalOf(StepAt(u, cs, s)) == RefusalHere(u, cs, s.inClass, NamesIn(s.groups))
  {
    if cs[0] == '\\' {
      EscapeRefusal(cs, s);
    } else if !s.inClass {
      if cs[0] == '(' {
        GroupRefusal(u, cs, s);
      } else if cs[0] == '{' {
        BraceRefusal(u, cs, s);
      }
    }
  }

  /** A character that neither is refused nor opens or closes anything. */
  predicate Passed(c: char, inClass: bool) {
    c != '\\' && (if inClass then c != ']' && c != '^' else c != '[' && c != '(' && c != '{')
  }

  lemma {:induction false} PassedOver(u: char -> bool, cs: string, n: nat, inClass: bool, names: set<string>)
    requires n <= |cs| && forall i :: 0 <= i < n ==> Passed(cs[i], inClass)
    ensures FirstRefusal(u, cs, inClass, false, names) == FirstRefusal(u, cs[n..], inClass, false, names)
    decreases n
  {
    if n == 0 {
      assert cs[0..] == cs;
    } else {
      assert Passed(cs[0], inClass);
      NothingHere(u, cs, inClass, names);
      assert forall i :: 0 <= i < n - 1 ==> cs[1..][i] == cs[i + 1];
      PassedOver(u, cs[1..], n - 1, inClass, names);
      assert cs[1..][n - 1..] == cs[n..];
    }
  }

  lemma NothingHere(u: char -> bool, cs: string, inClass: bool, names: set<string>)
    requires cs != "" && Passed(cs[0], inClass)
    ensures RefusalHere(u, cs, inClass, names) == None
    ensures !inClass ==> names + NamedHere(u, cs) == names
  {
  }

  /** Where a step ends, the automaton passes with the step's state. */
  lemma StepPasses(u: char -> bool, cs: string, s: Scan, step: Step)
    requires cs != "" && StepAt(u, cs, s) == Ok(step) && (s.head ==> s.inClass)
    ensures step.scan.head ==> step.scan.inClass
    ensures FirstRefusal(u, cs, s.inClass, s.head, NamesIn(s.groups))
         == FirstRefusal(u, cs[step.length..], step.scan.inClass, step.scan.head, NamesIn(step.scan.groups))
  {
    StepRefusal(u, cs, s);
    if cs[0] == '\\' {
      EscapePasses(u, cs, s, step);
    } else if s.inClass {
    } else if cs[0] == '(' {
      GroupPasses(u, cs, s, step);
    } else if cs[0] == '{' {
      BracePasses(u, cs, s, step);
    } else {
      assert NamesIn(s.groups) + NamedHere(u, cs) == NamesIn(s.groups);
    }
  }

  lemma EscapePasses(u: char -> bool, cs: string, s: Scan, step: Step)
    requires cs != "" && cs[0] == '\\' && StepAt(u, cs, s) == Ok(step)
    requires RefusalHere(u, cs, s.inClass, NamesIn(s.groups)) == None
    ensures step.scan == s.(head := false)
    ensures FirstRefusal(u, cs, s.inClass, s.head, NamesIn(s.groups))
         == FirstRefusal(u, cs[step.length..], s.inClass, false, NamesIn(s.groups))
  {
    assert StepAt(u, cs, s) == StepEscape(cs, s);
    if step.length > 2 {
      var rest, n := cs[2..], step.length - 2;
      forall i | 0 <= i < n
        ensures Passed(rest[i], s.inClass)
      {
        var digits := cs[1..][..DigitRun(cs[1..])];
        assert digits[i + 1] == cs[1..][i + 1] == rest[i];
      }
      PassedOver(u, rest, n, s.inClass, NamesIn(s.groups));
      assert rest[n..] == cs[step.length..];
    }
  }

  lemma BracePasses(u: char -> bool, cs: string, s: Scan, step: Step)
    requires cs != "" && cs[0] == '{' && !s.inClass && !s.head && StepAt(u, cs, s) == Ok(step)
    requires RefusalHere(u, cs, false, NamesIn(s.groups)) == None
    ensures step.scan == s
    ensures FirstRefusal(u, cs, false, false, NamesIn(s.groups))
         == FirstRefusal(u, cs[step.length..], false, false, NamesIn(s.groups))
  {
    hide ReadBraces, RefusalHere, NamesIn;
    assert StepAt(u, cs, s) == StepBrace(cs, s);
    var rest, n := cs[1..], step.length - 1;
    assert NamesIn(s.groups) + NamedHere(u, cs) == NamesIn(s.groups);
    if ReadBraces(cs).Some? {
      var b := ReadBraces(cs).value;
      RegexTranslation.ReadBracesText(cs);
      forall i | 0 <= i < n
        ensures Passed(rest[i], false)
      {
        assert rest[i] == cs[..b.length][i + 1];
      }
    }
    PassedOver(u, rest, n, false, NamesIn(s.groups));
    assert rest[n..] == cs[step.length..];
  }

  lemma NamedHereIs(u: char -> bool, cs: string)
    requires cs != ""
    ensures NamedHere(u, cs)
         == if |cs| > 3 && "(?P<" <= cs && ReadNamedGroup(u, cs).Capturing? then {ReadNamedGroup(u, cs).name.value} else {}
  {
    if |cs| > 3 && "(?P<" <= cs {
      var rest, n := cs[4..], WordRun(u, cs[4..]);
      assert forall i :: 0 <= i < n ==> rest[i] == cs[4 + i];
      forall k: nat
        ensures NamesGroup(u, cs, k) ==> k == n && cs[4..4 + k] == rest[..n] && 4 + n < |cs| && cs[4 + n] == '>'
      {
        if NamesGroup(u, cs, k) {
          assert forall i :: 0 <= i < k ==> rest[i] == cs[4 + i];
          assert rest[k] == '>';
          RegexTranslation.WordRunAt(u, rest, k);
        }
      }
      if n > 0 && 4 + n < |cs| && cs[4 + n] == '>' {
        assert forall i :: 4 <= i < 4 + n ==> cs[i] == rest[i - 4];
        assert NamesGroup(u, cs, n);
        assert cs[4..4 + n] in NamedHere(u, cs);
      }
    }
  }

  lemma NamesPush(groups: seq<Option<string>>, name: Option<string>)
    ensures NamesIn(groups + [name]) == NamesIn(groups) + if name.Some? then {name.value} else {}
  {
    var all := groups + [name];
    assert forall i :: 0 <= i < |groups| ==> all[i] == groups[i];
    assert all[|groups|] == name;
    forall x
      ensures x in NamesIn(all) <==> x in NamesIn(groups) + if name.Some? then {name.value} else {}
    {
      if x in NamesIn(groups) {
        var i :| 0 <= i < |groups| && groups[i] == Some(x);
        assert all[i] == Some(x);
      }
    }
  }

  lemma CapturedName(u: char -> bool, cs: string, name: Option<string>)
    requires cs != "" && cs[0] == '(' && ReadGroup(u, cs) == Ok(Capturing(name))
    ensures NamedHere(u, cs) == if name.Some? then {name.value} else {}
  {
    hide RefusedGroup, NamedHere;
    NamedHereIs(u, cs);
  }

  lemma OneOn(u: char -> bool, cs: string, names: set<string>)
    requires cs != "" && cs[0] == '(' && RefusalHere(u, cs, false, names) == None
    ensures FirstRefusal(u, cs, false, false, names) == FirstRefusal(u, cs[1..], false, false, names + NamedHere(u, cs))
  {
  }

  lemma GroupPasses(u: char -> bool, cs: string, s: Scan, step: Step)
    requires cs != "" && cs[0] == '(' && !s.inClass && !s.head && StepAt(u, cs, s) == Ok(step)
    requires RefusalHere(u, cs, false, NamesIn(s.groups)) == None
    ensures !step.scan.inClass && !step.scan.head
    ensures FirstRefusal(u, cs, false, false, NamesIn(s.groups))
         == FirstRefusal(u, cs[step.length..], false, false, NamesIn(step.scan.groups))
  {
    hide FirstRefusal, RefusalHere, NamedHere, NamesIn, Position, Translate, RefusedGroup, ReadCondition, StepBrace, StepEscape, StepClass, WordRun;
    assert StepAt(u, cs, s) == StepGroup(u, cs, s);
    NamedHereIs(u, cs);
    OneOn(u, cs, NamesIn(s.groups));
    assert "(?P<" <= cs <==> |cs| > 3 && cs[1] == '?' && cs[2] == 'P' && cs[3] == '<';
    match ReadGroup(u, cs)
    case Ok(Capturing(name)) =>
      CapturedName(u, cs, name);
      NamesPush(s.groups, name);
    case Ok(NameCondition(name)) =>
      NamedConditionPasses(u, cs, s, name);
      assert NamesIn(s.groups) + NamedHere(u, cs) == NamesIn(s.groups);
    case Ok(_) =>
      assert NamesIn(s.groups) + NamedHere(u, cs) == NamesIn(s.groups);
  }

  lemma NamedConditionPasses(u: char -> bool, cs: string, s: Scan, name: string)
    requires cs != "" && cs[0] == '(' && ReadGroup(u, cs) == Ok(NameCondition(name)) && !s.inClass
    ensures 4 + |name| <= |cs| && NamedHere(u, cs) == {}
    ensures FirstRefusal(u, cs[1..], false, false, NamesIn(s.groups))
         == FirstRefusal(u, cs[4 + |name|..], false, false, NamesIn(s.groups))
  {
    hide FirstRefusal, RefusalHere, NamesIn;
    var names, rest, n := NamesIn(s.groups), cs[3..], |name|;
    assert "(?(" <= cs;
    assert forall i :: 0 <= i < n ==> rest[i] == rest[..n][i] == cs[3 + i];
    assert rest[n] == ')' == cs[3 + n];
    PassedOver(u, cs[1..], 1, false, names);
    assert cs[1..][1..] == cs[2..] && cs[2..][1..] == rest;
    InnerIsPassed(u, cs[2..], names);
    forall i | 0 <= i < n + 1
      ensures Passed(rest[i], false)
    {
      if i < n {
        assert IsWord(u, rest[i]);
      }
    }
    PassedOver(u, rest, n + 1, false, names);
    assert rest[n + 1..] == cs[4 + n..];
  }

  lemma InnerIsPassed(u: char -> bool, cs: string, names: set<string>)
    requires |cs| > 1 && cs[0] == '(' && cs[1] != '*' && cs[1] != '?'
    ensures RefusalHere(u, cs, false, names) == None
    ensures FirstRefusal(u, cs, false, false, names) == FirstRefusal(u, cs[1..], false, false, names)
  {
    assert !("(?" <= cs) && !("(*" <= cs) && !TurnedAround(cs);
    assert names + NamedHere(u, cs) == names;
  }

  lemma {:induction false} RefusalsFrom(u: char -> bool, cs: string, s: Scan)
    requires s.head ==> s.inClass
    ensures RefusalOf(Translate(u, cs, s)) == FirstRefusal(u, cs, s.inClass, s.head, NamesIn(s.groups))
    decreases |cs|
  {
    if cs != "" {
      hide StepAt, RefusalHere, NamesIn;
      StepRefusal(u, cs, s);
      var step := StepAt(u, cs, s);
      if step.Ok? {
        StepPasses(u, cs, s, step.value);
        RefusalsFrom(u, cs[step.value.length..], step.value.scan);
      }
    }
  }

  /** The translator refuses a pattern exactly if one of the shapes stands in it, outside
      a class or in one as each shape asks, and for the first of them. */
  lemma RefusedExactlyFor(u: char -> bool, pattern: string)
    ensures RefusalOf(Translate(u, pattern, BEGIN)) == FirstRefusal(u, pattern, false, false, {})
  {
    RefusalsFrom(u, pattern, BEGIN);
    assert NamesIn([]) == {};
  }
}
