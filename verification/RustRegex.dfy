/** The lexical reading Rust's engines give a pattern: the linear engine's, and where
    only the backtracking one that stands in for it has a construct (references,
    conditions, look-around, verbs, operators spelled as letter escapes), that one's.
    Where it is not known which letters that one takes, it is taken to read them all. */
module RustRegex {
  import opened Text
  import opened RegexTokens

  datatype Next = Next(token: Token, length: nat, mode: Mode)

  function RustNext(u: char -> bool, cs: string, mode: Mode): (r: Option<Next>)
    requires cs != ""
    ensures r.Some? ==> 1 <= r.value.length <= |cs|
  {
    if mode != Outside then RustClassNext(cs, mode)
    else if cs[0] == '\\' then RustEscape(cs)
    else if cs[0] == '[' then
      if |cs| > 1 && cs[1] == '^' then Some(Next(ClassOpen(true), 2, ClassHead))
      else Some(Next(ClassOpen(false), 1, ClassHead))
    else if cs[0] == '(' then RustGroup(u, cs)
    else if cs[0] == '{' then RustRepeat(cs)
    else if IsSymbol(cs[0]) then Some(Next(Sym(cs[0]), 1, Outside))
    else Some(Next(Lit(cs[0] as nat), 1, Outside))
  }

  /** A digit after a backslash is a reference, however many digits follow. */
  function RustEscape(cs: string): (r: Option<Next>)
    requires cs != ""
    ensures r.Some? ==> 2 <= r.value.length <= |cs|
  {
    if |cs| < 2 then None
    else if IsDigit(cs[1]) then
      var n := DigitRun(cs[1..]);
      Some(Next(BackRef(DigitsValue(cs[1..][..n])), 1 + n, Outside))
    else if cs[1] == 'z' then Some(Next(TextEnd, 2, Outside))
    else if IsAnchorLetter(cs[1]) || IsClassShorthand(cs[1]) then Some(Next(Shorthand(cs[1]), 2, Outside))
    else match RustLiteralEscape(cs)
      case None => if IsOperatorLetter(cs[1]) then Some(Next(Shorthand(cs[1]), 2, Outside)) else None
      case Some((code, length)) => Some(Next(Lit(code), length, Outside))
  }

  /** `\h`, `\N`, `\R`, `\G`, `\X` and whatever else is a letter. */
  predicate IsOperatorLetter(letter: char) {
    IsAsciiLetter(letter) && HexWidth(letter) == 0
  }

  function RustLiteralEscape(cs: string): (r: Option<(nat, nat)>)
    requires |cs| >= 2
    ensures r.Some? ==> 2 <= r.value.1 <= |cs|
  {
    if HexWidth(cs[1]) > 0 then
      if |cs| > 2 && cs[2] == '{' then BracedHex(cs)
      else
        match HexEscape(cs)
        case None => None
        case Some(code) => if IsSurrogate(code) then None else Some((code, 2 + HexWidth(cs[1])))
    else if ControlEscape(cs[1]).Some? then Some((ControlEscape(cs[1]).value, 2))
    else if IsMeta(cs[1]) || IsSuperfluous(cs[1]) then Some((cs[1] as nat, 2))
    else None
  }

  /** The digits may stand in braces, as many as there are. */
  function BracedHex(cs: string): (r: Option<(nat, nat)>)
    requires |cs| > 2
    ensures r.Some? ==> 4 < r.value.1 <= |cs|
  {
    var n := Run(c => IsHex(c), cs[3..]);
    assert forall i :: 0 <= i < n ==> cs[3..][i] == cs[3 + i];
    if n == 0 || 3 + n >= |cs| || cs[3 + n] != '}' then None
    else
      var code := HexNumber(cs[3..][..n]);
      if code > MAX_SCALAR || IsSurrogate(code) then None else Some((code, 4 + n))
  }

  /** An escape that Rust does not need and takes: any ASCII character that is neither
      letter nor digit, except the angle brackets. */
  predicate IsSuperfluous(c: char) {
    c < '\U{80}' && !IsAsciiLetter(c) && !IsDigit(c) && c != '<' && c != '>'
  }

  /** A brace must open a well-formed repetition with a minimum, and one engine does not
      mind a greater minimum than maximum. */
  function RustRepeat(cs: string): (r: Option<Next>)
    requires cs != "" && cs[0] == '{'
    ensures r.Some? ==> 1 <= r.value.length <= |cs|
  {
    match ReadBraces(cs)
    case None => None
    case Some(b) =>
      if b.min == "" then None
      else Some(Next(Repeat(BracesMin(b), BracesMax(b)), b.length, Outside))
  }

  function RustGroup(u: char -> bool, cs: string): (r: Option<Next>)
    requires cs != "" && cs[0] == '('
    ensures r.Some? ==> 1 <= r.value.length <= |cs|
  {
    if |cs| > 1 && cs[1] == '*' then RustVerb(cs)
    else if |cs| < 2 || cs[1] != '?' then Some(Next(Group("("), 1, Outside))
    else if |cs| > 2 && cs[2] == '(' then
      var d := DigitRun(cs[3..]);
      if d > 0 then
        if 3 + d < |cs| && cs[3 + d] == ')' then Some(Next(Condition(DigitsValue(cs[3..][..d])), 4 + d, Outside))
        else None
      else if |cs| > 3 then Some(Next(Group("(?("), 3, Outside))
      else None
    else match RustHeader(u, cs)
      case None => None
      case Some(n) => Some(Next(Group(cs[..n]), n, Outside))
  }

  /** `(*FAIL)` and the like. */
  function RustVerb(cs: string): (r: Option<Next>)
    requires |cs| > 1
    ensures r.Some? ==> 3 < r.value.length <= |cs|
  {
    var n := Run(c => 'A' <= c <= 'Z', cs[2..]);
    if n > 0 && 2 + n < |cs| && cs[2 + n] == ')' then Some(Next(Group(cs[..3 + n]), 3 + n, Outside)) else None
  }

  /** Beyond what both dialects read: groups named with angle brackets alone, the flags
      `U` and `R`, and flags turned off without a scope or whatever they are. */
  function RustHeader(u: char -> bool, cs: string): (r: Option<nat>)
    requires |cs| >= 2 && cs[0] == '(' && cs[1] == '?'
    ensures r.Some? ==> 3 <= r.value <= |cs|
  {
    if GroupHeader(u, cs).Some? then GroupHeader(u, cs)
    else if |cs| > 2 && cs[2] == '<' then AngleHeader(u, cs)
    else WideFlags(cs)
  }

  function AngleHeader(u: char -> bool, cs: string): (r: Option<nat>)
    requires |cs| > 2
    ensures r.Some? ==> 4 < r.value <= |cs|
  {
    var n := WordRun(u, cs[3..]);
    if n > 0 && !IsDigit(cs[3]) && 3 + n < |cs| && cs[3 + n] == '>' then Some(4 + n) else None
  }

  predicate IsRustFlag(c: char) {
    IsFlag(c) || c == 'U' || c == 'R'
  }

  function RustFlagRun(cs: string): (n: nat)
    ensures n <= |cs| && forall i :: 0 <= i < n ==> IsRustFlag(cs[i])
    ensures n < |cs| ==> !IsRustFlag(cs[n])
  {
    Run(c => IsRustFlag(c), cs)
  }

  function WideFlags(cs: string): (r: Option<nat>)
    requires |cs| >= 2
    ensures r.Some? ==> 3 < r.value <= |cs|
  {
    var on := RustFlagRun(cs[2..]);
    var off := if 2 + on < |cs| && cs[2 + on] == '-' then RustFlagRun(cs[3 + on..]) else 0;
    var at := if off > 0 then 3 + on + off else 2 + on;
    if on + off > 0 && at < |cs| && (cs[at] == ':' || cs[at] == ')') then Some(at + 1) else None
  }

  /** The dashes a class opens with, and a `]` there, are members that begin no range.
      Further on a doubled `&`, `-` or `~` is a set operation, except as the end of a
      range, and a bracket opens another class, which no translated pattern contains. */
  function RustClassNext(cs: string, mode: Mode): (r: Option<Next>)
    requires cs != ""
    ensures r.Some? ==> 1 <= r.value.length <= |cs|
  {
    if cs[0] == ']' then Some(if mode == ClassHead then Next(ClassLit(']' as nat), 1, InClass) else Next(ClassClose, 1, Outside))
    else if cs[0] == '\\' then RustClassEscape(cs, mode)
    else if mode == RangeEnd then Some(Next(ClassLit(cs[0] as nat), 1, InClass))
    else if cs[0] == '-' && (mode == ClassHead || mode == HeadDashes) then Some(Next(ClassLit('-' as nat), 1, HeadDashes))
    else if cs[0] == '-' && mode == AfterItem && (|cs| == 1 || (cs[1] != ']' && cs[1] != '-')) then
      if |cs| == 1 then None else Some(Next(RangeDash, 1, RangeEnd))
    else if cs[0] == '[' then None
    else if IsOperator(cs[0]) && |cs| > 1 && cs[1] == cs[0] then Some(Next(ClassOp(cs[0]), 2, InClass))
    else Some(Next(ClassLit(cs[0] as nat), 1, AfterItem))
  }

  predicate IsOperator(c: char) {
    c == '&' || c == '-' || c == '~'
  }

  function RustClassEscape(cs: string, mode: Mode): (r: Option<Next>)
    requires cs != ""
    ensures r.Some? ==> 2 <= r.value.length <= |cs|
  {
    if |cs| < 2 then None
    else if IsClassShorthand(cs[1]) then Some(Next(ClassShorthand(cs[1]), 2, Behind(mode)))
    else match RustLiteralEscape(cs)
      case None => None
      case Some((code, length)) => Some(Next(ClassLit(code), length, Behind(mode)))
  }

  function RustLex(u: char -> bool, cs: string, mode: Mode): Option<seq<Token>> {
    if cs == "" then
      if mode == Outside then Some([]) else None
    else match RustNext(u, cs, mode)
      case None => None
      case Some(next) =>
        match RustLex(u, cs[next.length..], next.mode)
        case None => None
        case Some(rest) => Some([next.token] + rest)
  }
}
