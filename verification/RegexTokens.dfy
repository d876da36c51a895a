/** What a regular expression is made of, and the pieces of syntax that Python's
    `re` and Rust's engines spell alike. */
module RegexTokens {
  import opened Text

  datatype Token =
    | Lit(code: nat)
    | Sym(symbol: char)
    | Repeat(min: nat, max: Option<nat>)
    | Shorthand(letter: char)
    | TextEnd
    | BackRef(number: nat)
    | Group(text: string)
    | Condition(group: nat)
    | ClassOpen(negated: bool)
    | ClassLit(member: nat)
    | RangeDash
    | ClassShorthand(letter: char)
    | ClassOp(operator: char)
    | ClassClose

  /** Where a lexer is: outside a class; at the head of one, where `]` is still a
      member; inside one behind a range or another whole thing; behind a member that
      may begin a range; behind the dash of a range; or, for Rust alone, behind dashes
      that the class opens with. */
  datatype Mode = Outside | ClassHead | InClass | AfterItem | RangeEnd | HeadDashes

  /** Behind one character or escape. */
  function Behind(mode: Mode): Mode {
    match mode
    case Outside => Outside
    case RangeEnd => InClass
    case _ => AfterItem
  }

  predicate IsPunctuation(c: char) {
    '!' <= c <= '/' || ':' <= c <= '@' || '[' <= c <= '`' || '{' <= c <= '~'
  }

  /** The characters Rust's engine lets a backslash escape. */
  predicate IsMeta(c: char) {
    c in {'\\', '.', '+', '*', '?', '(', ')', '|', '[', ']', '{', '}', '^', '$', '#', '&', '-', '~'}
  }

  predicate IsOctal(c: char) {
    '0' <= c <= '7'
  }

  predicate AllHex(s: string) {
    forall i :: 0 <= i < |s| ==> IsHex(s[i])
  }

  function HexNumber(s: string): nat
    requires AllHex(s)
  {
    if s == "" then 0 else 16 * HexNumber(s[..|s| - 1]) + HexDigitValue(s[|s| - 1])
  }

  /** How many digits `\x`, `\u` and `\U` take. */
  function HexWidth(letter: char): nat {
    if letter == 'x' then 2 else if letter == 'u' then 4 else if letter == 'U' then 8 else 0
  }

  const MAX_SCALAR: nat := 0x10FFFF

  /** The character of a `\x`, `\u` or `\U` escape at the start of `cs`. */
  function HexEscape(cs: string): Option<nat>
    requires |cs| >= 2 && HexWidth(cs[1]) > 0
  {
    var n := HexWidth(cs[1]);
    if |cs| < 2 + n || !AllHex(cs[2..2 + n]) || HexNumber(cs[2..2 + n]) > MAX_SCALAR then None
    else Some(HexNumber(cs[2..2 + n]))
  }

  /** A code that is no character of Rust's. */
  predicate IsSurrogate(code: nat) {
    0xD800 <= code <= 0xDFFF
  }

  /** `\a`, `\f`, `\n`, `\r`, `\t` and `\v`. */
  function ControlEscape(letter: char): Option<nat> {
    if letter == 'a' then Some(7)
    else if letter == 'f' then Some(12)
    else if letter == 'n' then Some(10)
    else if letter == 'r' then Some(13)
    else if letter == 't' then Some(9)
    else if letter == 'v' then Some(11)
    else None
  }

  predicate IsClassShorthand(letter: char) {
    letter in {'d', 'D', 's', 'S', 'w', 'W'}
  }

  predicate IsAnchorLetter(letter: char) {
    letter in {'A', 'b', 'B'}
  }

  /** The characters that mean something on their own outside a class. */
  predicate IsSymbol(c: char) {
    c in {'.', '^', '$', '|', '*', '+', '?', ')'}
  }

  function DigitRun(cs: string): (n: nat)
    ensures n <= |cs| && AllDigits(cs[..n])
    ensures forall i :: 0 <= i < n ==> IsDigit(cs[i])
    ensures n < |cs| ==> !IsDigit(cs[n])
  {
    Run(c => IsDigit(c), cs)
  }

  /** A well-formed brace expression: `{m}`, `{m,}`, `{m,n}`, `{,n}` or `{,}`. */
  datatype Braces = Braces(min: string, comma: bool, max: string, length: nat)

  function ReadBraces(cs: string): (r: Option<Braces>)
    requires cs != "" && cs[0] == '{'
    ensures r.Some? ==> 2 < r.value.length <= |cs| && AllDigits(r.value.min) && AllDigits(r.value.max)
    ensures r.Some? && r.value.min == "" ==> r.value.comma
  {
    var m := DigitRun(cs[1..]);
    var comma := 1 + m < |cs| && cs[1 + m] == ',';
    var from := if comma then 2 + m else 1 + m;
    var n := if comma then DigitRun(cs[from..]) else 0;
    var close := from + n;
    assert cs[1..1 + m] == cs[1..][..m] && (comma ==> cs[from..close] == cs[from..][..n]);
    if close < |cs| && cs[close] == '}' && (m > 0 || comma)
    then Some(Braces(cs[1..1 + m], comma, cs[from..close], close + 1))
    else None
  }

  function BracesMin(b: Braces): nat
    requires AllDigits(b.min)
  {
    DigitsValue(b.min)
  }

  function BracesMax(b: Braces): Option<nat>
    requires AllDigits(b.min) && AllDigits(b.max)
  {
    if !b.comma then Some(DigitsValue(b.min))
    else if b.max == "" then None
    else Some(DigitsValue(b.max))
  }

  predicate IsFlag(c: char) {
    c in {'i', 'm', 's', 'u'}
  }

  function FlagRun(cs: string): (n: nat)
    ensures n <= |cs|
    ensures forall i :: 0 <= i < n ==> IsFlag(cs[i])
    ensures n < |cs| ==> !IsFlag(cs[n])
  {
    Run(c => IsFlag(c), cs)
  }

  /** The length of a `(?...` group opening that both dialects read alike:
      `(?:`, `(?=`, `(?!`, `(?>`, `(?<=`, `(?<!`, `(?P<name>`, `(?P=name)`,
      `(?flags)`, `(?flags:` and `(?flags-flags:`. */
  function GroupHeader(u: char -> bool, cs: string): (r: Option<nat>)
    requires |cs| >= 2 && cs[0] == '(' && cs[1] == '?'
    ensures r.Some? ==> 3 <= r.value <= |cs|
  {
    if |cs| < 3 then None
    else if cs[2] in {':', '=', '!', '>'} then Some(3)
    else if cs[2] == '<' then
      if |cs| >= 4 && cs[3] in {'=', '!'} then Some(4) else None
    else if cs[2] == 'P' then NameHeader(u, cs)
    else FlagHeader(cs)
  }

  function NameHeader(u: char -> bool, cs: string): (r: Option<nat>)
    requires |cs| >= 3
    ensures r.Some? ==> 6 <= r.value <= |cs|
  {
    if |cs| < 4 || cs[3] !in {'<', '='} then None
    else
      var n := WordRun(u, cs[4..]);
      if n > 0 && !IsDigit(cs[4]) && 4 + n < |cs| && cs[4 + n] == (if cs[3] == '<' then '>' else ')')
      then Some(5 + n)
      else None
  }

  /** The Unicode flag is never turned off, and no flag both ways. */
  predicate MayTurnOff(on: string, off: string) {
    'u' !in off && forall i :: 0 <= i < |off| ==> off[i] !in on
  }

  function FlagHeader(cs: string): (r: Option<nat>)
    requires |cs| >= 3
    ensures r.Some? ==> 4 <= r.value <= |cs|
  {
    var on := FlagRun(cs[2..]);
    var at := 2 + on;
    if at >= |cs| then None
    else if on > 0 && cs[at] in {':', ')'} then Some(at + 1)
    else if cs[at] != '-' then None
    else
      var off := FlagRun(cs[at + 1..]);
      if off > 0 && at + 1 + off < |cs| && cs[at + 1 + off] == ':' && MayTurnOff(cs[2..at], cs[at + 1..][..off])
      then Some(at + off + 2)
      else None
  }

  function OctalRun(cs: string): (n: nat)
    ensures n <= |cs| && forall i :: 0 <= i < n ==> IsOctal(cs[i])
    ensures n < |cs| ==> !IsOctal(cs[n])
  {
    Run(c => IsOctal(c), cs)
  }

  function OctalValue(s: string): nat
    requires forall i :: 0 <= i < |s| ==> IsOctal(s[i])
  {
    if s == "" then 0 else
    assert IsOctal(s[|s| - 1]);
    8 * OctalValue(s[..|s| - 1]) + DigitValue(s[|s| - 1])
  }

  /** Which group a name is, counting from zero. */
  function Position(groups: seq<Option<string>>, name: string): (r: Option<nat>)
    ensures r.Some? ==> r.value < |groups| && groups[r.value] == Some(name)
  {
    if groups == [] then None
    else if groups[0] == Some(name) then Some(0)
    else match Position(groups[1..], name)
      case None => None
      case Some(i) => Some(i + 1)
  }
}
