/** The lexical reading Python's `re` gives a pattern, token by token. Comments,
    the flags that change the reading itself (`x`, `a`, `L`) and named characters
    are not part of this reading. */
module PythonRegex {
  import opened Text
  import opened RegexTokens

  /** How far a reading has got, and the groups opened so far, with their names. */
  datatype Reading = Reading(mode: Mode, groups: seq<Option<string>>)

  const START := Reading(Outside, [])

  datatype Next = Next(token: Token, length: nat, reading: Reading)

  function Stay(token: Token, length: nat, p: Reading): Option<Next> {
    Some(Next(token, length, p))
  }

  function Member(token: Token, length: nat, p: Reading): Option<Next> {
    Some(Next(token, length, p.(mode := Behind(p.mode))))
  }

  /** The first token of `cs`; none when Python refuses the pattern here. */
  function PyNext(u: char -> bool, cs: string, p: Reading): (r: Option<Next>)
    requires cs != ""
    ensures r.Some? ==> 1 <= r.value.length <= |cs|
  {
    if p.mode != Outside then PyClassNext(cs, p)
    else if cs[0] == '\\' then PyEscape(cs, p)
    else if cs[0] == '[' then
      if |cs| > 1 && cs[1] == '^' then Some(Next(ClassOpen(true), 2, p.(mode := ClassHead)))
      else Some(Next(ClassOpen(false), 1, p.(mode := ClassHead)))
    else if cs[0] == '(' then PyGroup(u, cs, p)
    else if cs[0] == '{' then PyRepeat(cs, p)
    else if IsSymbol(cs[0]) then Stay(Sym(cs[0]), 1, p)
    else Stay(Lit(cs[0] as nat), 1, p)
  }

  function PyEscape(cs: string, p: Reading): (r: Option<Next>)
    requires cs != ""
    ensures r.Some? ==> 2 <= r.value.length <= |cs|
  {
    if |cs| < 2 then None
    else if IsDigit(cs[1]) then PyNumber(cs, p)
    else if cs[1] == 'Z' then Stay(TextEnd, 2, p)
    else if IsAnchorLetter(cs[1]) || IsClassShorthand(cs[1]) then Stay(Shorthand(cs[1]), 2, p)
    else match PyLiteralEscape(cs)
      case None => None
      case Some((code, length)) => Stay(Lit(code), length, p)
  }

  /** The escapes that are one character in and out of a class. */
  function PyLiteralEscape(cs: string): (r: Option<(nat, nat)>)
    requires |cs| >= 2
    ensures r.Some? ==> 2 <= r.value.1 <= |cs|
  {
    if HexWidth(cs[1]) > 0 then
      (match HexEscape(cs)
       case None => None
       case Some(code) => Some((code, 2 + HexWidth(cs[1]))))
    else if ControlEscape(cs[1]).Some? then Some((ControlEscape(cs[1]).value, 2))
    else if IsAsciiLetter(cs[1]) || IsDigit(cs[1]) then None
    else Some((cs[1] as nat, 2))
  }

  const MAX_OCTAL: nat := 255

  /** A backslash and a digit outside a class: octal after `0`, octal if three
      octal digits follow, else a reference of at most two digits. */
  function PyNumber(cs: string, p: Reading): (r: Option<Next>)
    requires |cs| >= 2 && IsDigit(cs[1])
    ensures r.Some? ==> 2 <= r.value.length <= |cs|
  {
    if cs[1] == '0' then
      var n := OctalRun(cs[2..]);
      PyOctal(cs, 2 + (if n > 2 then 2 else n), p, false)
    else if |cs| > 2 && IsDigit(cs[2]) then
      if IsOctal(cs[1]) && IsOctal(cs[2]) && |cs| > 3 && IsOctal(cs[3]) then PyOctal(cs, 4, p, false)
      else Stay(BackRef(DigitsValue(cs[1..3])), 3, p)
    else Stay(BackRef(DigitsValue(cs[1..2])), 2, p)
  }

  function PyOctal(cs: string, length: nat, p: Reading, member: bool): Option<Next>
    requires 2 <= length <= |cs| && forall i :: 1 <= i < length ==> IsOctal(cs[i])
  {
    var value := OctalValue(cs[1..length]);
    if value > MAX_OCTAL then None
    else if member then Member(ClassLit(value), length, p)
    else Stay(Lit(value), length, p)
  }

  function PyRepeat(cs: string, p: Reading): (r: Option<Next>)
    requires cs != "" && cs[0] == '{'
    ensures r.Some? ==> 1 <= r.value.length <= |cs|
  {
    match ReadBraces(cs)
    case None => Stay(Lit('{' as nat), 1, p)
    case Some(b) =>
      if BracesMax(b).Some? && BracesMax(b).value < BracesMin(b) then None
      else Stay(Repeat(BracesMin(b), BracesMax(b)), b.length, p)
  }

  function PyGroup(u: char -> bool, cs: string, p: Reading): (r: Option<Next>)
    requires cs != "" && cs[0] == '('
    ensures r.Some? ==> 1 <= r.value.length <= |cs|
  {
    if |cs| > 1 && cs[1] == '*' then None
    else if |cs| < 2 || cs[1] != '?' then Some(Next(Group("("), 1, p.(groups := p.groups + [None])))
    else if |cs| > 2 && cs[2] == '(' then PyCondition(u, cs, p)
    else match GroupHeader(u, cs)
      case None => None
      case Some(n) =>
        if cs[2] == 'P' && cs[3] == '<' then
          var name := Some(cs[4..n - 1]);
          if name in p.groups then None
          else Some(Next(Group(cs[..n]), n, p.(groups := p.groups + [name])))
        else Stay(Group(cs[..n]), n, p)
  }

  /** `(?(1)` and `(?(name)`: a name must be that of a group already opened. */
  function PyCondition(u: char -> bool, cs: string, p: Reading): (r: Option<Next>)
    requires |cs| > 2 && cs[0] == '(' && cs[1] == '?' && cs[2] == '('
    ensures r.Some? ==> 5 <= r.value.length <= |cs|
  {
    var d, n := DigitRun(cs[3..]), WordRun(u, cs[3..]);
    if d > 0 then
      if 3 + d < |cs| && cs[3 + d] == ')' && DigitsValue(cs[3..][..d]) > 0 then
        Stay(Condition(DigitsValue(cs[3..][..d])), 4 + d, p)
      else None
    else if n > 0 && 3 + n < |cs| && cs[3 + n] == ')' then
      (match Position(p.groups, cs[3..][..n])
       case None => None
       case Some(i) => Stay(Condition(i + 1), 4 + n, p))
    else None
  }

  /** Behind a member a dash makes a range, unless the class ends there. */
  function PyClassNext(cs: string, p: Reading): (r: Option<Next>)
    requires cs != ""
    ensures r.Some? ==> 1 <= r.value.length <= |cs|
  {
    if cs[0] == ']' && p.mode != ClassHead then Some(Next(ClassClose, 1, p.(mode := Outside)))
    else if cs[0] == '\\' then PyClassEscape(cs, p)
    else if cs[0] == '-' && p.mode == AfterItem && (|cs| == 1 || cs[1] != ']') then
      if |cs| == 1 then None else Some(Next(RangeDash, 1, p.(mode := RangeEnd)))
    else Member(ClassLit(cs[0] as nat), 1, p)
  }

  function PyClassEscape(cs: string, p: Reading): (r: Option<Next>)
    requires cs != ""
    ensures r.Some? ==> 2 <= r.value.length <= |cs|
  {
    if |cs| < 2 then None
    else if IsOctal(cs[1]) then
      var n := OctalRun(cs[1..]);
      assert forall i :: 1 <= i < 1 + n ==> cs[i] == cs[1..][i - 1];
      PyOctal(cs, 1 + (if n > 3 then 3 else n), p, true)
    else if IsClassShorthand(cs[1]) then Member(ClassShorthand(cs[1]), 2, p)
    else if cs[1] == 'b' then Member(ClassLit(8), 2, p)
    else match PyLiteralEscape(cs)
      case None => None
      case Some((code, length)) => Member(ClassLit(code), length, p)
  }

  /** All the tokens of `cs`. */
  function PyLex(u: char -> bool, cs: string, p: Reading): Option<seq<Token>> {
    if cs == "" then
      if p.mode == Outside then Some([]) else None
    else match PyNext(u, cs, p)
      case None => None
      case Some(next) =>
        match PyLex(u, cs[next.length..], next.reading)
        case None => None
        case Some(rest) => Some([next.token] + rest)
  }
}
