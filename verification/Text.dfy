/** Text as the Rust code handles it: a string is a sequence of Unicode scalar
    values, and every index is a character index. */
module Text {

  datatype Option<+T> = None | Some(value: T)

  datatype Result<+T, +E> = Ok(value: T) | Err(error: E)

  /** A name for a value: a definition that quantifies over `Opened` values comes into
      a proof only where this is written. */
  predicate Opened<T>(x: T) {
    true
  }

  lemma Regroup<T>(a: seq<T>, b: seq<T>, c: seq<T>)
    ensures a + b + c == a + (b + c)
  {
  }

  /** `char::is_whitespace`: the Unicode White_Space property. */
  predicate IsSpace(c: char) {
    || '\t' <= c <= '\r'
    || c == ' '
    || c == '\U{85}' || c == '\U{A0}' || c == '\U{1680}'
    || '\U{2000}' <= c <= '\U{200A}'
    || c == '\U{2028}' || c == '\U{2029}' || c == '\U{202F}'
    || c == '\U{205F}' || c == '\U{3000}'
  }

  predicate IsDigit(c: char) {
    '0' <= c <= '9'
  }

  predicate IsAsciiLetter(c: char) {
    'a' <= c <= 'z' || 'A' <= c <= 'Z'
  }

  /** `is_alphanumeric` or `_`; `u` classifies the characters beyond ASCII. */
  predicate IsWord(u: char -> bool, c: char) {
    if c < '\U{80}' then IsDigit(c) || IsAsciiLetter(c) || c == '_' else u(c)
  }

  predicate IsHex(c: char) {
    IsDigit(c) || 'a' <= c <= 'f' || 'A' <= c <= 'F'
  }

  function HexDigitValue(c: char): (v: nat)
    requires IsHex(c)
    ensures v < 16
  {
    if IsDigit(c) then c as int - '0' as int
    else if 'a' <= c then c as int - 'a' as int + 10
    else c as int - 'A' as int + 10
  }

  /** A digit in capital or in small letters. */
  function HexChar(v: nat, capital: bool): (c: char)
    requires v < 16
    ensures IsHex(c) && HexDigitValue(c) == v && c < '\U{80}'
  {
    if v < 10 then (v + '0' as int) as char
    else (v - 10 + (if capital then 'A' else 'a') as int) as char
  }

  /** `to_ascii_uppercase`. */
  function UpperChar(c: char): char {
    if 'a' <= c <= 'z' then c - ('a' - 'A') else c
  }

  function Upper(s: string): (r: string)
    ensures |r| == |s|
  {
    seq(|s|, i requires 0 <= i < |s| => UpperChar(s[i]))
  }

  predicate AllSpace(s: string) {
    forall i :: 0 <= i < |s| ==> IsSpace(s[i])
  }

  function TrimStart(s: string): (r: string)
    ensures |r| <= |s|
    ensures r != "" ==> !IsSpace(r[0])
  {
    if s != "" && IsSpace(s[0]) then TrimStart(s[1..]) else s
  }

  function TrimEnd(s: string): (r: string)
    ensures |r| <= |s|
    ensures r <= s
    ensures r != "" ==> !IsSpace(r[|r| - 1])
  {
    if s != "" && IsSpace(s[|s| - 1]) then TrimEnd(s[..|s| - 1]) else s
  }

  function Trim(s: string): string {
    TrimEnd(TrimStart(s))
  }

  /** Text that `trim` leaves alone. */
  predicate Trimmed(s: string) {
    s != "" ==> !IsSpace(s[0]) && !IsSpace(s[|s| - 1])
  }

  lemma TrimIsTrimmed(s: string)
    ensures Trimmed(Trim(s))
  {
    var t := TrimStart(s);
    assert TrimEnd(t) <= t;
  }

  lemma {:induction false} TrimStartDrops(a: string, t: string)
    requires AllSpace(a) && (t != "" ==> !IsSpace(t[0]))
    ensures TrimStart(a + t) == t
  {
    if a == "" {
      assert a + t == t;
    } else {
      assert (a + t)[1..] == a[1..] + t;
      TrimStartDrops(a[1..], t);
    }
  }

  lemma {:induction false} TrimEndDrops(t: string, b: string)
    requires AllSpace(b) && (t != "" ==> !IsSpace(t[|t| - 1]))
    ensures TrimEnd(t + b) == t
  {
    if b == "" {
      assert t + b == t;
    } else {
      assert (t + b)[..|t + b| - 1] == t + b[..|b| - 1];
      assert (t + b)[|t + b| - 1] == b[|b| - 1];
      TrimEndDrops(t, b[..|b| - 1]);
    }
  }

  /** Surrounding spaces go, and nothing else does. */
  lemma TrimDrops(a: string, t: string, b: string)
    requires AllSpace(a) && AllSpace(b) && Trimmed(t)
    ensures Trim(a + t + b) == t
  {
    if t == "" {
      assert a + t + b == (a + b) + "";
      TrimStartDrops(a + b, "");
    } else {
      assert a + t + b == a + (t + b);
      TrimStartDrops(a, t + b);
      TrimEndDrops(t, b);
    }
  }

  /** Every string is its trimmed text between two runs of spaces. */
  lemma {:induction false} TrimSplits(s: string) returns (a: string, b: string)
    ensures AllSpace(a) && AllSpace(b) && s == a + Trim(s) + b
  {
    a := LeadingSpace(s);
    b := TrailingSpace(TrimStart(s));
    assert s == a + (Trim(s) + b);
  }

  lemma {:induction false} LeadingSpace(s: string) returns (a: string)
    ensures AllSpace(a) && s == a + TrimStart(s)
  {
    if s != "" && IsSpace(s[0]) {
      var rest := LeadingSpace(s[1..]);
      a := [s[0]] + rest;
      Regroup([s[0]], rest, TrimStart(s[1..]));
    } else {
      a := "";
    }
  }

  lemma {:induction false} TrailingSpace(s: string) returns (b: string)
    ensures AllSpace(b) && s == TrimEnd(s) + b
  {
    if s != "" && IsSpace(s[|s| - 1]) {
      var rest := TrailingSpace(s[..|s| - 1]);
      b := rest + [s[|s| - 1]];
      Regroup(TrimEnd(s), rest, [s[|s| - 1]]);
    } else {
      b := "";
    }
  }

  function StripPrefix(s: string, prefix: string): Option<string> {
    if prefix <= s then Some(s[|prefix|..]) else None
  }

  predicate EndsWith(s: string, suffix: string) {
    |suffix| <= |s| && s[|s| - |suffix|..] == suffix
  }

  function StripSuffix(s: string, suffix: string): Option<string> {
    if EndsWith(s, suffix) then Some(s[..|s| - |suffix|]) else None
  }

  predicate OccursAt(s: string, part: string, i: nat) {
    i + |part| <= |s| && s[i..i + |part|] == part
  }

  /** Where `part` first occurs in `s`, searching from `i`. */
  function Find(s: string, part: string, i: nat): (r: Option<nat>)
    requires i <= |s|
    ensures r.Some? ==> i <= r.value && OccursAt(s, part, r.value)
    ensures forall k :: i <= k < (if r.Some? then r.value else |s| + 1) ==> !OccursAt(s, part, k)
    decreases |s| - i
  {
    if OccursAt(s, part, i) then Some(i)
    else if i == |s| then None
    else Find(s, part, i + 1)
  }

  /** The longest run of characters satisfying `p` at the start of `cs`. */
  function Run(p: char -> bool, cs: string): (n: nat)
    ensures n <= |cs|
    ensures forall i :: 0 <= i < n ==> p(cs[i])
    ensures n < |cs| ==> !p(cs[n])
  {
    if cs != "" && p(cs[0]) then
      var n := Run(p, cs[1..]);
      assert forall i :: 1 <= i < 1 + n ==> cs[i] == cs[1..][i - 1];
      1 + n
    else 0
  }

  function WordRun(u: char -> bool, cs: string): (n: nat)
    ensures n <= |cs|
    ensures forall i :: 0 <= i < n ==> IsWord(u, cs[i])
    ensures n < |cs| ==> !IsWord(u, cs[n])
  {
    Run(c => IsWord(u, c), cs)
  }

  /** `usize::to_string`, extended to the negative numbers. */
  function Decimal(n: int): (s: string)
    ensures s != ""
    decreases n < 0, if n < 0 then -n else n
  {
    if n < 0 then "-" + Decimal(-n)
    else if n < 10 then [DigitChar(n)]
    else Decimal(n / 10) + [DigitChar(n % 10)]
  }

  function DigitChar(d: nat): (c: char)
    requires d < 10
    ensures IsDigit(c) && DigitValue(c) == d
  {
    (d + '0' as int) as char
  }

  function DigitValue(c: char): nat
    requires IsDigit(c)
  {
    c as int - '0' as int
  }

  predicate AllDigits(s: string) {
    forall i :: 0 <= i < |s| ==> IsDigit(s[i])
  }

  function DigitsValue(s: string): nat
    requires AllDigits(s)
  {
    if s == "" then 0 else 10 * DigitsValue(s[..|s| - 1]) + DigitValue(s[|s| - 1])
  }

  lemma {:induction false} DecimalReads(n: nat)
    ensures AllDigits(Decimal(n)) && DigitsValue(Decimal(n)) == n
    decreases n
  {
    var s := Decimal(n);
    if n < 10 {
      assert s[..|s| - 1] == "";
    } else {
      DecimalReads(n / 10);
      assert s[..|s| - 1] == Decimal(n / 10);
    }
  }

  function Power10(n: nat): (p: nat)
    ensures p > 0
  {
    if n == 0 then 1 else 10 * Power10(n - 1)
  }

  const USIZE_LIMIT: nat := 0x1_0000_0000_0000_0000

  /** `str::parse::<usize>`: an optional `+`, then at least one digit. */
  function ParseUsize(s: string): Option<nat> {
    var digits := if s != "" && s[0] == '+' then s[1..] else s;
    if digits != "" && AllDigits(digits) && DigitsValue(digits) < USIZE_LIMIT
    then Some(DigitsValue(digits))
    else None
  }

  lemma ParseDecimal(n: nat)
    requires n < USIZE_LIMIT
    ensures ParseUsize(Decimal(n)) == Some(n)
  {
    DecimalReads(n);
    assert IsDigit(Decimal(n)[0]);
  }
}
