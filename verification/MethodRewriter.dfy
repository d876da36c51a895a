/** The rewriter of Python method calls: `value.method(args)` in an expression
    becomes a call of a helper function, in one scan over the text. */
module MethodRewriter {
  import opened Text

  /** What the scan asks of its surroundings: which characters beyond ASCII are
      letters, and which method names are rewritten. */
  datatype Lexicon = Lexicon(letters: char -> bool, methods: set<string>)

  /** The methods QD templates reach for; nothing proved here depends on the list. */
  const PYTHON_METHODS: set<string> := {
    "capitalize", "casefold", "center", "count", "endswith", "expandtabs", "find", "format", "index",
    "isalnum", "isalpha", "isdecimal", "isdigit", "islower", "isnumeric", "isspace", "istitle", "isupper",
    "join", "ljust", "lower", "lstrip", "partition", "removeprefix", "removesuffix", "replace", "rfind",
    "rindex", "rjust", "rpartition", "rsplit", "rstrip", "split", "splitlines", "startswith", "strip",
    "swapcase", "title", "upper", "zfill",
    "copy", "get", "items", "keys", "setdefault", "values"
  }

  function QdLexicon(letters: char -> bool): Lexicon {
    Lexicon(letters, PYTHON_METHODS)
  }

  /** The primary that ended last: where it starts in the output and where it
      stops in the input. */
  datatype Primary = Primary(start: nat, stop: nat)

  datatype Buffer = Buffer(out: string, primary: Option<Primary>, changed: bool)

  type State = s: Buffer | s.primary.Some? ==> s.primary.value.start <= |s.out|
    witness Buffer("", None, false)

  const BEGIN: State := Buffer("", None, false)

  predicate IsQuote(c: char) {
    c == '\'' || c == '"'
  }

  predicate IsOpen(c: char) {
    c == '(' || c == '[' || c == '{'
  }

  predicate IsClose(c: char) {
    c == ')' || c == ']' || c == '}'
  }

  function Closing(open: char): char {
    if open == '(' then ')' else if open == '[' then ']' else '}'
  }

  /** `string_end`: behind the string whose opening quote is at `start`. */
  function StringEnd(text: string, start: nat): (r: Option<nat>)
    requires start < |text|
    ensures r.Some? ==> start + 1 < r.value <= |text|
  {
    StringEndFrom(text, start + 1, text[start], false)
  }

  function StringEndFrom(text: string, i: nat, quote: char, escaped: bool): (r: Option<nat>)
    requires i <= |text|
    ensures r.Some? ==> i < r.value <= |text|
    decreases |text| - i
  {
    if i == |text| then None
    else if escaped then StringEndFrom(text, i + 1, quote, false)
    else if text[i] == '\\' then StringEndFrom(text, i + 1, quote, true)
    else if text[i] == quote then Some(i + 1)
    else StringEndFrom(text, i + 1, quote, false)
  }

  /** `group_end`: behind the bracket that closes the one at `start`. Only brackets
      of the same kind count, and strings are skipped. */
  function GroupEnd(text: string, start: nat): (r: Option<nat>)
    requires start < |text| && IsOpen(text[start])
    ensures r.Some? ==> start + 1 < r.value <= |text|
  {
    GroupEndFrom(text, start + 1, text[start], 1)
  }

  function GroupEndFrom(text: string, i: nat, open: char, depth: nat): (r: Option<nat>)
    requires i <= |text|
    ensures r.Some? ==> i < r.value <= |text|
    decreases |text| - i
  {
    if i == |text| then None
    else if IsQuote(text[i]) then
      match StringEnd(text, i)
      case None => None
      case Some(end) => GroupEndFrom(text, end, open, depth)
    else if text[i] == open then GroupEndFrom(text, i + 1, open, depth + 1)
    else if text[i] == Closing(open) then
      if depth <= 1 then Some(i + 1) else GroupEndFrom(text, i + 1, open, depth - 1)
    else GroupEndFrom(text, i + 1, open, depth)
  }

  function IdentifierEnd(l: Lexicon, text: string, start: nat): (end: nat)
    requires start <= |text|
    ensures start <= end <= |text|
  {
    start + WordRun(l.letters, text[start..])
  }

  function SkipSpaces(text: string, start: nat): (end: nat)
    requires start <= |text|
    ensures start <= end <= |text|
  {
    start + Run(c => IsSpace(c), text[start..])
  }

  /** A rewritten interior, or the interior itself. */
  function Rewritten(l: Lexicon, text: string): string
    decreases |text|, |text| + 2, 0
  {
    match Rewrite(l, text)
    case None => text
    case Some(rewritten) => rewritten
  }

  /** `rewrite_methods`: none means that nothing was rewritten. */
  function Rewrite(l: Lexicon, text: string): Option<string>
    decreases |text|, |text| + 1, 0
  {
    Scan(l, text, 0, BEGIN)
  }

  function Finish(s: State): Option<string> {
    if s.changed then Some(s.out) else None
  }

  predicate EndsAt(s: State, index: nat) {
    s.primary.Some? && s.primary.value.stop == index
  }

  /** One pass of the loop either ends the scan or moves the index on. */
  datatype Next = Stop(result: Option<string>) | Go(index: nat, state: State)

  /** The loop of `rewrite_methods` from `index` on. */
  function Scan(l: Lexicon, text: string, index: nat, s: State): Option<string>
    requires index <= |text|
    decreases |text|, |text| - index, 1
  {
    if index == |text| then Finish(s)
    else match Step(l, text, index, s)
      case Stop(result) => result
      case Go(next, state) => Scan(l, text, next, state)
  }

  function Step(l: Lexicon, text: string, index: nat, s: State): (r: Next)
    requires index < |text|
    ensures r.Go? ==> index < r.index <= |text|
    decreases |text|, |text| - index, 0
  {
    var c := text[index];
    if IsQuote(c) then StepString(text, index, s)
    else if IsOpen(c) then StepGroup(l, text, index, s)
    else if c == '.' && EndsAt(s, index) then StepDot(l, text, index, s)
    else if IsWord(l.letters, c) then StepWord(l, text, index, s)
    else Go(index + 1, s.(out := s.out + [c]))
  }

  function GiveUp(text: string, index: nat, s: State): Next
    requires index < |text|
  {
    Stop(Finish(s.(out := s.out + text[index..])))
  }

  function StepString(text: string, index: nat, s: State): (r: Next)
    requires index < |text|
    ensures r.Go? ==> index < r.index <= |text|
  {
    match StringEnd(text, index)
    case None => GiveUp(text, index, s)
    case Some(end) => Go(end, Fresh(s, text[index..end], end))
  }

  function StepGroup(l: Lexicon, text: string, index: nat, s: State): (r: Next)
    requires index < |text| && IsOpen(text[index])
    ensures r.Go? ==> index < r.index <= |text|
    decreases |text|, 0
  {
    match GroupEnd(text, index)
    case None => GiveUp(text, index, s)
    case Some(end) =>
      var interior := text[index + 1..end - 1];
      var group := [text[index]] + Rewritten(l, interior) + text[end - 1..end];
      Go(end, Extend(s.(changed := s.changed || Rewrite(l, interior).Some?), index, group, end))
  }

  function StepDot(l: Lexicon, text: string, index: nat, s: State): (r: Next)
    requires index < |text| && EndsAt(s, index)
    ensures r.Go? ==> index < r.index <= |text|
    decreases |text|, 0
  {
    match CallAt(l, text, index)
    case Some(call) =>
      var args := Rewritten(l, text[call.open + 1..call.close - 1]);
      Go(call.close, ReplaceCall(s, text[index + 1..call.nameEnd], args, call.close))
    case None =>
      var end := IdentifierEnd(l, text, index + 1);
      if end > index + 1 then Go(end, Extend(s, index, text[index..end], end))
      else Go(index + 1, s.(out := s.out + "."))
  }

  function StepWord(l: Lexicon, text: string, index: nat, s: State): (r: Next)
    requires index < |text| && IsWord(l.letters, text[index])
    ensures r.Go? ==> index < r.index <= |text|
  {
    var end := IdentifierEnd(l, text, index);
    assert text[index..][0] == text[index];
    Go(end, Fresh(s, text[index..end], end))
  }

  /** A new primary. */
  function Fresh(s: State, piece: string, end: nat): State {
    Buffer(s.out + piece, Some(Primary(|s.out|, end)), s.changed)
  }

  /** `piece`, which continues the primary that ends here, if one does. */
  function Extend(s: State, index: nat, piece: string, end: nat): State {
    if EndsAt(s, index) then Buffer(s.out + piece, Some(Primary(s.primary.value.start, end)), s.changed)
    else Fresh(s, piece, end)
  }

  datatype CallSite = CallSite(nameEnd: nat, open: nat, close: nat)

  /** A rewritable method call behind the dot at `index`. */
  function CallAt(l: Lexicon, text: string, index: nat): (r: Option<CallSite>)
    requires index < |text|
    ensures r.Some? ==> index + 1 < r.value.nameEnd <= r.value.open && r.value.open + 1 < r.value.close <= |text|
  {
    var nameEnd := IdentifierEnd(l, text, index + 1);
    var open := SkipSpaces(text, nameEnd);
    if nameEnd > index + 1 && text[index + 1..nameEnd] in l.methods && open < |text| && text[open] == '(' then
      match GroupEnd(text, open)
      case None => None
      case Some(close) => Some(CallSite(nameEnd, open, close))
    else None
  }

  function CallText(receiver: string, name: string, args: string): string {
    if Trim(args) == "" then "__qdm_call(" + receiver + ", \"" + name + "\")"
    else "__qdm_call(" + receiver + ", \"" + name + "\", " + args + ")"
  }

  /** The call takes the place of its receiver, which is already written. */
  function ReplaceCall(s: State, name: string, args: string, close: nat): State
    requires s.primary.Some?
  {
    var start := s.primary.value.start;
    Buffer(s.out[..start] + CallText(s.out[start..], name, args), Some(Primary(start, close)), true)
  }

  /** `rewrite_methods` itself, with an index, a growing output and the two ends of
      the current primary. */
  method RewriteMethods(l: Lexicon, text: string) returns (r: Option<string>)
    ensures r == Rewrite(l, text)
    decreases |text|, 1
  {
    var s: State, index := BEGIN, 0;
    while index < |text|
      invariant index <= |text|
      invariant Rewrite(l, text) == Scan(l, text, index, s)
    {
      var c := text[index];
      var next;
      if IsQuote(c) {
        next := StepString(text, index, s);
      } else if IsOpen(c) {
        next := RewriteGroup(l, text, index, s);
      } else if c == '.' && EndsAt(s, index) {
        next := RewriteDot(l, text, index, s);
      } else if IsWord(l.letters, c) {
        next := StepWord(l, text, index, s);
      } else {
        next := Go(index + 1, s.(out := s.out + [c]));
      }
      if next.Stop? {
        return next.result;
      }
      index, s := next.index, next.state;
    }
    return Finish(s);
  }

  /** A group, whose interior is rewritten first. */
  method RewriteGroup(l: Lexicon, text: string, index: nat, s: State) returns (next: Next)
    requires index < |text| && IsOpen(text[index])
    ensures next == StepGroup(l, text, index, s)
    decreases |text|, 0
  {
    var end := GroupEnd(text, index);
    if end.None? {
      return GiveUp(text, index, s);
    }
    var interior := text[index + 1..end.value - 1];
    var inner := RewriteMethods(l, interior);
    var changed := s.changed || inner.Some?;
    var group := [text[index]] + (if inner.Some? then inner.value else interior) + text[end.value - 1..end.value];
    return Go(end.value, Extend(s.(changed := changed), index, group, end.value));
  }

  lemma DotCalls(l: Lexicon, text: string, index: nat, s: State, site: CallSite)
    requires index < |text| && EndsAt(s, index) && CallAt(l, text, index) == Some(site)
    ensures var args := text[site.open + 1..site.close - 1];
            StepDot(l, text, index, s)
            == Go(site.close, ReplaceCall(s, text[index + 1..site.nameEnd],
                                          if Rewrite(l, args).Some? then Rewrite(l, args).value else args, site.close))
  {
    hide CallAt, Rewrite, CallText;
  }

  /** A dot behind a primary: a rewritable call, an attribute, or neither. */
  method RewriteDot(l: Lexicon, text: string, index: nat, s: State) returns (next: Next)
    requires index < |text| && EndsAt(s, index)
    ensures next == StepDot(l, text, index, s)
    decreases |text|, 0
  {
    var call := CallAt(l, text, index);
    if call.Some? {
      var site := call.value;
      var args := text[site.open + 1..site.close - 1];
      var inner := RewriteMethods(l, args);
      DotCalls(l, text, index, s, site);
      if inner.Some? {
        args := inner.value;
      }
      return Go(site.close, ReplaceCall(s, text[index + 1..site.nameEnd], args, site.close));
    }
    var end := IdentifierEnd(l, text, index + 1);
    if end > index + 1 {
      return Go(end, Extend(s, index, text[index..end], end));
    }
    return Go(index + 1, s.(out := s.out + "."));
  }
}
