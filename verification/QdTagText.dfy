/** Writing tags as text: when a compiled program, written out again as HAR
    entries, compiles to itself. */
module QdTagText {
  import opened Text
  import opened QdProgram
  import opened QdGrammar

  function CloserText(closer: Closer): string {
    match closer
    case EndIf => "endif"
    case EndFor => "endfor"
    case EndWhile => "endwhile"
    case EndOther(statement) => statement
  }

  predicate Writable(token: Token) {
    !token.BadTag?
  }

  function TagText(token: Token): string
    requires Writable(token) && !token.Plain?
  {
    match token
    case IfTag(condition) => "if " + condition
    case ForTag(target, source) => "for " + ForText(target, source)
    case WhileTag(condition) => "while " + condition
    case ElseTag => "else"
    case EndTag(closer) => CloserText(closer)
  }

  function ForText(target: string, source: string): string {
    target + " in " + source
  }

  function Write(token: Token): Entry
    requires Writable(token)
  {
    if token.Plain? then token.entry
    else Entry(true, "GET", "{% " + TagText(token) + " %}", None, [], [])
  }

  /** Nonempty text without surrounding space. */
  predicate Word(s: string) {
    s != "" && Trimmed(s)
  }

  /** Tokens as they come out of `ReadToken`. */
  predicate Canonical(token: Token) {
    match token
    case Plain(entry) => ReadToken(entry) == token
    case IfTag(condition) => Word(condition)
    case ForTag(target, source) => Word(target) && Word(source) && Find(target, " in ", 0) == None
    case WhileTag(condition) => Word(condition)
    case ElseTag => true
    case EndTag(closer) =>
      closer.EndOther? ==>
        Trimmed(closer.statement) && "end" <= closer.statement && closer.statement !in {"endif", "endfor", "endwhile"}
    case BadTag(_) => false
  }

  /** White space around a tag and inside its braces is ignored. */
  lemma PaddedTag(a: string, b: string, statement: string, c: string, d: string)
    requires AllSpace(a) && AllSpace(b) && AllSpace(c) && AllSpace(d) && Trimmed(statement)
    ensures ControlStatement(a + ("{%" + (b + statement + c) + "%}") + d) == Some(statement)
  {
    hide Trim, StripPrefix, StripSuffix;
    var inner := b + statement + c;
    BracesStrip(inner);
    TrimDrops(a, "{%" + inner + "%}", d);
    TrimDrops(b, statement, c);
  }

  lemma BracesStrip(inner: string)
    ensures var url := "{%" + inner + "%}";
            Trimmed(url) && StripPrefix(url, "{%") == Some(inner + "%}") && StripSuffix(inner + "%}", "%}") == Some(inner)
  {
    var url := "{%" + inner + "%}";
    assert url[0] == '{' && url[1] == '%' && url[|url| - 1] == '}';
    assert url[2..] == inner + "%}";
    assert (inner + "%}")[..|inner|] == inner && (inner + "%}")[|inner|..] == "%}";
  }

  lemma ControlOfTag(statement: string)
    requires Trimmed(statement)
    ensures ControlStatement("{% " + statement + " %}") == Some(statement)
  {
    hide ControlStatement;
    PaddedTag("", " ", statement, " ", "");
    assert "{% " + statement + " %}" == "" + ("{%" + (" " + statement + " ") + "%}") + "";
  }

  /** `ReadFor` undoes `ForText` unless the target ends in ` in`. */
  lemma ReadForText(target: string, source: string)
    requires Canonical(ForTag(target, source))
    ensures ReadFor(ForText(target, source)) == ForTag(target, source) <==> !EndsWith(target, " in")
  {
    hide Find, Trim, TrimEnd, TrimStart;
    var text := ForText(target, source);
    var at := |target|;
    assert text[at..at + 4] == " in ";
    if EndsWith(target, " in") {
      assert text[at - 3..at + 1] == target[at - 3..] + " ";
      assert OccursAt(text, " in ", at - 3);
      var first := Find(text, " in ", 0);
      assert first.Some? && first.value <= at - 3;
      TrimShortens(text[..first.value]);
    } else {
      forall k: nat | k < at
        ensures !OccursAt(text, " in ", k)
      {
        NoEarlierIn(target, source, k);
      }
      assert OccursAt(text, " in ", at);
      assert Find(text, " in ", 0) == Some(at);
      assert text[..at] == target && text[at + 4..] == source;
      TrimWord(target);
      TrimWord(source);
    }
  }

  lemma TrimShortens(s: string)
    ensures |Trim(s)| <= |s|
  {
  }

  lemma TrimWord(s: string)
    requires Trimmed(s)
    ensures Trim(s) == s
  {
    TrimDrops("", s, "");
    assert "" + s + "" == s;
  }

  lemma NoEarlierIn(target: string, source: string, k: nat)
    requires Canonical(ForTag(target, source)) && !EndsWith(target, " in") && k < |target|
    ensures !OccursAt(ForText(target, source), " in ", k)
  {
    if OccursAt(ForText(target, source), " in ", k) {
      EarlierIn(target, source, k);
    }
  }

  /** An ` in ` that begins in the target lies in it, or the target ends in one. */
  lemma EarlierIn(target: string, source: string, k: nat)
    requires k < |target| && OccursAt(ForText(target, source), " in ", k)
    ensures OccursAt(target, " in ", k) || EndsWith(target, " in")
  {
    var text, at := ForText(target, source), |target|;
    var part := text[k..k + 4];
    assert part[1] == 'i' && part[2] == 'n' && text[at] == ' ';
    assert text[k + 1] == part[1] && text[k + 2] == part[2];
    if k + 4 <= at {
      assert target[k..k + 4] == part;
    } else {
      assert k + 3 == at;
      assert target[k..] == part[..3] == " in";
    }
  }

  lemma ReadIfStatement(condition: string, entry: Entry)
    requires Word(condition)
    ensures ReadStatement("if " + condition, entry) == IfTag(condition)
  {
    var s := "if " + condition;
    assert s[0] == 'i' && s[..3] == "if " && s[3..] == condition;
    TrimWord(condition);
  }

  lemma ReadWhileStatement(condition: string, entry: Entry)
    requires Word(condition)
    ensures ReadStatement("while " + condition, entry) == WhileTag(condition)
  {
    var s := "while " + condition;
    assert s[0] == 'w' && s[..6] == "while " && s[6..] == condition;
    TrimWord(condition);
  }

  lemma ReadForStatement(expression: string, entry: Entry)
    ensures ReadStatement("for " + expression, entry) == ReadFor(expression)
  {
    var s := "for " + expression;
    assert s[0] == 'f' && s[..4] == "for " && s[4..] == expression;
  }

  lemma TrimmedTag(prefix: string, rest: string)
    requires prefix != "" && !IsSpace(prefix[0]) && Word(rest)
    ensures Trimmed(prefix + rest)
  {
  }

  lemma ForIsRead(target: string, source: string, entry: Entry)
    requires Word(target) && Word(source) && entry.url == "{% for " + ForText(target, source) + " %}"
    ensures ReadToken(entry) == ReadFor(ForText(target, source))
  {
    hide ReadFor, ControlStatement;
    TrimmedTag("for ", ForText(target, source));
    ControlOfTag("for " + ForText(target, source));
    ReadForStatement(ForText(target, source), entry);
    assert "{% " + ("for " + ForText(target, source)) + " %}" == "{% for " + ForText(target, source) + " %}";
  }

  lemma CloserIsRead(closer: Closer, entry: Entry)
    requires Canonical(EndTag(closer)) && entry.url == "{% " + CloserText(closer) + " %}"
    ensures ReadToken(entry) == EndTag(closer)
  {
    hide ControlStatement;
    var s := CloserText(closer);
    ControlOfTag(s);
    assert s[0] == 'e' && s[1] == 'n';
    assert s != "else" && ReadStatement(s, entry) == EndTag(ReadCloser(s));
  }

  /** Reading a written token gives it back, for every token ever read, except
      a `for` whose target ends in ` in`. */
  lemma ReadWritten(token: Token)
    requires Canonical(token)
    ensures ReadToken(Write(token)) == token <==> !(token.ForTag? && EndsWith(token.target, " in"))
  {
    hide ControlStatement, ReadFor, Find;
    var entry := Write(token);
    match token
    case Plain(_) =>
    case IfTag(condition) =>
      TrimmedTag("if ", condition);
      ControlOfTag("if " + condition);
      ReadIfStatement(condition, entry);
    case ForTag(target, source) =>
      ForIsRead(target, source, entry);
      ReadForText(target, source);
    case WhileTag(condition) =>
      TrimmedTag("while ", condition);
      ControlOfTag("while " + condition);
      ReadWhileStatement(condition, entry);
    case ElseTag =>
      ControlOfTag("else");
    case EndTag(closer) =>
      CloserIsRead(closer, entry);
  }

  lemma ReadIsCanonical(entry: Entry)
    requires Writable(ReadToken(entry))
    ensures Canonical(ReadToken(entry))
  {
    match ControlStatement(entry.url)
    case None =>
    case Some(s) => StatementIsCanonical(s, entry);
  }

  lemma StatementIsCanonical(s: string, entry: Entry)
    requires ControlStatement(entry.url) == Some(s) && Writable(ReadToken(entry))
    ensures Canonical(ReadStatement(s, entry))
  {
    if s == "else" || "end" <= s {
    } else if "if " <= s {
      TrimIsTrimmed(s[3..]);
    } else if "for " <= s {
      ReadForIsCanonical(s[4..]);
    } else if "while " <= s {
      TrimIsTrimmed(s[6..]);
    }
  }

  lemma ReadForIsCanonical(expression: string)
    requires !ReadFor(expression).BadTag?
    ensures Canonical(ReadFor(expression))
  {
    var at := Find(expression, " in ", 0).value;
    TrimIsTrimmed(expression[..at]);
    TrimIsTrimmed(expression[at + 4..]);
    forall k: nat | k <= at
      ensures !OccursAt(expression[..at], " in ", k)
    {
      assert !OccursAt(expression, " in ", k) || k == at;
      if k + 4 <= at {
        assert expression[..at][k..k + 4] == expression[k..k + 4];
      }
    }
    TrimHasNo(expression[..at], " in ");
  }

  /** Trimming adds no occurrence of anything. */
  lemma TrimHasNo(s: string, part: string)
    requires forall k: nat :: k <= |s| ==> !OccursAt(s, part, k)
    ensures Find(Trim(s), part, 0) == None
  {
    var a, b := TrimSplits(s);
    forall k: nat | k <= |Trim(s)|
      ensures !OccursAt(Trim(s), part, k)
    {
      if OccursAt(Trim(s), part, k) {
        assert s[|a| + k..|a| + k + |part|] == Trim(s)[k..k + |part|];
        assert OccursAt(s, part, |a| + k);
      }
    }
  }

  function WriteAll(code: seq<Token>): (entries: seq<Entry>)
    requires forall i :: 0 <= i < |code| ==> Writable(code[i])
    ensures |entries| == |code|
    ensures forall i :: 0 <= i < |code| ==> entries[i] == Write(code[i])
  {
    seq(|code|, i requires 0 <= i < |code| => Write(code[i]))
  }

  predicate NoAmbiguousTarget(code: seq<Token>) {
    forall i :: 0 <= i < |code| ==> !(code[i].ForTag? && EndsWith(code[i].target, " in"))
  }

  lemma {:induction false} KeepsCanonical(code: seq<Token>, i: nat)
    requires i <= |code|
    requires forall k :: i <= k < |code| ==> Canonical(code[k])
    ensures forall k :: 0 <= k < |WithoutEmptyElse(code, i, |code|)| ==> Canonical(WithoutEmptyElse(code, i, |code|)[k])
    decreases |code| - i
  {
    hide Canonical;
    if i < |code| {
      KeepsCanonical(code, i + 1);
    }
  }

  /** Tokens that compile are all readable tags. */
  lemma {:induction false} BalancedIsWritable(code: seq<Token>, i: nat, stack: seq<Open>)
    requires i <= |code| && Balanced(code, i, stack)
    ensures forall k :: i <= k < |code| ==> Writable(code[k])
    decreases |code| - i
  {
    if i < |code| {
      match code[i]
      case Plain(_) => BalancedIsWritable(code, i + 1, stack);
      case IfTag(_) => BalancedIsWritable(code, i + 1, stack + [InThen]);
      case ForTag(_, _) => BalancedIsWritable(code, i + 1, stack + [InFor]);
      case WhileTag(_) => BalancedIsWritable(code, i + 1, stack + [InWhile]);
      case ElseTag => BalancedIsWritable(code, i + 1, Pop(stack) + [InElse]);
      case EndTag(_) => BalancedIsWritable(code, i + 1, Pop(stack));
    }
  }

  /** What is known of a compiled program's tokens, as written. */
  lemma WrittenTokens(entries: seq<Entry>, blocks: seq<Block>)
    requires Compile(Lex(entries)) == Ok(blocks)
    ensures forall k :: 0 <= k < |Flatten(blocks)| ==> Canonical(Flatten(blocks)[k])
  {
    var code := Lex(entries);
    CompilesIffBalanced(code);
    BalancedIsWritable(code, 0, []);
    forall k | 0 <= k < |code|
      ensures Canonical(code[k])
    {
      ReadIsCanonical(entries[k]);
    }
    FlattenCompile(code);
    KeepsCanonical(code, 0);
  }

  /** A compiled program written out and compiled again is the same program,
      exactly when no `for` target ends in ` in`. */
  lemma RecompileIffUnambiguous(entries: seq<Entry>, blocks: seq<Block>)
    requires Compile(Lex(entries)) == Ok(blocks)
    ensures var written := Flatten(blocks);
            && (forall i :: 0 <= i < |written| ==> Writable(written[i]))
            && (Compile(Lex(WriteAll(written))) == Ok(blocks) <==> NoAmbiguousTarget(written))
  {
    var written := Flatten(blocks);
    WrittenTokens(entries, blocks);
    var again := Lex(WriteAll(written));
    forall k | 0 <= k < |written|
      ensures again[k] == written[k] <==> !(written[k].ForTag? && EndsWith(written[k].target, " in"))
      ensures again[k] in {ElseTag, EndTag(EndIf)} ==> again[k] == written[k]
    {
      ReadWritten(written[k]);
      WrittenElse(written[k]);
    }
    CompileFlatten(blocks);
    if NoAmbiguousTarget(written) {
      assert again == written;
    }
    if Compile(again) == Ok(blocks) {
      NoEmptyElseInFlat(blocks);
      SameElse(again, written);
      FlattenCompile(again);
      NothingToDrop(again, 0);
      assert again[0..] == again;
      assert again == written;
    }
  }

  lemma SameElse(again: seq<Token>, written: seq<Token>)
    requires |again| == |written|
    requires forall k :: 0 <= k < |again| && again[k] in {ElseTag, EndTag(EndIf)} ==> again[k] == written[k]
    requires forall k :: 0 <= k < |written| ==> !EmptyElse(written, k)
    ensures forall k :: 0 <= k < |again| ==> !EmptyElse(again, k)
  {
    forall k | 0 <= k < |again|
      ensures !EmptyElse(again, k)
    {
      assert !EmptyElse(written, k);
    }
  }

  /** A written tag reads as `else` or `endif` only if it is one. */
  lemma WrittenElse(token: Token)
    requires Canonical(token)
    ensures ReadToken(Write(token)) in {ElseTag, EndTag(EndIf)} ==> ReadToken(Write(token)) == token
  {
    hide ControlStatement, Find, ForText;
    if token.ForTag? {
      ForIsRead(token.target, token.source, Write(token));
    } else {
      ReadWritten(token);
    }
  }

  lemma {:induction false} NothingToDrop(code: seq<Token>, i: nat)
    requires i <= |code|
    requires forall k :: i <= k < |code| ==> !EmptyElse(code, k)
    ensures WithoutEmptyElse(code, i, |code|) == code[i..]
    decreases |code| - i
  {
    if i < |code| {
      NothingToDrop(code, i + 1);
    }
  }

  lemma {:induction false} NoEmptyElseInFlat(blocks: seq<Block>)
    ensures forall k :: 0 <= k < |Flatten(blocks)| ==> !EmptyElse(Flatten(blocks), k)
  {
    var code := Flatten(blocks);
    CompileFlatten(blocks);
    FlattenCompile(code);
    if k :| 0 <= k < |code| && EmptyElse(code, k) {
      WithoutEmptyElseSplit(code, 0, k, |code|);
      WithoutEmptyElseShorter(code, 0, k);
      WithoutEmptyElseShorter(code, k + 1, |code|);
    }
  }

  // ----- a target that ends in ` in` -----

  /** The first ` in ` decides, and the tab before it is trimmed off the target. */
  lemma ReadsTabbedFor()
    ensures ReadFor("x in\t in xs") == ForTag("x in", "xs")
  {
    var text, part := "x in\t in xs", " in ";
    assert text[0] == 'x' && text[1] == ' ' && text[2] == 'i' && text[3] == 'n' && text[4] == '\t';
    assert text[5] == ' ' && text[6] == 'i' && text[7] == 'n' && text[8] == ' ';
    forall k: nat | k < 5
      ensures !OccursAt(text, part, k)
    {
      assert text[k..k + 4][3] == text[k + 3] && text[k..k + 4][0] == text[k];
    }
    assert text[5..9] == part && OccursAt(text, part, 5);
    assert Find(text, " in ", 0) == Some(5);
    assert text[..5] == "" + "x in" + "\t" && text[9..] == "xs";
    TrimDrops("", "x in", "\t");
    TrimWord("xs");
  }

  const TABBED: seq<Token> := [ForTag("x in", "xs"), EndTag(EndFor)]

  const TABBED_LOOP: Block := For("x in", "xs", [])

  lemma TabbedTags(entries: seq<Entry>)
    requires |entries| == 2 && entries[0].url == "{% " + "for x in\t in xs" + " %}" && entries[1].url == "{% " + "endfor" + " %}"
    ensures Lex(entries) == TABBED
  {
    hide ReadToken;
    TabbedFor(entries[0]);
    CloserIsRead(EndFor, entries[1]);
  }

  lemma TabbedFor(entry: Entry)
    requires entry.url == "{% " + "for x in\t in xs" + " %}"
    ensures ReadToken(entry) == ForTag("x in", "xs")
  {
    hide ReadFor, ReadStatement, ControlStatement;
    assert "for " + "x in\t in xs" == "for x in\t in xs";
    ControlOfTag("for x in\t in xs");
    ReadForStatement("x in\t in xs", entry);
    ReadsTabbedFor();
  }

  lemma TabbedTree()
    ensures Flatten([TABBED_LOOP]) == TABBED
  {
    var none: seq<Block> := [];
    assert Flatten(none) == [] && [TABBED_LOOP][1..] == none;
  }

  /** `{% for x in<TAB> in xs %}` compiles to a loop over `xs` with the target `x in`;
      written out and compiled again it is another loop. */
  lemma TabbedForIsMisread(entries: seq<Entry>)
    requires |entries| == 2 && entries[0].url == "{% " + "for x in\t in xs" + " %}" && entries[1].url == "{% " + "endfor" + " %}"
    ensures Lex(entries) == TABBED && Compile(TABBED) == Ok([TABBED_LOOP])
    ensures Writable(TABBED[0]) && Writable(TABBED[1]) && Compile(Lex(WriteAll(TABBED))) != Ok([TABBED_LOOP])
  {
    hide Compile, Flatten, Lex, WriteAll;
    TabbedTags(entries);
    TabbedTree();
    CompileFlatten([TABBED_LOOP]);
    assert "x in"[1..] == " in" && EndsWith(TABBED[0].target, " in");
    RecompileIffUnambiguous(entries, [TABBED_LOOP]);
  }
}
