/** The compiler of QD programs: a flat list of HAR entries, some of which are
    control tags, is folded into a tree of blocks. */
module QdProgram {
  import opened Text

  /** One HAR entry. `extracts` holds the names its extraction rules write. */
  datatype Entry = Entry(
    checked: bool,
    method_: string,
    url: string,
    body: Option<string>,
    headers: seq<Header>,
    extracts: seq<string>)

  datatype Header = Header(name: string, value: string)

  datatype Block =
    | Request(entry: Entry)
    | For(target: string, source: string, forBody: seq<Block>)
    | While(condition: string, whileBody: seq<Block>)
    | If(condition: string, thenBlocks: seq<Block>, elseBlocks: seq<Block>)

  datatype ParseError =
    | UnexpectedTag(position: nat, token: Token)
    | EmptyIfCondition
    | EmptyWhileCondition
    | NotForIn
    | EmptyTarget
    | EmptySource
    | Expected(expected: Closer, found: Option<Token>)

  /** What a statement beginning `end` says it closes. */
  datatype Closer = EndIf | EndFor | EndWhile | EndOther(statement: string)

  /** An entry as the compiler reads it. */
  datatype Token =
    | Plain(entry: Entry)
    | IfTag(condition: string)
    | ForTag(target: string, source: string)
    | WhileTag(condition: string)
    | ElseTag
    | EndTag(closer: Closer)
    | BadTag(error: ParseError)

  /** The text between `{%` and `%}`, when the URL is a tag. */
  function ControlStatement(url: string): (r: Option<string>)
    ensures r.Some? ==> Trimmed(r.value)
  {
    var rest := StripPrefix(Trim(url), "{%");
    if rest.None? then None else
    var inner := StripSuffix(rest.value, "%}");
    if inner.None? then None else
    TrimIsTrimmed(inner.value);
    Some(Trim(inner.value))
  }

  function ReadToken(entry: Entry): Token {
    match ControlStatement(entry.url)
    case None => Plain(entry)
    case Some(statement) => ReadStatement(statement, entry)
  }

  /** A tag with any other statement is sent as a request. */
  function ReadStatement(s: string, entry: Entry): Token {
    if s == "else" then ElseTag
    else if "end" <= s then EndTag(ReadCloser(s))
    else if "if " <= s then ReadIf(s[3..])
    else if "for " <= s then ReadFor(s[4..])
    else if "while " <= s then ReadWhile(s[6..])
    else Plain(entry)
  }

  function ReadCloser(statement: string): Closer {
    if statement == "endif" then EndIf
    else if statement == "endfor" then EndFor
    else if statement == "endwhile" then EndWhile
    else EndOther(statement)
  }

  function ReadIf(condition: string): Token {
    if Trim(condition) == "" then BadTag(EmptyIfCondition) else IfTag(Trim(condition))
  }

  function ReadWhile(condition: string): Token {
    if Trim(condition) == "" then BadTag(EmptyWhileCondition) else WhileTag(Trim(condition))
  }

  function ReadFor(expression: string): Token {
    match Find(expression, " in ", 0)
    case None => BadTag(NotForIn)
    case Some(at) =>
      var target, source := expression[..at], expression[at + 4..];
      if Trim(target) == "" then BadTag(EmptyTarget)
      else if Trim(source) == "" then BadTag(EmptySource)
      else ForTag(Trim(target), Trim(source))
  }

  function Lex(entries: seq<Entry>): (code: seq<Token>)
    ensures |code| == |entries|
    ensures forall i :: 0 <= i < |code| ==> code[i] == ReadToken(entries[i])
  {
    seq(|entries|, i requires 0 <= i < |entries| => ReadToken(entries[i]))
  }

  function Enabled(entries: seq<Entry>): seq<Entry> {
    if entries == [] then []
    else (if entries[0].checked then [entries[0]] else []) + Enabled(entries[1..])
  }

  /** Blocks read from some cursor up to, not including, the token at `stop`. */
  datatype Segment = Segment(blocks: seq<Block>, stop: nat)

  predicate Closes(token: Token) {
    token.ElseTag? || token.EndTag?
  }

  /** `current_statement`: none means the end of the HAR. */
  function TokenAt(code: seq<Token>, i: nat): Option<Token> {
    if i < |code| then Some(code[i]) else None
  }

  /** A segment may stop at `end`, at the `else` of an `endif`, or, when no end
      is asked for, at the end of the list. */
  predicate StopsAt(code: seq<Token>, i: nat, end: Option<Closer>) {
    match end
    case None => i == |code|
    case Some(e) =>
      i < |code| && (code[i] == EndTag(e) || (e == EndIf && code[i] == ElseTag))
  }

  function Prepend(blocks: seq<Block>, rest: Result<Segment, ParseError>): Result<Segment, ParseError> {
    match rest
    case Ok(segment) => Ok(Segment(blocks + segment.blocks, segment.stop))
    case Err(e) => Err(e)
  }

  /** What `parse_blocks` makes of the tokens from `cursor` on. */
  function Parse(code: seq<Token>, cursor: nat, end: Option<Closer>): (r: Result<Segment, ParseError>)
    requires cursor <= |code|
    ensures r.Ok? ==> cursor <= r.value.stop <= |code| && StopsAt(code, r.value.stop, end)
    decreases |code| - cursor, 1
  {
    if cursor == |code| || Closes(code[cursor]) then
      if StopsAt(code, cursor, end) then Ok(Segment([], cursor))
      else match end
           case None => Err(UnexpectedTag(cursor, code[cursor]))
           case Some(e) => Err(Expected(e, TokenAt(code, cursor)))
    else
      var first := ParseBlock(code, cursor);
      if first.Err? then first
      else Prepend(first.value.blocks, Parse(code, first.value.stop, end))
  }

  /** The single block that begins at `cursor`, and the cursor behind it. */
  function ParseBlock(code: seq<Token>, cursor: nat): (r: Result<Segment, ParseError>)
    requires cursor < |code| && !Closes(code[cursor])
    ensures r.Ok? ==> |r.value.blocks| == 1 && cursor < r.value.stop <= |code|
    decreases |code| - cursor, 0
  {
    match code[cursor]
    case Plain(entry) => Ok(Segment([Request(entry)], cursor + 1))
    case BadTag(error) => Err(error)
    case IfTag(condition) =>
      var then_ := Parse(code, cursor + 1, Some(EndIf));
      if then_.Err? then then_ else
      var stop := then_.value.stop;
      if code[stop] == ElseTag then
        var else_ := Parse(code, stop + 1, Some(EndIf));
        if else_.Err? then else_ else
        if code[else_.value.stop] == ElseTag then Err(Expected(EndIf, Some(ElseTag))) else
        Ok(Segment([If(condition, then_.value.blocks, else_.value.blocks)], else_.value.stop + 1))
      else
        Ok(Segment([If(condition, then_.value.blocks, [])], stop + 1))
    case ForTag(target, source) =>
      var body := Parse(code, cursor + 1, Some(EndFor));
      if body.Err? then body else
      Ok(Segment([For(target, source, body.value.blocks)], body.value.stop + 1))
    case WhileTag(condition) =>
      var body := Parse(code, cursor + 1, Some(EndWhile));
      if body.Err? then body else
      Ok(Segment([While(condition, body.value.blocks)], body.value.stop + 1))
  }

  function Compile(code: seq<Token>): Result<seq<Block>, ParseError> {
    match Parse(code, 0, None)
    case Ok(segment) => Ok(segment.blocks)
    case Err(e) => Err(e)
  }

  lemma PrependNothing(rest: Result<Segment, ParseError>)
    ensures Prepend([], rest) == rest
  {
    if rest.Ok? {
      assert [] + rest.value.blocks == rest.value.blocks;
    }
  }

  lemma PrependTwice(a: seq<Block>, b: seq<Block>, rest: Result<Segment, ParseError>)
    ensures Prepend(a, Prepend(b, rest)) == Prepend(a + b, rest)
  {
    if rest.Ok? {
      assert a + (b + rest.value.blocks) == a + b + rest.value.blocks;
    }
  }

  /** The compiler's loop: the cursor moves over the entries, read as tokens,
      and blocks are pushed as they are completed. */
  method ParseBlocks(code: seq<Token>, start: nat, end: Option<Closer>)
    returns (r: Result<Segment, ParseError>)
    requires start <= |code|
    ensures r == Parse(code, start, end)
    decreases |code| - start, 1
  {
    var blocks: seq<Block>, cursor := [], start;
    PrependNothing(Parse(code, start, end));
    while cursor < |code|
      invariant start <= cursor <= |code|
      invariant Parse(code, start, end) == Prepend(blocks, Parse(code, cursor, end))
    {
      if Closes(code[cursor]) {
        if end.Some? {
          break;
        }
        return Err(UnexpectedTag(cursor, code[cursor]));
      }
      var one := ParseOne(code, cursor);
      if one.Err? {
        return one;
      }
      cursor := one.value.stop;
      PrependTwice(blocks, one.value.blocks, Parse(code, cursor, end));
      blocks := blocks + one.value.blocks;
    }
    assert blocks + [] == blocks;
    if end.Some? {
      var actual := TokenAt(code, cursor);
      if !(actual == Some(EndTag(end.value)) || (end.value == EndIf && actual == Some(ElseTag))) {
        return Err(Expected(end.value, actual));
      }
    }
    return Ok(Segment(blocks, cursor));
  }

  /** The body of that loop for a token that closes nothing. */
  method ParseOne(code: seq<Token>, start: nat) returns (r: Result<Segment, ParseError>)
    requires start < |code| && !Closes(code[start])
    ensures r == ParseBlock(code, start)
    decreases |code| - start, 0
  {
    match code[start] {
      case Plain(entry) =>
        return Ok(Segment([Request(entry)], start + 1));
      case BadTag(error) =>
        return Err(error);
      case IfTag(condition) =>
        var then_ := ParseBlocks(code, start + 1, Some(EndIf));
        if then_.Err? { return then_; }
        var cursor, elseBlocks := then_.value.stop, [];
        if TokenAt(code, cursor) == Some(ElseTag) {
          var else_ := ParseBlocks(code, cursor + 1, Some(EndIf));
          if else_.Err? { return else_; }
          cursor, elseBlocks := else_.value.stop, else_.value.blocks;
        }
        return ConsumeEnd(code, cursor, EndIf, If(condition, then_.value.blocks, elseBlocks));
      case ForTag(target, source) =>
        var body := ParseBlocks(code, start + 1, Some(EndFor));
        if body.Err? { return body; }
        return ConsumeEnd(code, body.value.stop, EndFor, For(target, source, body.value.blocks));
      case WhileTag(condition) =>
        var body := ParseBlocks(code, start + 1, Some(EndWhile));
        if body.Err? { return body; }
        return ConsumeEnd(code, body.value.stop, EndWhile, While(condition, body.value.blocks));
    }
  }

  /** `consume_end`, with the block that the consumed tag completes. */
  function ConsumeEnd(code: seq<Token>, cursor: nat, expected: Closer, block: Block): Result<Segment, ParseError> {
    if TokenAt(code, cursor) == Some(EndTag(expected))
    then Ok(Segment([block], cursor + 1))
    else Err(Expected(expected, TokenAt(code, cursor)))
  }

  method CompileProgram(entries: seq<Entry>) returns (r: Result<seq<Block>, ParseError>)
    ensures r == Compile(Lex(Enabled(entries)))
  {
    var code := Lex(Enabled(entries));
    var program := ParseBlocks(code, 0, None);
    if program.Err? {
      return Err(program.error);
    }
    assert program.value.stop == |code|;
    return Ok(program.value.blocks);
  }
}
