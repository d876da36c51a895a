/** What the compiler accepts, and that nothing is lost in compiling: a
    reference recogniser with an explicit stack, and the way back from blocks to
    tags and from tags to text. */
module QdGrammar {
  import opened Text
  import opened QdProgram

  /** What an open tag is waiting for. */
  datatype Open = InThen | InElse | InFor | InWhile

  /** Balanced control tags, recognised by one scan with a stack. */
  predicate Balanced(code: seq<Token>, i: nat, stack: seq<Open>)
    requires i <= |code|
    decreases |code| - i
  {
    if i == |code| then stack == []
    else match code[i]
      case Plain(_) => Balanced(code, i + 1, stack)
      case BadTag(_) => false
      case IfTag(_) => Balanced(code, i + 1, stack + [InThen])
      case ForTag(_, _) => Balanced(code, i + 1, stack + [InFor])
      case WhileTag(_) => Balanced(code, i + 1, stack + [InWhile])
      case ElseTag =>
        stack != [] && Top(stack) == InThen && Balanced(code, i + 1, Pop(stack) + [InElse])
      case EndTag(closer) =>
        stack != [] && ClosedBy(Top(stack)) == closer && Balanced(code, i + 1, Pop(stack))
  }

  function Top(stack: seq<Open>): Open
    requires stack != []
  {
    stack[|stack| - 1]
  }

  function Pop(stack: seq<Open>): seq<Open>
    requires stack != []
  {
    stack[..|stack| - 1]
  }

  function ClosedBy(open: Open): Closer {
    match open
    case InThen => EndIf
    case InElse => EndIf
    case InFor => EndFor
    case InWhile => EndWhile
  }

  predicate Awaits(stack: seq<Open>, end: Option<Closer>) {
    match end
    case None => stack == []
    case Some(closer) => stack != [] && ClosedBy(Top(stack)) == closer
  }

  lemma PopPush(stack: seq<Open>, open: Open)
    ensures Pop(stack + [open]) == stack && Top(stack + [open]) == open
  {
  }

  /** A segment the compiler accepts leaves the scan where it was; one it refuses
      is refused by the scan. */
  lemma {:induction false} ScanSegment(code: seq<Token>, cursor: nat, end: Option<Closer>, stack: seq<Open>)
    requires cursor <= |code|
    ensures var r := Parse(code, cursor, end);
            if r.Ok? then Balanced(code, cursor, stack) == Balanced(code, r.value.stop, stack)
            else Awaits(stack, end) ==> !Balanced(code, cursor, stack)
    decreases |code| - cursor, 2
  {
    if cursor < |code| && !Closes(code[cursor]) {
      ScanBlock(code, cursor, stack);
      var first := ParseBlock(code, cursor);
      if first.Ok? {
        ScanSegment(code, first.value.stop, end, stack);
      }
    }
  }

  lemma {:induction false} ScanBlock(code: seq<Token>, cursor: nat, stack: seq<Open>)
    requires cursor < |code| && !Closes(code[cursor])
    ensures var r := ParseBlock(code, cursor);
            if r.Ok? then Balanced(code, cursor, stack) == Balanced(code, r.value.stop, stack)
            else !Balanced(code, cursor, stack)
    decreases |code| - cursor, 1
  {
    match code[cursor]
    case Plain(_) =>
    case BadTag(_) =>
    case IfTag(_) =>
      ScanIf(code, cursor, stack);
    case ForTag(_, _) =>
      PopPush(stack, InFor);
      ScanSegment(code, cursor + 1, Some(EndFor), stack + [InFor]);
    case WhileTag(_) =>
      PopPush(stack, InWhile);
      ScanSegment(code, cursor + 1, Some(EndWhile), stack + [InWhile]);
  }

  lemma {:induction false} ScanIf(code: seq<Token>, cursor: nat, stack: seq<Open>)
    requires cursor < |code| && code[cursor].IfTag?
    ensures var r := ParseBlock(code, cursor);
            if r.Ok? then Balanced(code, cursor, stack) == Balanced(code, r.value.stop, stack)
            else !Balanced(code, cursor, stack)
    decreases |code| - cursor, 0
  {
    PopPush(stack, InThen);
    PopPush(stack, InElse);
    ScanSegment(code, cursor + 1, Some(EndIf), stack + [InThen]);
    var then_ := Parse(code, cursor + 1, Some(EndIf));
    if then_.Ok? && code[then_.value.stop] == ElseTag {
      ScanSegment(code, then_.value.stop + 1, Some(EndIf), stack + [InElse]);
    }
  }

  /** The compiler accepts exactly the balanced lists. */
  lemma CompilesIffBalanced(code: seq<Token>)
    ensures Compile(code).Ok? <==> Balanced(code, 0, [])
  {
    ScanSegment(code, 0, None, []);
  }

  // ----- from blocks back to tags -----

  function Flatten(blocks: seq<Block>): seq<Token>
    decreases blocks, 1
  {
    if blocks == [] then [] else FlattenBlock(blocks[0]) + Flatten(blocks[1..])
  }

  /** An empty `else` branch is not written. */
  function FlattenBlock(block: Block): (code: seq<Token>)
    ensures code != [] && !Closes(code[0])
    decreases block, 0
  {
    match block
    case Request(entry) => [Plain(entry)]
    case For(target, source, body) => [ForTag(target, source)] + Flatten(body) + [EndTag(EndFor)]
    case While(condition, body) => [WhileTag(condition)] + Flatten(body) + [EndTag(EndWhile)]
    case If(condition, thenBlocks, elseBlocks) =>
      [IfTag(condition)] + Flatten(thenBlocks) + FlattenElse(elseBlocks) + [EndTag(EndIf)]
  }

  function FlattenElse(elseBlocks: seq<Block>): (code: seq<Token>)
    ensures code != [] ==> code[0] == ElseTag
    decreases elseBlocks, 2
  {
    if elseBlocks == [] then [] else [ElseTag] + Flatten(elseBlocks)
  }

  /** `part` stands in `code` at `at`. */
  predicate Holds(code: seq<Token>, at: nat, part: seq<Token>) {
    at + |part| <= |code| && code[at..at + |part|] == part
  }

  lemma HoldsSplit(code: seq<Token>, at: nat, a: seq<Token>, b: seq<Token>)
    ensures Holds(code, at, a + b) <==> Holds(code, at, a) && Holds(code, at + |a|, b)
  {
    if Holds(code, at, a + b) {
      assert code[at..at + |a|] == (a + b)[..|a|] == a;
      assert code[at + |a|..at + |a| + |b|] == (a + b)[|a|..] == b;
    }
    if Holds(code, at, a) && Holds(code, at + |a|, b) {
      assert code[at..at + |a + b|] == code[at..at + |a|] + code[at + |a|..at + |a| + |b|];
    }
  }

  lemma HoldsOne(code: seq<Token>, at: nat, token: Token)
    ensures Holds(code, at, [token]) <==> at < |code| && code[at] == token
  {
    if at < |code| {
      assert code[at..at + 1] == [code[at]];
    }
  }

  /** Written-out blocks, wherever they stand, are read back as those blocks. */
  lemma {:induction false} ParseFlatten(code: seq<Token>, at: nat, blocks: seq<Block>, end: Option<Closer>)
    requires Holds(code, at, Flatten(blocks))
    requires StopsAt(code, at + |Flatten(blocks)|, end)
    ensures Parse(code, at, end) == Ok(Segment(blocks, at + |Flatten(blocks)|))
    decreases blocks, 1
  {
    hide Holds, FlattenBlock;
    if blocks != [] {
      var first, rest := FlattenBlock(blocks[0]), Flatten(blocks[1..]);
      assert Flatten(blocks) == first + rest;
      HoldsSplit(code, at, first, rest);
      ParseFlattenBlock(code, at, blocks[0]);
      var next, stop := at + |first|, at + |Flatten(blocks)|;
      ParseFlatten(code, next, blocks[1..], end);
      ParseStep(code, at, end, Segment([blocks[0]], next), Segment(blocks[1..], stop));
      assert [blocks[0]] + blocks[1..] == blocks;
    }
  }

  lemma ParseStep(code: seq<Token>, at: nat, end: Option<Closer>, one: Segment, rest: Segment)
    requires at < |code| && !Closes(code[at]) && ParseBlock(code, at) == Ok(one)
    requires Parse(code, one.stop, end) == Ok(rest)
    ensures Parse(code, at, end) == Ok(Segment(one.blocks + rest.blocks, rest.stop))
  {
  }

  lemma {:induction false} ParseFlattenBlock(code: seq<Token>, at: nat, block: Block)
    requires Holds(code, at, FlattenBlock(block))
    ensures at < |code| && !Closes(code[at])
    ensures ParseBlock(code, at) == Ok(Segment([block], at + |FlattenBlock(block)|))
    decreases block, 1
  {
    match block
    case Request(entry) =>
      HoldsOne(code, at, Plain(entry));
    case For(target, source, body) =>
      ParseFlattenLoop(code, at, block, ForTag(target, source), body, EndFor);
    case While(condition, body) =>
      ParseFlattenLoop(code, at, block, WhileTag(condition), body, EndWhile);
    case If(condition, thenBlocks, elseBlocks) =>
      ParseFlattenIf(code, at, condition, thenBlocks, elseBlocks);
  }

  lemma {:induction false} ParseFlattenLoop(code: seq<Token>, at: nat, block: Block, head: Token, body: seq<Block>, closer: Closer)
    requires Holds(code, at, [head] + Flatten(body) + [EndTag(closer)])
    requires (block.For? && head == ForTag(block.target, block.source) && block.forBody == body && closer == EndFor)
          || (block.While? && head == WhileTag(block.condition) && block.whileBody == body && closer == EndWhile)
    ensures at < |code| && code[at] == head
    ensures ParseBlock(code, at) == Ok(Segment([block], at + 2 + |Flatten(body)|))
    decreases body, 2
  {
    HoldsInner(code, at, head, Flatten(body), EndTag(closer));
    ParseFlatten(code, at + 1, body, Some(closer));
  }

  lemma {:induction false} ParseFlattenIf(code: seq<Token>, at: nat, condition: string, thenBlocks: seq<Block>, elseBlocks: seq<Block>)
    requires Holds(code, at, [IfTag(condition)] + Flatten(thenBlocks) + FlattenElse(elseBlocks) + [EndTag(EndIf)])
    ensures at < |code| && code[at] == IfTag(condition)
    ensures ParseBlock(code, at) == Ok(Segment([If(condition, thenBlocks, elseBlocks)],
              at + |Flatten(thenBlocks)| + |FlattenElse(elseBlocks)| + 2))
    decreases If(condition, thenBlocks, elseBlocks), 0
  {
    hide Parse, Flatten;
    var then_, else_ := Flatten(thenBlocks), FlattenElse(elseBlocks);
    var middle := at + 1 + |then_|;
    HoldsIf(code, at, IfTag(condition), then_, else_);
    ParseFlatten(code, at + 1, thenBlocks, Some(EndIf));
    if elseBlocks == [] {
      IfWithoutElse(code, at, Segment(thenBlocks, middle));
    } else {
      HoldsSplit(code, middle, [ElseTag], Flatten(elseBlocks));
      ParseFlatten(code, middle + 1, elseBlocks, Some(EndIf));
      IfWithElse(code, at, Segment(thenBlocks, middle), Segment(elseBlocks, middle + |else_|));
    }
  }

  lemma IfWithoutElse(code: seq<Token>, at: nat, then_: Segment)
    requires at < |code| && code[at].IfTag? && Parse(code, at + 1, Some(EndIf)) == Ok(then_)
    requires code[then_.stop] == EndTag(EndIf)
    ensures ParseBlock(code, at) == Ok(Segment([If(code[at].condition, then_.blocks, [])], then_.stop + 1))
  {
  }

  lemma IfWithElse(code: seq<Token>, at: nat, then_: Segment, else_: Segment)
    requires at < |code| && code[at].IfTag? && Parse(code, at + 1, Some(EndIf)) == Ok(then_)
    requires code[then_.stop] == ElseTag && Parse(code, then_.stop + 1, Some(EndIf)) == Ok(else_)
    requires code[else_.stop] == EndTag(EndIf)
    ensures ParseBlock(code, at) == Ok(Segment([If(code[at].condition, then_.blocks, else_.blocks)], else_.stop + 1))
  {
  }

  lemma HoldsInner(code: seq<Token>, at: nat, head: Token, inner: seq<Token>, closing: Token)
    requires Holds(code, at, [head] + inner + [closing])
    ensures at + 1 + |inner| < |code| && code[at] == head && code[at + 1 + |inner|] == closing
    ensures Holds(code, at + 1, inner)
  {
    HoldsSplit(code, at, [head] + inner, [closing]);
    HoldsSplit(code, at, [head], inner);
    HoldsOne(code, at, head);
    HoldsOne(code, at + 1 + |inner|, closing);
  }

  lemma HoldsIf(code: seq<Token>, at: nat, head: Token, then_: seq<Token>, else_: seq<Token>)
    requires Holds(code, at, [head] + then_ + else_ + [EndTag(EndIf)])
    requires else_ != [] ==> else_[0] == ElseTag
    ensures var middle := at + 1 + |then_|;
            && middle + |else_| < |code| && code[at] == head && code[middle + |else_|] == EndTag(EndIf)
            && (else_ != [] ==> code[middle] == ElseTag)
            && Holds(code, at + 1, then_) && Holds(code, middle, else_)
  {
    var front := [head] + then_;
    HoldsSplit(code, at, front + else_, [EndTag(EndIf)]);
    HoldsSplit(code, at, front, else_);
    HoldsSplit(code, at, [head], then_);
    HoldsOne(code, at, head);
    HoldsOne(code, at + |front + else_|, EndTag(EndIf));
  }

  /** Flatten, then compile: the same tree. */
  lemma CompileFlatten(blocks: seq<Block>)
    ensures Compile(Flatten(blocks)) == Ok(blocks)
  {
    hide Flatten;
    var code := Flatten(blocks);
    assert code[0..|code|] == code;
    ParseFlatten(code, 0, blocks, None);
  }

  /** An `else` with nothing between it and the `endif`. */
  predicate EmptyElse(code: seq<Token>, k: nat) {
    k + 1 < |code| && code[k] == ElseTag && code[k + 1] == EndTag(EndIf)
  }

  /** The tokens from `i` to `j`, without the empty `else` tags. */
  function WithoutEmptyElse(code: seq<Token>, i: nat, j: nat): seq<Token>
    requires i <= j <= |code|
    decreases j - i
  {
    if i == j then []
    else (if EmptyElse(code, i) then [] else [code[i]]) + WithoutEmptyElse(code, i + 1, j)
  }

  lemma {:induction false} WithoutEmptyElseShorter(code: seq<Token>, i: nat, j: nat)
    requires i <= j <= |code|
    ensures |WithoutEmptyElse(code, i, j)| <= j - i
    decreases j - i
  {
    hide EmptyElse;
    if i < j {
      WithoutEmptyElseShorter(code, i + 1, j);
      var head := if EmptyElse(code, i) then [] else [code[i]];
      assert WithoutEmptyElse(code, i, j) == head + WithoutEmptyElse(code, i + 1, j) && |head| <= 1;
    }
  }

  lemma {:induction false} WithoutEmptyElseSplit(code: seq<Token>, i: nat, j: nat, k: nat)
    requires i <= j <= k <= |code|
    ensures WithoutEmptyElse(code, i, k) == WithoutEmptyElse(code, i, j) + WithoutEmptyElse(code, j, k)
    decreases j - i
  {
    if i < j {
      WithoutEmptyElseSplit(code, i + 1, j, k);
    }
  }

  lemma {:induction false} FlattenParse(code: seq<Token>, cursor: nat, end: Option<Closer>)
    requires cursor <= |code| && Parse(code, cursor, end).Ok?
    ensures var segment := Parse(code, cursor, end).value;
            Flatten(segment.blocks) == WithoutEmptyElse(code, cursor, segment.stop)
    decreases |code| - cursor, 3
  {
    if cursor < |code| && !Closes(code[cursor]) {
      var first := ParseBlock(code, cursor).value;
      var rest := Parse(code, first.stop, end).value;
      FlattenParseBlock(code, cursor);
      FlattenParse(code, first.stop, end);
      WithoutEmptyElseSplit(code, cursor, first.stop, rest.stop);
      assert (first.blocks + rest.blocks)[1..] == rest.blocks;
    }
  }

  lemma {:induction false} FlattenParseIf(code: seq<Token>, cursor: nat)
    requires cursor < |code| && code[cursor].IfTag? && ParseBlock(code, cursor).Ok?
    ensures var segment := ParseBlock(code, cursor).value;
            FlattenBlock(segment.blocks[0]) == WithoutEmptyElse(code, cursor, segment.stop)
    decreases |code| - cursor, 1
  {
    hide FlattenBlock;
    FlattenInner(code, cursor, EndIf);
    var then_ := Parse(code, cursor + 1, Some(EndIf)).value;
    if code[then_.stop] == ElseTag {
      FlattenInner(code, then_.stop, EndIf);
      var else_ := Parse(code, then_.stop + 1, Some(EndIf)).value;
      IfWithElse(code, cursor, then_, else_);
      FlattenElseInner(code, then_.stop, else_);
      WithoutEmptyElseSplit(code, cursor, then_.stop, else_.stop + 1);
      JoinIf(code[cursor].condition, then_.blocks, else_.blocks);
    } else {
      IfWithoutElse(code, cursor, then_);
      JoinIf(code[cursor].condition, then_.blocks, []);
    }
  }

  lemma JoinIf(condition: string, thenBlocks: seq<Block>, elseBlocks: seq<Block>)
    ensures FlattenBlock(If(condition, thenBlocks, elseBlocks))
         == ([IfTag(condition)] + Flatten(thenBlocks)) + (FlattenElse(elseBlocks) + [EndTag(EndIf)])
  {
  }

  lemma FlattenElseInner(code: seq<Token>, at: nat, else_: Segment)
    requires at < |code| && code[at] == ElseTag && Parse(code, at + 1, Some(EndIf)) == Ok(else_)
    requires code[else_.stop] == EndTag(EndIf)
    ensures (if EmptyElse(code, at) then [] else [ElseTag]) + Flatten(else_.blocks) == FlattenElse(else_.blocks)
  {
  }

  lemma {:induction false} FlattenParseBlock(code: seq<Token>, cursor: nat)
    requires cursor < |code| && !Closes(code[cursor]) && ParseBlock(code, cursor).Ok?
    ensures var segment := ParseBlock(code, cursor).value;
            FlattenBlock(segment.blocks[0]) == WithoutEmptyElse(code, cursor, segment.stop)
    decreases |code| - cursor, 2
  {
    match code[cursor]
    case Plain(_) =>
    case ForTag(_, _) =>
      FlattenInner(code, cursor, EndFor);
    case WhileTag(_) =>
      FlattenInner(code, cursor, EndWhile);
    case IfTag(_) =>
      FlattenParseIf(code, cursor);
  }

  /** The tag at `head`, the segment it opens, and the tag that ends it. */
  lemma FlattenInner(code: seq<Token>, head: nat, closer: Closer)
    requires head < |code| && Parse(code, head + 1, Some(closer)).Ok?
    ensures var segment := Parse(code, head + 1, Some(closer)).value;
            var front := (if EmptyElse(code, head) then [] else [code[head]]) + Flatten(segment.blocks);
            && WithoutEmptyElse(code, head, segment.stop) == front
            && (code[segment.stop] == EndTag(closer)
                ==> WithoutEmptyElse(code, head, segment.stop + 1) == front + [EndTag(closer)])
    decreases |code| - head, 0
  {
    FlattenParse(code, head + 1, Some(closer));
    var stop := Parse(code, head + 1, Some(closer)).value.stop;
    WithoutEmptyElseSplit(code, head, stop, stop + 1);
  }

  /** Compile, then flatten: the same list, less the empty `else` tags. */
  lemma FlattenCompile(code: seq<Token>)
    requires Compile(code).Ok?
    ensures Flatten(Compile(code).value) == WithoutEmptyElse(code, 0, |code|)
  {
    FlattenParse(code, 0, None);
  }

  // ----- which entries are run -----

  /** The requests of a tree, in the order of the list they were read from. */
  function Requests(blocks: seq<Block>): seq<Entry>
    decreases blocks, 1
  {
    if blocks == [] then [] else RequestsOf(blocks[0]) + Requests(blocks[1..])
  }

  function RequestsOf(block: Block): seq<Entry>
    decreases block, 0
  {
    match block
    case Request(entry) => [entry]
    case For(_, _, body) => Requests(body)
    case While(_, body) => Requests(body)
    case If(_, thenBlocks, elseBlocks) => Requests(thenBlocks) + Requests(elseBlocks)
  }

  /** The entries that are checked and no control tag. */
  function CheckedRequests(entries: seq<Entry>): seq<Entry> {
    if entries == [] then []
    else
      var front, last := CheckedRequests(entries[..|entries| - 1]), entries[|entries| - 1];
      if last.checked && ReadToken(last).Plain? then front + [last] else front
  }

  function PlainEntries(code: seq<Token>): seq<Entry> {
    if code == [] then [] else PlainEntry(code[0]) + PlainEntries(code[1..])
  }

  function PlainEntry(token: Token): seq<Entry> {
    if token.Plain? then [token.entry] else []
  }

  lemma {:induction false} PlainSplit(a: seq<Token>, b: seq<Token>)
    ensures PlainEntries(a + b) == PlainEntries(a) + PlainEntries(b)
  {
    if a == [] {
      assert a + b == b;
    } else {
      hide PlainEntry;
      assert (a + b)[0] == a[0] && (a + b)[1..] == a[1..] + b;
      PlainSplit(a[1..], b);
      Regroup(PlainEntry(a[0]), PlainEntries(a[1..]), PlainEntries(b));
    }
  }

  lemma PlainOne(token: Token)
    ensures PlainEntries([token]) == PlainEntry(token)
  {
    hide PlainEntry;
    assert [token][1..] == [];
    assert PlainEntry(token) + [] == PlainEntry(token);
  }

  lemma {:induction false} PlainFlatten(blocks: seq<Block>)
    ensures PlainEntries(Flatten(blocks)) == Requests(blocks)
    decreases blocks, 1
  {
    if blocks != [] {
      PlainFlattenBlock(blocks[0]);
      PlainFlatten(blocks[1..]);
      PlainSplit(FlattenBlock(blocks[0]), Flatten(blocks[1..]));
    }
  }

  lemma {:induction false} PlainFlattenBlock(block: Block)
    ensures PlainEntries(FlattenBlock(block)) == RequestsOf(block)
    decreases block, 0
  {
    match block
    case Request(entry) =>
      PlainOne(Plain(entry));
    case For(target, source, body) =>
      PlainFlatten(body);
      PlainInner(ForTag(target, source), Flatten(body), EndTag(EndFor));
    case While(condition, body) =>
      PlainFlatten(body);
      PlainInner(WhileTag(condition), Flatten(body), EndTag(EndWhile));
    case If(condition, thenBlocks, elseBlocks) =>
      PlainFlatten(thenBlocks);
      PlainFlatten(elseBlocks);
      PlainElse(elseBlocks);
      PlainSplit(Flatten(thenBlocks), FlattenElse(elseBlocks));
      assert [IfTag(condition)] + Flatten(thenBlocks) + FlattenElse(elseBlocks)
          == [IfTag(condition)] + (Flatten(thenBlocks) + FlattenElse(elseBlocks));
      PlainInner(IfTag(condition), Flatten(thenBlocks) + FlattenElse(elseBlocks), EndTag(EndIf));
  }

  lemma PlainInner(open: Token, code: seq<Token>, close: Token)
    requires !open.Plain? && !close.Plain?
    ensures PlainEntries([open] + code + [close]) == PlainEntries(code)
  {
    PlainOne(open);
    PlainOne(close);
    PlainSplit([open], code);
    PlainSplit([open] + code, [close]);
  }

  lemma PlainElse(elseBlocks: seq<Block>)
    ensures PlainEntries(FlattenElse(elseBlocks)) == PlainEntries(Flatten(elseBlocks))
  {
    PlainOne(ElseTag);
    if elseBlocks != [] {
      PlainSplit([ElseTag], Flatten(elseBlocks));
    }
  }

  lemma {:induction false} PlainKept(code: seq<Token>, i: nat)
    requires i <= |code|
    ensures PlainEntries(WithoutEmptyElse(code, i, |code|)) == PlainEntries(code[i..])
    decreases |code| - i
  {
    if i < |code| {
      var head := if EmptyElse(code, i) then [] else [code[i]];
      PlainKept(code, i + 1);
      PlainSplit(head, WithoutEmptyElse(code, i + 1, |code|));
      PlainOne(code[i]);
      assert code[i..][0] == code[i] && code[i..][1..] == code[i + 1..];
    }
  }

  lemma {:induction false} CheckedArePlain(entries: seq<Entry>)
    ensures PlainEntries(Lex(Enabled(entries))) == CheckedRequests(entries)
    ensures forall i :: 0 <= i < |CheckedRequests(entries)| ==> CheckedRequests(entries)[i].checked
  {
    hide ReadToken;
    if entries != [] {
      var front, last := entries[..|entries| - 1], entries[|entries| - 1];
      CheckedArePlain(front);
      EnabledSplit(front, [last]);
      assert front + [last] == entries;
      EnabledOne(last);
      if last.checked {
        LexPush(Enabled(front), last);
        PlainSplit(Lex(Enabled(front)), [ReadToken(last)]);
        PlainOne(ReadToken(last));
        PlainIsItself(last);
      } else {
        assert Enabled(front) + [] == Enabled(front);
      }
    }
  }

  lemma EnabledOne(entry: Entry)
    ensures Enabled([entry]) == if entry.checked then [entry] else []
  {
    assert [entry][1..] == [];
  }

  lemma LexPush(entries: seq<Entry>, entry: Entry)
    ensures Lex(entries + [entry]) == Lex(entries) + [ReadToken(entry)]
  {
    hide ReadToken;
  }

  lemma PlainIsItself(entry: Entry)
    ensures ReadToken(entry).Plain? ==> ReadToken(entry).entry == entry
  {
  }

  lemma {:induction false} EnabledSplit(a: seq<Entry>, b: seq<Entry>)
    ensures Enabled(a + b) == Enabled(a) + Enabled(b)
  {
    if a == [] {
      assert a + b == b;
    } else {
      assert (a + b)[1..] == a[1..] + b;
      EnabledSplit(a[1..], b);
    }
  }

  /** The requests of a compiled program are the checked entries that are no tags, each
      once and in the order of the list. */
  lemma CompiledRequests(entries: seq<Entry>, blocks: seq<Block>)
    requires Compile(Lex(Enabled(entries))) == Ok(blocks)
    ensures Requests(blocks) == CheckedRequests(entries)
    ensures forall i :: 0 <= i < |Requests(blocks)| ==> Requests(blocks)[i].checked
  {
    var code := Lex(Enabled(entries));
    FlattenCompile(code);
    PlainFlatten(blocks);
    PlainKept(code, 0);
    assert code[0..] == code;
    CheckedArePlain(entries);
  }

  /** An entry that is not checked may stand anywhere: what is compiled is the same. */
  lemma UncheckedIsSkipped(before: seq<Entry>, off: Entry, after: seq<Entry>)
    requires !off.checked
    ensures Compile(Lex(Enabled(before + [off] + after))) == Compile(Lex(Enabled(before + after)))
  {
    EnabledSplit(before, after);
    EnabledSplit(before, [off]);
    EnabledSplit(before + [off], after);
    EnabledOne(off);
    assert Enabled(before) + [] == Enabled(before);
  }
}
