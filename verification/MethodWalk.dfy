/** The scan over a printed expression, piece by piece, and the theorem: rewriting
    the text of an expression gives the text of the desugared expression. */
module MethodWalk {
  import opened Text
  import opened MethodRewriter
  import opened MethodDesugar

  /** The lexicon calls no space a letter. */
  ghost predicate SpacesApart(l: Lexicon) {
    forall c :: IsSpace(c) ==> !IsWord(l.letters, c)
  }

  predicate StopBy(s: State, i: nat) {
    s.primary.Some? ==> s.primary.value.stop <= i
  }

  /** No primary ends here, so whatever follows starts afresh. */
  predicate Clear(s: State, i: nat) {
    s.primary.Some? ==> s.primary.value.stop < i
  }

  predicate WordAhead(l: Lexicon, text: string, j: nat) {
    j < |text| && IsWord(l.letters, text[j])
  }

  predicate CallAhead(text: string, j: nat)
    requires j <= |text|
  {
    var k := SkipSpaces(text, j);
    k < |text| && text[k] == '('
  }

  /** The expression's last word is a method name, which looks for a call. */
  predicate EndsInMethod(l: Lexicon, e: Expr) {
    match e
    case Attr(_, name) => name in l.methods
    case Unary(_, operand) => EndsInMethod(l, operand)
    case Binary(_, _, right) => EndsInMethod(l, right)
    case _ => false
  }

  /** What stands behind the expression does not run into it. */
  predicate EndsHere(l: Lexicon, e: Expr, text: string, j: nat)
    requires j <= |text|
  {
    !WordAhead(l, text, j) && (EndsInMethod(l, e) ==> !CallAhead(text, j))
  }

  lemma WordEnds(l: Lexicon, text: string, i: nat, id: string)
    requires At(text, i, id) && forall k :: 0 <= k < |id| ==> IsWord(l.letters, id[k])
    requires !WordAhead(l, text, i + |id|)
    ensures IdentifierEnd(l, text, i) == i + |id|
  {
    var rest := text[i..];
    forall k | 0 <= k < |id|
      ensures IsWord(l.letters, rest[k])
    {
      AtIndex(text, i, id, k);
      assert rest[k] == text[i + k];
    }
    assert i + |id| < |text| ==> rest[|id|] == text[i + |id|];
  }

  lemma NoSpaces(text: string, j: nat)
    requires j <= |text| && (j < |text| ==> !IsSpace(text[j]))
    ensures SkipSpaces(text, j) == j
  {
    if j < |text| {
      assert text[j..][0] == text[j];
    }
  }

  // ----- operators -----

  lemma ScanStep(l: Lexicon, text: string, i: nat, s: State, next: Next)
    requires i < |text| && Step(l, text, i, s) == next && next.Go?
    ensures Scan(l, text, i, s) == Scan(l, text, next.index, next.state)
  {
  }

  lemma OtherStep(l: Lexicon, text: string, i: nat, s: State)
    requires i < |text| && IsPlain(text[i]) && !IsWord(l.letters, text[i])
    ensures Step(l, text, i, s) == Go(i + 1, s.(out := s.out + [text[i]]))
  {
  }

  lemma WordStep(l: Lexicon, text: string, i: nat, s: State, id: string)
    requires id != "" && At(text, i, id) && forall k :: 0 <= k < |id| ==> IsWord(l.letters, id[k])
    requires !WordAhead(l, text, i + |id|)
    ensures Step(l, text, i, s) == Go(i + |id|, Fresh(s, id, i + |id|))
  {
    WordEnds(l, text, i, id);
    AtIndex(text, i, id, 0);
    WordIsPlain(l, id);
    assert IsPlain(id[0]);
  }

  /** The scan gets from one place to another. */
  ghost predicate Moves(l: Lexicon, text: string, i: nat, s: State, j: nat, s2: State) {
    && i <= |text| && j <= |text|
    && forall t {:trigger Opened(t)} :: t == text ==> Scan(l, t, i, s) == Scan(l, t, j, s2)
  }

  lemma MovesStep(l: Lexicon, text: string, i: nat, s: State, next: Next)
    requires i < |text| && Step(l, text, i, s) == next && next.Go?
    ensures Moves(l, text, i, s, next.index, next.state)
  {
    ScanStep(l, text, i, s, next);
  }

  lemma MovesWord(l: Lexicon, text: string, i: nat, s: State, id: string)
    requires id != "" && At(text, i, id) && forall k :: 0 <= k < |id| ==> IsWord(l.letters, id[k])
    requires !WordAhead(l, text, i + |id|)
    ensures Moves(l, text, i, s, i + |id|, Fresh(s, id, i + |id|))
  {
    AtIndex(text, i, id, 0);
    WordStep(l, text, i, s, id);
    MovesStep(l, text, i, s, Go(i + |id|, Fresh(s, id, i + |id|)));
  }

  lemma MovesOther(l: Lexicon, text: string, i: nat, s: State)
    requires i < |text| && IsPlain(text[i]) && !IsWord(l.letters, text[i])
    ensures Moves(l, text, i, s, i + 1, s.(out := s.out + [text[i]]))
  {
    OtherStep(l, text, i, s);
    MovesStep(l, text, i, s, Go(i + 1, s.(out := s.out + [text[i]])));
  }

  lemma MovesNowhere(l: Lexicon, text: string, i: nat, s: State)
    requires i <= |text|
    ensures Moves(l, text, i, s, i, s)
  {
  }

  lemma MovesOn(l: Lexicon, text: string, i: nat, s: State, j: nat, s2: State, k: nat, s3: State)
    requires Moves(l, text, i, s, j, s2) && Moves(l, text, j, s2, k, s3)
    ensures Moves(l, text, i, s, k, s3)
  {
    assert Opened(text);
  }

  lemma MovesToEnd(l: Lexicon, text: string, s: State)
    requires Moves(l, text, 0, BEGIN, |text|, s)
    ensures Rewrite(l, text) == Finish(s)
  {
    assert Opened(text);
  }

  /** The scan has copied operator text. */
  predicate Copied(l: Lexicon, s: State, part: string, j: nat, s2: State)
    requires part != ""
  {
    && s2.out == s.out + part && s2.changed == s.changed && StopBy(s2, j)
    && (!IsWord(l.letters, part[|part| - 1]) ==> Clear(s2, j))
  }

  /** The first word of operator text, which becomes a primary, or its first
      character. */
  lemma FirstPiece(l: Lexicon, text: string, i: nat, s: State, part: string) returns (n: nat, s2: State)
    requires At(text, i, part) && AllPlain(part) && StopBy(s, i)
    requires part != "" && (IsWord(l.letters, part[|part| - 1]) ==> !WordAhead(l, text, i + |part|))
    ensures 1 <= n <= |part| && Moves(l, text, i, s, i + n, s2) && Copied(l, s, part[..n], i + n, s2)
  {
    n := WordRun(l.letters, part);
    if n == 0 {
      AtIndex(text, i, part, 0);
      n, s2 := 1, s.(out := s.out + [text[i]]);
      MovesOther(l, text, i, s);
      assert part[..1] == [text[i]];
    } else {
      s2 := FirstWord(l, text, i, s, part, n);
    }
  }

  lemma FirstWord(l: Lexicon, text: string, i: nat, s: State, part: string, n: nat) returns (s2: State)
    requires At(text, i, part) && StopBy(s, i) && 0 < n == WordRun(l.letters, part)
    requires IsWord(l.letters, part[|part| - 1]) ==> !WordAhead(l, text, i + |part|)
    ensures n <= |part| && Moves(l, text, i, s, i + n, s2) && Copied(l, s, part[..n], i + n, s2)
  {
    var word := part[..n];
    s2 := Fresh(s, word, i + n);
    AtRest(text, i, part, n);
    assert word[|word| - 1] == part[n - 1];
    if n < |part| {
      AtIndex(text, i, part, n);
    }
    MovesWord(l, text, i, s, word);
  }

  /** Operator text is copied, and a primary in it ends before its last character
      unless that is a letter. */
  lemma {:induction false} WalkPlain(l: Lexicon, text: string, i: nat, s: State, part: string) returns (s2: State)
    requires At(text, i, part) && AllPlain(part) && StopBy(s, i)
    requires part != "" && (IsWord(l.letters, part[|part| - 1]) ==> !WordAhead(l, text, i + |part|))
    ensures Moves(l, text, i, s, i + |part|, s2) && Copied(l, s, part, i + |part|, s2)
    decreases |part|
  {
    var n, next := FirstPiece(l, text, i, s, part);
    if n == |part| {
      s2 := next;
      assert part[..n] == part;
    } else {
      AtRest(text, i, part, n);
      s2 := WalkPlain(l, text, i + n, next, part[n..]);
      MovesOn(l, text, i, s, i + n, next, i + |part|, s2);
      CopiedTwice(l, s, part, n, next, i + |part|, s2);
    }
  }

  lemma AtRest(text: string, i: nat, part: string, n: nat)
    requires At(text, i, part) && n <= |part|
    ensures At(text, i, part[..n]) && At(text, i + n, part[n..])
  {
    assert part == part[..n] + part[n..];
    AtSplit(text, i, part[..n], part[n..]);
  }

  lemma CopiedTwice(l: Lexicon, s: State, part: string, n: nat, next: State, j: nat, s2: State)
    requires 0 < n < |part| && next.out == s.out + part[..n] && next.changed == s.changed
    requires Copied(l, next, part[n..], j, s2)
    ensures Copied(l, s, part, j, s2)
  {
    assert part[..n] + part[n..] == part;
    assert s.out + part[..n] + part[n..] == s.out + part;
  }

  // ----- one construct at a time -----

  lemma MovesString(l: Lexicon, text: string, i: nat, s: State, quote: char, body: string)
    requires IsQuote(quote) && Closed(body, quote, false) && At(text, i, [quote] + body + [quote])
    ensures Moves(l, text, i, s, i + |body| + 2, Fresh(s, [quote] + body + [quote], i + |body| + 2))
  {
    hide Closed, StringEnd, Moves;
    StringEnds(text, i, quote, body);
    MovesStep(l, text, i, s, Go(i + |body| + 2, Fresh(s, [quote] + body + [quote], i + |body| + 2)));
  }

  /** What the rewriter makes of a printed list on its own. */
  ghost predicate RewritesList(l: Lexicon, es: seq<Expr>) {
    Rewrite(l, PrintList(es)) == if AnyChanges(l, es) then Some(PrintList(DesugarAll(l, es))) else None
  }

  lemma RewrittenList(l: Lexicon, es: seq<Expr>)
    requires RewritesList(l, es)
    ensures Rewritten(l, PrintList(es)) == PrintList(DesugarAll(l, es))
  {
    if !AnyChanges(l, es) {
      NothingInList(l, es);
    }
  }

  function Bracketed(b: char, inner: string): string {
    [b] + inner + [Closing(b)]
  }

  lemma MovesGroup(l: Lexicon, items: seq<Expr>, text: string, i: nat, s: State, b: char)
    requires AllWellFormed(l, items) && IsOpen(b) && At(text, i, Bracketed(b, PrintList(items))) && RewritesList(l, items)
    ensures var j := i + |PrintList(items)| + 2;
            Moves(l, text, i, s, j,
              Extend(s.(changed := s.changed || AnyChanges(l, items)), i, Bracketed(b, PrintList(DesugarAll(l, items))), j))
  {
    hide PrintList, DesugarAll, GroupEnd, Step, Moves, Rewritten;
    var inner := PrintList(items);
    var j := i + |inner| + 2;
    AtBracket(text, i, b, inner);
    GroupEnds(l, items, text, i, b);
    RewrittenList(l, items);
    assert text[j - 1..j] == [Closing(b)];
    GroupStep(l, text, i, s, j, inner);
    MovesStep(l, text, i, s,
      Go(j, Extend(s.(changed := s.changed || AnyChanges(l, items)), i, Bracketed(b, PrintList(DesugarAll(l, items))), j)));
  }

  lemma GroupStep(l: Lexicon, text: string, i: nat, s: State, j: nat, interior: string)
    requires i + 1 < j <= |text| && IsOpen(text[i]) && GroupEnd(text, i) == Some(j) && interior == text[i + 1..j - 1]
    ensures Step(l, text, i, s)
         == Go(j, Extend(s.(changed := s.changed || Rewrite(l, interior).Some?), i,
                         [text[i]] + Rewritten(l, interior) + text[j - 1..j], j))
  {
  }

  /** An attribute that is not a method call. */
  lemma MovesAttr(l: Lexicon, text: string, i: nat, s: State, name: string)
    requires IsIdentifier(l, name) && At(text, i, "." + name) && EndsAt(s, i)
    requires var j := i + 1 + |name|; !WordAhead(l, text, j) && (name in l.methods ==> !CallAhead(text, j))
    ensures Moves(l, text, i, s, i + 1 + |name|, Extend(s, i, "." + name, i + 1 + |name|))
  {
    hide Moves, Step;
    var j := i + 1 + |name|;
    AtIndex(text, i, "." + name, 0);
    AtSplit(text, i, ".", name);
    WordEnds(l, text, i + 1, name);
    assert text[i + 1..j] == name && text[i..j] == "." + name;
    assert CallAt(l, text, i) == None;
    StepIsDot(l, text, i, s);
    MovesStep(l, text, i, s, Go(j, Extend(s, i, "." + name, j)));
  }

  /** A method call, with blanks or without in front of its bracket. */
  lemma MovesCall(l: Lexicon, text: string, i: nat, s: State, name: string, gap: string, args: seq<Expr>)
    requires IsIdentifier(l, name) && name in l.methods && EndsAt(s, i) && AllSpace(gap) && SpacesApart(l)
    requires AllWellFormed(l, args) && RewritesList(l, args)
    requires At(text, i, "." + name + (gap + Bracketed('(', PrintList(args))))
    ensures var j := i + |name| + |gap| + |PrintList(args)| + 3;
            Moves(l, text, i, s, j, ReplaceCall(s, name, PrintList(DesugarAll(l, args)), j))
  {
    hide CallAt, CallText, PrintList, DesugarAll, Rewritten, Moves;
    var k, open := i + 1 + |name|, i + 1 + |name| + |gap|;
    var j := open + |PrintList(args)| + 2;
    CallFound(l, text, i, name, gap, args);
    RewrittenList(l, args);
    DotStep(l, text, i, s, CallSite(k, open, j), name, PrintList(args));
    MovesStep(l, text, i, s, Go(j, ReplaceCall(s, name, PrintList(DesugarAll(l, args)), j)));
  }

  /** `.name`, blanks and `(inner)` stand in `text` at `i`. */
  predicate IsCallText(text: string, i: nat, name: string, gap: string, inner: string) {
    var k, open := i + 1 + |name|, i + 1 + |name| + |gap|;
    && open + |inner| + 2 <= |text| && text[i] == '.' && text[i + 1..k] == name && text[k..open] == gap && text[open] == '('
    && text[open + 1..open + 1 + |inner|] == inner
  }

  lemma CallTextStands(text: string, i: nat, name: string, gap: string, inner: string)
    requires At(text, i, "." + name + (gap + Bracketed('(', inner)))
    ensures IsCallText(text, i, name, gap, inner)
    ensures At(text, i + 1, name) && At(text, i + 1 + |name| + |gap|, Bracketed('(', inner))
  {
    AtSplit(text, i, "." + name, gap + Bracketed('(', inner));
    AtIndex(text, i, "." + name, 0);
    AtSplit(text, i, ".", name);
    AtSplit(text, i + 1 + |name|, gap, Bracketed('(', inner));
    AtBracket(text, i + 1 + |name| + |gap|, '(', inner);
  }

  lemma CallFound(l: Lexicon, text: string, i: nat, name: string, gap: string, args: seq<Expr>)
    requires IsIdentifier(l, name) && name in l.methods && AllWellFormed(l, args) && AllSpace(gap) && SpacesApart(l)
    requires At(text, i, "." + name + (gap + Bracketed('(', PrintList(args))))
    ensures var k, inner := i + 1 + |name|, PrintList(args);
            && IsCallText(text, i, name, gap, inner)
            && CallAt(l, text, i) == Some(CallSite(k, k + |gap|, k + |gap| + |inner| + 2))
  {
    hide PrintList, GroupEnd, CallAt, Run;
    var open, inner := i + 1 + |name| + |gap|, PrintList(args);
    CallTextStands(text, i, name, gap, inner);
    GroupEnds(l, args, text, open, '(');
    CallAtFound(l, text, i, name, gap, open + |inner| + 2);
  }

  lemma CallAtFound(l: Lexicon, text: string, i: nat, name: string, gap: string, close: nat)
    requires IsIdentifier(l, name) && name in l.methods && At(text, i + 1, name) && AllSpace(gap) && SpacesApart(l)
    requires var k := i + 1 + |name|; At(text, k, gap) && k + |gap| < |text| && text[k + |gap|] == '('
    requires GroupEnd(text, i + 1 + |name| + |gap|) == Some(close)
    ensures CallAt(l, text, i) == Some(CallSite(i + 1 + |name|, i + 1 + |name| + |gap|, close))
  {
    hide Run, GroupEnd;
    var k := i + 1 + |name|;
    SpacesEnd(text, k, gap);
    if gap != "" {
      AtIndex(text, k, gap, 0);
    }
    WordEnds(l, text, i + 1, name);
  }

  lemma SpacesEnd(text: string, k: nat, gap: string)
    requires At(text, k, gap) && AllSpace(gap) && k + |gap| < |text| && !IsSpace(text[k + |gap|])
    ensures SkipSpaces(text, k) == k + |gap|
  {
    var rest := text[k..];
    forall j | 0 <= j < |gap|
      ensures IsSpace(rest[j])
    {
      AtIndex(text, k, gap, j);
    }
    assert rest[|gap|] == text[k + |gap|];
  }

  lemma DotStep(l: Lexicon, text: string, i: nat, s: State, call: CallSite, name: string, args: string)
    requires i < |text| && text[i] == '.' && EndsAt(s, i) && CallAt(l, text, i) == Some(call)
    requires name == text[i + 1..call.nameEnd] && args == text[call.open + 1..call.close - 1]
    ensures Step(l, text, i, s) == Go(call.close, ReplaceCall(s, name, Rewritten(l, args), call.close))
  {
    StepIsDot(l, text, i, s);
    StepDotCalls(l, text, i, s, call);
  }

  lemma StepDotCalls(l: Lexicon, text: string, i: nat, s: State, call: CallSite)
    requires i < |text| && EndsAt(s, i) && CallAt(l, text, i) == Some(call)
    ensures StepDot(l, text, i, s)
         == Go(call.close, ReplaceCall(s, text[i + 1..call.nameEnd], Rewritten(l, text[call.open + 1..call.close - 1]), call.close))
  {
    hide CallAt, Rewritten, CallText;
  }

  lemma StepIsDot(l: Lexicon, text: string, i: nat, s: State)
    requires i < |text| && text[i] == '.' && EndsAt(s, i)
    ensures Step(l, text, i, s) == StepDot(l, text, i, s)
  {
  }

  // ----- the written call is the printed call -----

  predicate Solid(s: string) {
    s != "" && !IsSpace(s[0])
  }

  lemma {:induction false} PrintIsSolid(l: Lexicon, e: Expr)
    requires WellFormed(l, e) && SpacesApart(l)
    ensures Solid(Print(e))
    decreases e
  {
    match e
    case Name(id) => assert IsWord(l.letters, id[0]);
    case Str(_, _) =>
    case Group(_, _) =>
    case Attr(object_, _) => PrintIsSolid(l, object_);
    case Apply(callee, _, _) => PrintIsSolid(l, callee);
    case Unary(_, _) =>
    case Binary(left, _, _) => PrintIsSolid(l, left);
  }

  lemma SolidTrims(s: string)
    requires Solid(s)
    ensures Trim(s) != ""
  {
    if TrimEnd(s) == "" {
      BlankIsSpace(s);
    }
  }

  lemma BlankIsSpace(s: string)
    requires TrimEnd(s) == ""
    ensures AllSpace(s)
  {
    var b := TrailingSpace(s);
    assert s == b;
  }

  lemma CallIsPrinted(l: Lexicon, receiver: Expr, name: string, args: seq<Expr>)
    requires AllWellFormed(l, args) && SpacesApart(l)
    ensures CallText(Print(receiver), name, PrintList(args))
         == Print(Apply(Name(HELPER), '(', [receiver, Str('"', name)] + args))
  {
    var items := [receiver, Str('"', name)] + args;
    assert items[1..] == [Str('"', name)] + args;
    assert PrintList(items) == Print(receiver) + (", " + PrintList(items[1..]));
    if args == [] {
      assert Trim("") == "";
    } else {
      assert items[1..][1..] == args;
      PrintIsSolid(l, args[0]);
      assert PrintList(args)[0] == Print(args[0])[0];
      SolidTrims(PrintList(args));
    }
    JoinCall(Print(receiver), name, PrintList(args));
  }

  lemma JoinCall(receiver: string, name: string, args: string)
    ensures "__qdm_call(" + receiver + ", \"" + name + "\")"
         == HELPER + Bracketed('(', receiver + (", " + (['"'] + name + ['"'])))
    ensures "__qdm_call(" + receiver + ", \"" + name + "\", " + args + ")"
         == HELPER + Bracketed('(', receiver + (", " + (['"'] + name + ['"'] + (", " + args))))
  {
    assert "__qdm_call(" == HELPER + ['('];
  }

  // ----- whole expressions -----

  /** The scan is behind the expression and has written its desugaring. */
  ghost predicate Walked(l: Lexicon, e: Expr, text: string, i: nat, s: State, s2: State) {
    var j := i + |Print(e)|;
    && Moves(l, text, i, s, j, s2)
    && s2.out == s.out + Print(Desugar(l, e))
    && s2.changed == (s.changed || Changes(l, e))
    && StopBy(s2, j)
    && (IsPrimary(e) ==> s2.primary == Some(Primary(|s.out|, j)))
  }

  ghost predicate Standing(l: Lexicon, e: Expr, text: string, i: nat, s: State) {
    && WellFormed(l, e) && SpacesApart(l) && At(text, i, Print(e)) && Clear(s, i)
    && EndsHere(l, e, text, i + |Print(e)|)
  }

  lemma {:induction false} Walk(l: Lexicon, e: Expr, text: string, i: nat, s: State) returns (s2: State)
    requires Standing(l, e, text, i, s)
    ensures Walked(l, e, text, i, s, s2)
    decreases e, 1
  {
    hide Moves, CallAhead, WordAhead, RewritesList;
    match e
    case Name(id) =>
      s2 := Fresh(s, id, i + |id|);
      MovesWord(l, text, i, s, id);
    case Str(quote, body) =>
      s2 := Fresh(s, Print(e), i + |Print(e)|);
      MovesString(l, text, i, s, quote, body);
    case Group(b, items) =>
      RewriteList(l, items);
      s2 := Extend(s.(changed := s.changed || AnyChanges(l, items)), i, Print(Desugar(l, e)), i + |Print(e)|);
      MovesGroup(l, items, text, i, s, b);
    case Attr(object_, name) =>
      s2 := WalkAttr(l, object_, name, text, i, s);
    case Apply(callee, b, items) =>
      if IsMethodCall(l, e) {
        s2 := WalkMethod(l, callee.object_, callee.name, items, text, i, s);
      } else {
        s2 := WalkApply(l, callee, b, items, text, i, s);
      }
    case Unary(op, operand) =>
      s2 := WalkUnary(l, op, operand, text, i, s);
    case Binary(left, op, right) =>
      s2 := WalkBinary(l, left, op, right, text, i, s);
  }

  lemma {:induction false} WalkAttr(l: Lexicon, object_: Expr, name: string, text: string, i: nat, s: State) returns (s2: State)
    requires Standing(l, Attr(object_, name), text, i, s)
    ensures Walked(l, Attr(object_, name), text, i, s, s2)
    decreases Attr(object_, name), 0
  {
    var k := i + |Print(object_)|;
    var j := k + 1 + |name|;
    BaseStands(l, object_, "." + name, text, i, s);
    var s1 := Walk(l, object_, text, i, s);
    MovesAttr(l, text, k, s1, name);
    s2 := Extend(s1, k, "." + name, j);
    BaseWalked(l, object_, "." + name, "." + name, text, i, s, s1, j, s2);
  }

  /** A primary in front of a dot or a bracket. */
  lemma BaseStands(l: Lexicon, base: Expr, tail: string, text: string, i: nat, s: State)
    requires WellFormed(l, base) && SpacesApart(l) && Clear(s, i) && At(text, i, Print(base) + tail)
    requires tail != "" && (tail[0] == '.' || tail[0] == '[' || (tail[0] == '(' && !EndsInMethod(l, base)))
    ensures Standing(l, base, text, i, s) && At(text, i + |Print(base)|, tail)
  {
    hide SpacesApart, SkipSpaces, Print;
    var k := i + |Print(base)|;
    AtSplit(text, i, Print(base), tail);
    AtIndex(text, k, tail, 0);
    NoSpaces(text, k);
  }

  /** A primary extended by `tail`, written as `written`. */
  lemma BaseWalked(l: Lexicon, base: Expr, tail: string, written: string, text: string, i: nat, s: State, s1: State, j: nat, s2: State)
    requires IsPrimary(base) && Walked(l, base, text, i, s, s1) && j == i + |Print(base)| + |tail|
    requires Moves(l, text, i + |Print(base)|, s1, j, s2)
    requires s2.out == s1.out + written && s2.primary == Some(Primary(s1.primary.value.start, j))
    ensures Moves(l, text, i, s, j, s2)
    ensures s2.out == s.out + (Print(Desugar(l, base)) + written)
    ensures s2.primary == Some(Primary(|s.out|, j))
  {
    MovesOn(l, text, i, s, i + |Print(base)|, s1, j, s2);
    assert s.out + Print(Desugar(l, base)) + written == s.out + (Print(Desugar(l, base)) + written);
  }

  lemma {:induction false} WalkApply(l: Lexicon, callee: Expr, b: char, items: seq<Expr>, text: string, i: nat, s: State) returns (s2: State)
    requires Standing(l, Apply(callee, b, items), text, i, s) && !IsMethodCall(l, Apply(callee, b, items))
    ensures Walked(l, Apply(callee, b, items), text, i, s, s2)
    decreases Apply(callee, b, items), 0
  {
    hide Moves, RewritesList, Rewritten, At, CallAhead, WordAhead;
    var tail, written := Bracketed(b, PrintList(items)), Bracketed(b, PrintList(DesugarAll(l, items)));
    var k := i + |Print(callee)|;
    var j := k + |tail|;
    BaseStands(l, callee, tail, text, i, s);
    var s1 := Walk(l, callee, text, i, s);
    RewriteList(l, items);
    MovesGroup(l, items, text, k, s1, b);
    s2 := Extend(s1.(changed := s1.changed || AnyChanges(l, items)), k, written, j);
    BaseWalked(l, callee, tail, written, text, i, s, s1, j, s2);
  }

  lemma {:induction false} WalkMethod(l: Lexicon, receiver: Expr, name: string, args: seq<Expr>, text: string, i: nat, s: State) returns (s2: State)
    requires Standing(l, Apply(Attr(receiver, name), '(', args), text, i, s) && name in l.methods
    ensures Walked(l, Apply(Attr(receiver, name), '(', args), text, i, s, s2)
    decreases Apply(Attr(receiver, name), '(', args), 0
  {
    hide Moves, CallText, RewritesList, At, Rewritten;
    var e := Apply(Attr(receiver, name), '(', args);
    assert WellFormed(l, Attr(receiver, name));
    var tail := "." + name + Bracketed('(', PrintList(args));
    assert tail == "." + name + ("" + Bracketed('(', PrintList(args)));
    var k := i + |Print(receiver)|;
    var j := k + |tail|;
    assert Print(e) == Print(receiver) + tail;
    BaseStands(l, receiver, tail, text, i, s);
    var s1 := Walk(l, receiver, text, i, s);
    RewriteList(l, args);
    MovesCall(l, text, k, s1, name, "", args);
    s2 := ReplaceCall(s1, name, PrintList(DesugarAll(l, args)), j);
    MovesOn(l, text, i, s, k, s1, j, s2);
    CallReplaced(l, receiver, name, args, s, s1, j);
    assert Changes(l, e) && Print(Desugar(l, e)) == CallText(Print(Desugar(l, receiver)), name, PrintList(DesugarAll(l, args)));
  }

  lemma CallReplaced(l: Lexicon, receiver: Expr, name: string, args: seq<Expr>, s: State, s1: State, j: nat)
    requires s1.out == s.out + Print(Desugar(l, receiver)) && s1.primary.Some? && s1.primary.value.start == |s.out|
    requires AllWellFormed(l, args) && SpacesApart(l) && name in l.methods
    ensures var call := CallText(Print(Desugar(l, receiver)), name, PrintList(DesugarAll(l, args)));
            && ReplaceCall(s1, name, PrintList(DesugarAll(l, args)), j) == Buffer(s.out + call, Some(Primary(|s.out|, j)), true)
            && Print(Desugar(l, Apply(Attr(receiver, name), '(', args))) == call
  {
    assert s1.out[..|s.out|] == s.out && s1.out[|s.out|..] == Print(Desugar(l, receiver));
    DesugarAllIsClean(l, args);
    CallIsPrinted(l, Desugar(l, receiver), name, DesugarAll(l, args));
  }

  lemma {:induction false} WalkUnary(l: Lexicon, op: string, operand: Expr, text: string, i: nat, s: State) returns (s2: State)
    requires Standing(l, Unary(op, operand), text, i, s)
    ensures Walked(l, Unary(op, operand), text, i, s, s2)
    decreases Unary(op, operand), 0
  {
    hide Moves, At, CallAhead;
    var k := i + |op|;
    AtSplit(text, i, op, Print(operand));
    var s1 := WalkPlain(l, text, i, s, op);
    s2 := Walk(l, operand, text, k, s1);
    MovesOn(l, text, i, s, k, s1, k + |Print(operand)|, s2);
    assert s.out + op + Print(Desugar(l, operand)) == s.out + (op + Print(Desugar(l, operand)));
  }

  lemma OperatorAhead(l: Lexicon, text: string, j: nat, op: string)
    requires IsOperator(op) && At(text, j, " " + op + " ")
    ensures !WordAhead(l, text, j) && !CallAhead(text, j)
  {
    AtIndex(text, j, " " + op + " ", 0);
    AtIndex(text, j, " " + op + " ", 1);
    var n := Run(c => IsSpace(c), text[j..]);
    assert text[j..][1] == op[0];
    assert SkipSpaces(text, j) <= j + 1;
    assert IsPlain(op[0]);
  }

  lemma {:induction false} WalkBinary(l: Lexicon, left: Expr, op: string, right: Expr, text: string, i: nat, s: State) returns (s2: State)
    requires Standing(l, Binary(left, op, right), text, i, s)
    ensures Walked(l, Binary(left, op, right), text, i, s, s2)
    decreases Binary(left, op, right), 0
  {
    hide Moves, At, CallAhead, WordAhead;
    var middle := " " + op + " ";
    var k := i + |Print(left)|;
    var m := k + |middle|;
    LeftStands(l, left, op, Print(right), text, i, s);
    var s0 := Walk(l, left, text, i, s);
    var s1 := WalkPlain(l, text, k, s0, middle);
    s2 := Walk(l, right, text, m, s1);
    ThreePieces(l, text, i, s, k, s0, m, s1, m + |Print(right)|, s2, Print(Desugar(l, left)), middle, Print(Desugar(l, right)));
  }

  lemma LeftStands(l: Lexicon, left: Expr, op: string, last: string, text: string, i: nat, s: State)
    requires WellFormed(l, left) && SpacesApart(l) && Clear(s, i) && IsOperator(op)
    requires At(text, i, Print(left) + ((" " + op + " ") + last))
    ensures Standing(l, left, text, i, s)
    ensures At(text, i + |Print(left)|, " " + op + " ") && At(text, i + |Print(left)| + |op| + 2, last)
  {
    hide SkipSpaces, CallAhead, WordAhead, IsOperator;
    var k := i + |Print(left)|;
    AtSplit(text, i, Print(left), (" " + op + " ") + last);
    MiddleStands(l, text, k, op, last);
  }

  lemma MiddleStands(l: Lexicon, text: string, k: nat, op: string, last: string)
    requires IsOperator(op) && At(text, k, (" " + op + " ") + last)
    ensures At(text, k, " " + op + " ") && At(text, k + |op| + 2, last)
    ensures !WordAhead(l, text, k) && !CallAhead(text, k)
  {
    AtSplit(text, k, " " + op + " ", last);
    OperatorAhead(l, text, k, op);
  }

  lemma ThreePieces(l: Lexicon, text: string, i: nat, s: State, k: nat, s0: State, m: nat, s1: State, j: nat, s2: State, a: string, b: string, c: string)
    requires Moves(l, text, i, s, k, s0) && Moves(l, text, k, s0, m, s1) && Moves(l, text, m, s1, j, s2)
    requires s0.out == s.out + a && s1.out == s0.out + b && s2.out == s1.out + c
    ensures Moves(l, text, i, s, j, s2) && s2.out == s.out + (a + (b + c))
  {
    MovesOn(l, text, i, s, k, s0, m, s1);
    MovesOn(l, text, i, s, m, s1, j, s2);
    assert s.out + a + b + c == s.out + (a + (b + c));
  }

  /** A list, to the end of the text. */
  lemma {:induction false} WalkList(l: Lexicon, es: seq<Expr>, text: string, i: nat, s: State) returns (s2: State)
    requires AllWellFormed(l, es) && SpacesApart(l) && At(text, i, PrintList(es)) && i + |PrintList(es)| == |text|
    requires Clear(s, i)
    ensures Moves(l, text, i, s, |text|, s2)
    ensures s2.out == s.out + PrintList(DesugarAll(l, es)) && s2.changed == (s.changed || AnyChanges(l, es))
    decreases es, 2
  {
    hide Moves, EndsInMethod, Rewritten, IsPrimary, At;
    if es == [] {
      s2 := s;
      MovesNowhere(l, text, i, s);
    } else if |es| == 1 {
      s2 := Walk(l, es[0], text, i, s);
    } else {
      var first, rest := Print(es[0]), PrintList(es[1..]);
      var k := i + |first|;
      ItemStands(l, es[0], rest, text, i, s);
      var s0 := Walk(l, es[0], text, i, s);
      var s1 := WalkPlain(l, text, k, s0, ", ");
      s2 := WalkList(l, es[1..], text, k + 2, s1);
      var written := PrintList(DesugarAll(l, es[1..]));
      ThreePieces(l, text, i, s, k, s0, k + 2, s1, |text|, s2, Print(Desugar(l, es[0])), ", ", written);
      assert DesugarAll(l, es)[1..] == DesugarAll(l, es[1..]);
    }
  }

  lemma ItemStands(l: Lexicon, item: Expr, rest: string, text: string, i: nat, s: State)
    requires WellFormed(l, item) && SpacesApart(l) && Clear(s, i) && At(text, i, Print(item) + (", " + rest))
    ensures Standing(l, item, text, i, s)
    ensures At(text, i + |Print(item)|, ", ") && At(text, i + |Print(item)| + 2, rest)
  {
    var k := i + |Print(item)|;
    AtSplit(text, i, Print(item), ", " + rest);
    AtSplit(text, k, ", ", rest);
    AtIndex(text, k, ", ", 0);
    NoSpaces(text, k);
  }

  lemma {:induction false} RewriteList(l: Lexicon, es: seq<Expr>)
    requires AllWellFormed(l, es) && SpacesApart(l)
    ensures RewritesList(l, es)
    decreases es, 3
  {
    var text := PrintList(es);
    assert At(text, 0, text);
    var s := WalkList(l, es, text, 0, BEGIN);
    MovesToEnd(l, text, s);
    assert BEGIN.out + PrintList(DesugarAll(l, es)) == PrintList(DesugarAll(l, es));
  }

  /** Rewriting the text of an expression gives the text of its desugaring, and
      reports a change exactly when there is a method call in it. */
  lemma RewriteIsDesugaring(l: Lexicon, e: Expr)
    requires WellFormed(l, e) && SpacesApart(l)
    ensures Rewrite(l, Print(e)) == if Changes(l, e) then Some(Print(Desugar(l, e))) else None
    ensures Rewritten(l, Print(e)) == Print(Desugar(l, e))
  {
    OneExpr(l, e);
    RewriteList(l, [e]);
    RewrittenList(l, [e]);
  }

  lemma OneExpr(l: Lexicon, e: Expr)
    requires WellFormed(l, e)
    ensures AllWellFormed(l, [e]) && AnyChanges(l, [e]) == Changes(l, e)
    ensures PrintList([e]) == Print(e)
    ensures DesugarAll(l, [e]) == [Desugar(l, e)] && PrintList(DesugarAll(l, [e])) == Print(Desugar(l, e))
  {
    var one, none: seq<Expr> := [e], [];
    assert one[0] == e && one[1..] == none;
    assert AllWellFormed(l, none) && !AnyChanges(l, none) && DesugarAll(l, none) == none;
  }

  /** A second pass over the result changes nothing. */
  lemma RewriteTwice(l: Lexicon, e: Expr)
    requires WellFormed(l, e) && SpacesApart(l)
    ensures Rewrite(l, Rewritten(l, Print(e))) == None
  {
    RewriteIsDesugaring(l, e);
    DesugarIsClean(l, e);
    RewriteIsDesugaring(l, Desugar(l, e));
  }

  /** However a text is read as an expression, its desugaring prints the same. */
  lemma AnyReadingAgrees(l: Lexicon, a: Expr, b: Expr)
    requires WellFormed(l, a) && WellFormed(l, b) && SpacesApart(l) && Print(a) == Print(b)
    ensures Print(Desugar(l, a)) == Print(Desugar(l, b)) && Changes(l, a) == Changes(l, b)
  {
    RewriteIsDesugaring(l, a);
    RewriteIsDesugaring(l, b);
  }

  lemma WalkSpaced(l: Lexicon, receiver: Expr, name: string, gap: string, args: seq<Expr>, text: string) returns (s2: State)
    requires IsPrimary(receiver) && WellFormed(l, receiver) && IsIdentifier(l, name) && AllWellFormed(l, args)
    requires SpacesApart(l) && name in l.methods && AllSpace(gap)
    requires text == Print(receiver) + ("." + name + (gap + Bracketed('(', PrintList(args))))
    ensures Moves(l, text, 0, BEGIN, |text|, s2)
    ensures Finish(s2) == Some(Print(Desugar(l, Apply(Attr(receiver, name), '(', args))))
  {
    hide Moves, CallText, RewritesList, Rewritten, At, Print, PrintList, Desugar, DesugarAll, WellFormed, SpacesApart, AllSpace;
    var tail := "." + name + (gap + Bracketed('(', PrintList(args)));
    var k := |Print(receiver)|;
    AtStart(text);
    BaseStands(l, receiver, tail, text, 0, BEGIN);
    var s1 := Walk(l, receiver, text, 0, BEGIN);
    RewriteList(l, args);
    MovesCall(l, text, k, s1, name, gap, args);
    s2 := ReplaceCall(s1, name, PrintList(DesugarAll(l, args)), |text|);
    MovesOn(l, text, 0, BEGIN, k, s1, |text|, s2);
    CallReplaced(l, receiver, name, args, BEGIN, s1, |text|);
    var call := Print(Desugar(l, Apply(Attr(receiver, name), '(', args)));
    assert BEGIN.out + call == call;
  }

  /** Blanks between a method's name and its bracket change nothing. */
  lemma BlanksBeforeBracket(l: Lexicon, receiver: Expr, name: string, gap: string, args: seq<Expr>)
    requires WellFormed(l, Apply(Attr(receiver, name), '(', args)) && SpacesApart(l) && name in l.methods && AllSpace(gap)
    ensures Rewrite(l, Print(receiver) + ("." + name + (gap + Bracketed('(', PrintList(args)))))
         == Some(Print(Desugar(l, Apply(Attr(receiver, name), '(', args))))
  {
    hide Moves, Finish, Print, PrintList, Rewrite, AllSpace, SpacesApart;
    assert WellFormed(l, Attr(receiver, name));
    var text := Print(receiver) + ("." + name + (gap + Bracketed('(', PrintList(args))));
    var s2 := WalkSpaced(l, receiver, name, gap, args, text);
    MovesToEnd(l, text, s2);
  }

  lemma AtStart(text: string)
    ensures At(text, 0, text)
  {
  }

  /** The three kinds of brackets all hold what is to be rewritten. */
  lemma BracketsAreGroups(l: Lexicon, e: Expr)
    requires WellFormed(l, e) && SpacesApart(l)
    ensures Rewritten(l, "(" + Print(e) + ")") == "(" + Print(Desugar(l, e)) + ")"
    ensures Rewritten(l, "[" + Print(e) + "]") == "[" + Print(Desugar(l, e)) + "]"
    ensures Rewritten(l, "{" + Print(e) + "}") == "{" + Print(Desugar(l, e)) + "}"
  {
    hide Rewritten, SpacesApart;
    OneExpr(l, e);
    RewriteIsDesugaring(l, Group('(', [e]));
    RewriteIsDesugaring(l, Group('[', [e]));
    RewriteIsDesugaring(l, Group('{', [e]));
  }

  lemma DotAlone(l: Lexicon, text: string, k: nat, s: State)
    requires k + 1 < |text| && text[k] == '.' && EndsAt(s, k) && IsOpen(text[k + 1])
    ensures Moves(l, text, k, s, k + 1, s.(out := s.out + "."))
    ensures Clear(s.(out := s.out + "."), k + 1)
  {
    hide Moves, Step;
    assert text[k + 1..][0] == text[k + 1];
    assert IdentifierEnd(l, text, k + 1) == k + 1;
    assert CallAt(l, text, k) == None;
    StepIsDot(l, text, k, s);
    assert StepDot(l, text, k, s) == Go(k + 1, s.(out := s.out + "."));
    MovesStep(l, text, k, s, Go(k + 1, s.(out := s.out + ".")));
  }

  lemma WalkBehindDot(l: Lexicon, e: Expr, text: string, k: nat, s: State) returns (s2: State)
    requires WellFormed(l, e) && SpacesApart(l) && Print(e) != "" && IsOpen(Print(e)[0])
    requires At(text, k, "." + Print(e)) && k + 1 + |Print(e)| == |text| && EndsAt(s, k)
    ensures Moves(l, text, k, s, |text|, s2)
    ensures s2.out == s.out + ("." + Print(Desugar(l, e))) && s2.changed == (s.changed || Changes(l, e))
  {
    hide Moves, Print, Desugar, Changes, WellFormed, SpacesApart, IsPrimary;
    AtIndex(text, k, "." + Print(e), 0);
    AtIndex(text, k, "." + Print(e), 1);
    AtSplit(text, k, ".", Print(e));
    DotAlone(l, text, k, s);
    NoSpaces(text, |text|);
    var dot := s.(out := s.out + ".");
    s2 := Walk(l, e, text, k + 1, dot);
    MovesOn(l, text, k, s, k + 1, dot, |text|, s2);
    assert s.out + "." + Print(Desugar(l, e)) == s.out + ("." + Print(Desugar(l, e)));
  }

  /** A dot that no name follows is no attribute: what stands behind it begins afresh. */
  lemma DotBeginsAfresh(l: Lexicon, receiver: Expr, e: Expr)
    requires IsPrimary(receiver) && WellFormed(l, receiver) && WellFormed(l, e) && SpacesApart(l) && Print(e) != "" && IsOpen(Print(e)[0])
    ensures var written := Print(Desugar(l, receiver)) + ("." + Print(Desugar(l, e)));
            Rewrite(l, Print(receiver) + ("." + Print(e)))
            == if Changes(l, receiver) || Changes(l, e) then Some(written) else None
  {
    hide Moves, Print, Desugar, Changes, WellFormed, SpacesApart, Rewrite, At, IsOpen;
    var tail := "." + Print(e);
    var text, k := Print(receiver) + tail, |Print(receiver)|;
    AtStart(text);
    BaseStands(l, receiver, tail, text, 0, BEGIN);
    var s1 := Walk(l, receiver, text, 0, BEGIN);
    var s2 := WalkBehindDot(l, e, text, k, s1);
    MovesOn(l, text, 0, BEGIN, k, s1, |text|, s2);
    MovesToEnd(l, text, s2);
    var written := Print(Desugar(l, receiver)) + ("." + Print(Desugar(l, e)));
    assert BEGIN.out + Print(Desugar(l, receiver)) + ("." + Print(Desugar(l, e))) == written;
  }
}
