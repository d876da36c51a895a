/** What the rewriter does to an expression, as a tree: every call of a Python
    method becomes a call of the helper, at every depth, and nothing else moves. */
module MethodDesugar {
  import opened Text
  import opened MethodRewriter

  /** Expressions without filters. A name is also a number. `Group('(', [e])` is
      `(e)`, `Group('[', es)` a list and `Group('{', es)` a mapping, whose pairs are
      binary `:` expressions. `Apply(f, '(', es)` is a call and `Apply(a, '[', es)`
      indexing. Keyword arguments and conditional expressions are binary too. */
  datatype Expr =
    | Name(id: string)
    | Str(quote: char, body: string)
    | Group(open: char, items: seq<Expr>)
    | Attr(object_: Expr, name: string)
    | Apply(callee: Expr, open: char, items: seq<Expr>)
    | Unary(op: string, operand: Expr)
    | Binary(left: Expr, op: string, right: Expr)

  function Print(e: Expr): string
    decreases e, 0
  {
    match e
    case Name(id) => id
    case Str(quote, body) => [quote] + body + [quote]
    case Group(open, items) => [open] + PrintList(items) + [Closing(open)]
    case Attr(object_, name) => Print(object_) + ("." + name)
    case Apply(callee, open, items) => Print(callee) + ([open] + PrintList(items) + [Closing(open)])
    case Unary(op, operand) => op + Print(operand)
    case Binary(left, op, right) => Print(left) + ((" " + op + " ") + Print(right))
  }

  function PrintList(es: seq<Expr>): string
    decreases es, 0
  {
    if es == [] then ""
    else if |es| == 1 then Print(es[0])
    else Print(es[0]) + (", " + PrintList(es[1..]))
  }

  predicate IsPrimary(e: Expr) {
    !e.Unary? && !e.Binary?
  }

  predicate IsIdentifier(l: Lexicon, id: string) {
    id != "" && forall i :: 0 <= i < |id| ==> IsWord(l.letters, id[i])
  }

  /** No quote inside, unless escaped, and no escape left open. */
  predicate Closed(body: string, quote: char, escaped: bool) {
    if body == "" then !escaped
    else if escaped then Closed(body[1..], quote, false)
    else if body[0] == '\\' then Closed(body[1..], quote, true)
    else body[0] != quote && Closed(body[1..], quote, false)
  }

  /** Neither quote, bracket nor dot: the characters of operators and of the words
      that stand for operators. */
  predicate IsPlain(c: char) {
    !IsQuote(c) && !IsOpen(c) && !IsClose(c) && c != '.'
  }

  predicate AllPlain(s: string) {
    forall i :: 0 <= i < |s| ==> IsPlain(s[i])
  }

  predicate IsOperator(op: string) {
    op != "" && AllPlain(op) && !IsSpace(op[0])
  }

  predicate WellFormed(l: Lexicon, e: Expr)
    decreases e, 0
  {
    match e
    case Name(id) => IsIdentifier(l, id)
    case Str(quote, body) => IsQuote(quote) && Closed(body, quote, false)
    case Group(open, items) => IsOpen(open) && AllWellFormed(l, items)
    case Attr(object_, name) => IsPrimary(object_) && WellFormed(l, object_) && IsIdentifier(l, name)
    case Apply(callee, open, items) =>
      IsPrimary(callee) && WellFormed(l, callee) && (open == '(' || open == '[') && AllWellFormed(l, items)
    case Unary(op, operand) =>
      IsOperator(op) && !IsWord(l.letters, op[|op| - 1]) && WellFormed(l, operand)
    case Binary(left, op, right) => WellFormed(l, left) && IsOperator(op) && WellFormed(l, right)
  }

  predicate AllWellFormed(l: Lexicon, es: seq<Expr>)
    decreases es, 0
  {
    es == [] || (WellFormed(l, es[0]) && AllWellFormed(l, es[1..]))
  }

  predicate IsMethodCall(l: Lexicon, e: Expr) {
    e.Apply? && e.open == '(' && e.callee.Attr? && e.callee.name in l.methods
  }

  const HELPER := "__qdm_call"

  /** `recv.m(args)` becomes `__qdm_call(recv, "m", args)`. */
  function Desugar(l: Lexicon, e: Expr): Expr
    decreases e, 0
  {
    match e
    case Name(_) => e
    case Str(_, _) => e
    case Group(open, items) => Group(open, DesugarAll(l, items))
    case Attr(object_, name) => Attr(Desugar(l, object_), name)
    case Apply(callee, open, items) =>
      if IsMethodCall(l, e) then
        Apply(Name(HELPER), '(', [Desugar(l, callee.object_), Str('"', callee.name)] + DesugarAll(l, items))
      else Apply(Desugar(l, callee), open, DesugarAll(l, items))
    case Unary(op, operand) => Unary(op, Desugar(l, operand))
    case Binary(left, op, right) => Binary(Desugar(l, left), op, Desugar(l, right))
  }

  function DesugarAll(l: Lexicon, es: seq<Expr>): (r: seq<Expr>)
    ensures |r| == |es|
    decreases es, 0
  {
    if es == [] then [] else [Desugar(l, es[0])] + DesugarAll(l, es[1..])
  }

  /** A method call somewhere in the tree. */
  predicate Changes(l: Lexicon, e: Expr)
    decreases e, 0
  {
    match e
    case Name(_) => false
    case Str(_, _) => false
    case Group(_, items) => AnyChanges(l, items)
    case Attr(object_, _) => Changes(l, object_)
    case Apply(callee, _, items) => IsMethodCall(l, e) || Changes(l, callee) || AnyChanges(l, items)
    case Unary(_, operand) => Changes(l, operand)
    case Binary(left, _, right) => Changes(l, left) || Changes(l, right)
  }

  predicate AnyChanges(l: Lexicon, es: seq<Expr>)
    decreases es, 0
  {
    es != [] && (Changes(l, es[0]) || AnyChanges(l, es[1..]))
  }

  // ----- the tree side -----

  lemma {:induction false} NothingToDesugar(l: Lexicon, e: Expr)
    requires !Changes(l, e)
    ensures Desugar(l, e) == e
    decreases e, 0
  {
    match e
    case Name(_) =>
    case Str(_, _) =>
    case Group(_, items) => NothingInList(l, items);
    case Attr(object_, _) => NothingToDesugar(l, object_);
    case Apply(callee, _, items) =>
      NothingToDesugar(l, callee);
      NothingInList(l, items);
    case Unary(_, operand) => NothingToDesugar(l, operand);
    case Binary(left, _, right) =>
      NothingToDesugar(l, left);
      NothingToDesugar(l, right);
  }

  lemma {:induction false} NothingInList(l: Lexicon, es: seq<Expr>)
    requires !AnyChanges(l, es)
    ensures DesugarAll(l, es) == es
    decreases es, 0
  {
    if es != [] {
      NothingToDesugar(l, es[0]);
      NothingInList(l, es[1..]);
    }
  }

  lemma {:induction false} IdentifierIsClosed(l: Lexicon, id: string)
    requires forall i :: 0 <= i < |id| ==> IsWord(l.letters, id[i])
    ensures Closed(id, '"', false)
  {
    if id != "" {
      assert IsWord(l.letters, id[0]);
      IdentifierIsClosed(l, id[1..]);
    }
  }

  /** One pass leaves no method call behind, and no malformed tree. */
  lemma {:induction false} DesugarIsClean(l: Lexicon, e: Expr)
    requires WellFormed(l, e)
    ensures WellFormed(l, Desugar(l, e)) && !Changes(l, Desugar(l, e))
    ensures IsPrimary(e) ==> IsPrimary(Desugar(l, e))
    ensures Desugar(l, e).Attr? ==> e.Attr? && e.name == Desugar(l, e).name
    decreases e, 0
  {
    match e
    case Name(_) =>
    case Str(_, _) =>
    case Group(_, items) => DesugarAllIsClean(l, items);
    case Attr(object_, _) => DesugarIsClean(l, object_);
    case Apply(callee, _, items) =>
      DesugarIsClean(l, callee);
      DesugarAllIsClean(l, items);
      if IsMethodCall(l, e) {
        DesugarIsClean(l, callee.object_);
        IdentifierIsClosed(l, callee.name);
        HelperArguments(l, Desugar(l, callee.object_), callee.name, DesugarAll(l, items));
      }
    case Unary(_, operand) => DesugarIsClean(l, operand);
    case Binary(left, _, right) =>
      DesugarIsClean(l, left);
      DesugarIsClean(l, right);
  }

  lemma {:induction false} DesugarAllIsClean(l: Lexicon, es: seq<Expr>)
    requires AllWellFormed(l, es)
    ensures AllWellFormed(l, DesugarAll(l, es)) && !AnyChanges(l, DesugarAll(l, es))
    decreases es, 0
  {
    if es != [] {
      DesugarIsClean(l, es[0]);
      DesugarAllIsClean(l, es[1..]);
    }
  }

  lemma HelperArguments(l: Lexicon, receiver: Expr, name: string, args: seq<Expr>)
    requires WellFormed(l, receiver) && !Changes(l, receiver) && Closed(name, '"', false)
    requires AllWellFormed(l, args) && !AnyChanges(l, args)
    ensures AllWellFormed(l, [receiver, Str('"', name)] + args) && !AnyChanges(l, [receiver, Str('"', name)] + args)
  {
    var all := [receiver, Str('"', name)] + args;
    var rest := all[1..];
    assert rest[0] == Str('"', name) && rest[1..] == args;
    assert !AnyChanges(l, rest) && AllWellFormed(l, rest);
  }

  // ----- the text side: what the scanners make of printed expressions -----

  predicate At(text: string, i: nat, part: string) {
    i + |part| <= |text| && text[i..i + |part|] == part
  }

  lemma AtSplit(text: string, i: nat, a: string, b: string)
    requires At(text, i, a + b)
    ensures At(text, i, a) && At(text, i + |a|, b)
  {
    assert text[i..i + |a|] == (a + b)[..|a|];
    assert text[i + |a|..i + |a| + |b|] == (a + b)[|a|..];
  }

  lemma AtIndex(text: string, i: nat, part: string, k: nat)
    requires At(text, i, part) && k < |part|
    ensures text[i + k] == part[k]
  {
    assert text[i..i + |part|][k] == part[k];
  }

  lemma {:induction false} StringSkip(text: string, i: nat, body: string, quote: char, escaped: bool)
    requires At(text, i, body + [quote]) && Closed(body, quote, escaped) && quote != '\\'
    ensures StringEndFrom(text, i, quote, escaped) == Some(i + |body| + 1)
    decreases |body|
  {
    AtIndex(text, i, body + [quote], 0);
    if body != "" {
      assert body + [quote] == [body[0]] + (body[1..] + [quote]);
      AtSplit(text, i, [body[0]], body[1..] + [quote]);
      StringSkip(text, i + 1, body[1..], quote, !escaped && body[0] == '\\');
    }
  }

  lemma StringEnds(text: string, i: nat, quote: char, body: string)
    requires IsQuote(quote) && Closed(body, quote, false) && At(text, i, [quote] + body + [quote])
    ensures text[i] == quote && StringEnd(text, i) == Some(i + |body| + 2)
  {
    AtIndex(text, i, [quote] + body + [quote], 0);
    assert [quote] + body + [quote] == [quote] + (body + [quote]);
    AtSplit(text, i, [quote], body + [quote]);
    StringSkip(text, i + 1, body, quote, false);
  }

  /** Brackets are counted over `part` as if it were not there. */
  predicate Skipped(text: string, i: nat, part: string, open: char, depth: nat)
    requires At(text, i, part)
  {
    forall t {:trigger Opened(t)} :: t == text ==> GroupEndFrom(t, i, open, depth) == GroupEndFrom(t, i + |part|, open, depth)
  }

  lemma {:induction false} SkipPlain(text: string, i: nat, part: string, open: char, depth: nat)
    requires At(text, i, part) && IsOpen(open)
    requires forall k :: 0 <= k < |part| ==> !IsQuote(part[k]) && !IsOpen(part[k]) && !IsClose(part[k])
    ensures Skipped(text, i, part, open, depth)
    decreases |part|
  {
    assert Opened(text);
    if part != "" {
      AtIndex(text, i, part, 0);
      assert part == [part[0]] + part[1..];
      AtSplit(text, i, [part[0]], part[1..]);
      SkipPlain(text, i + 1, part[1..], open, depth);
    }
  }

  lemma WordIsPlain(l: Lexicon, id: string)
    requires forall i :: 0 <= i < |id| ==> IsWord(l.letters, id[i])
    ensures AllPlain(id)
  {
    forall i | 0 <= i < |id|
      ensures IsPlain(id[i])
    {
      assert IsWord(l.letters, id[i]);
    }
  }

  lemma SkipString(text: string, i: nat, quote: char, body: string, open: char, depth: nat)
    requires IsQuote(quote) && Closed(body, quote, false) && At(text, i, [quote] + body + [quote]) && IsOpen(open)
    ensures Skipped(text, i, [quote] + body + [quote], open, depth)
  {
    assert Opened(text);
    StringEnds(text, i, quote, body);
  }

  lemma {:induction false} SkipExpr(l: Lexicon, e: Expr, text: string, i: nat, open: char, depth: nat)
    requires WellFormed(l, e) && At(text, i, Print(e)) && IsOpen(open) && depth >= 1
    ensures Skipped(text, i, Print(e), open, depth)
    decreases e, 1
  {
    hide Skipped, GroupEnd, IsWord, GroupEndFrom, Closed;
    match e
    case Name(id) =>
      WordIsPlain(l, id);
      SkipPlain(text, i, id, open, depth);
    case Str(quote, body) =>
      SkipString(text, i, quote, body, open, depth);
    case Group(b, items) =>
      SkipBracket(l, items, text, i, b, open, depth);
    case Attr(object_, name) =>
      SkipAttr(l, object_, name, text, i, open, depth);
    case Apply(callee, b, items) =>
      SkipApply(l, callee, b, items, text, i, open, depth);
    case Unary(op, operand) =>
      AtSplit(text, i, op, Print(operand));
      SkipPlain(text, i, op, open, depth);
      SkipExpr(l, operand, text, i + |op|, open, depth);
      SkipTwo(text, i, op, Print(operand), open, depth);
    case Binary(left, op, right) =>
      SkipBinary(l, left, op, right, text, i, open, depth);
  }

  lemma {:induction false} SkipAttr(l: Lexicon, object_: Expr, name: string, text: string, i: nat, open: char, depth: nat)
    requires WellFormed(l, object_) && IsIdentifier(l, name) && At(text, i, Print(object_) + ("." + name))
    requires IsOpen(open) && depth >= 1
    ensures Skipped(text, i, Print(object_) + ("." + name), open, depth)
    decreases Attr(object_, name), 0
  {
    hide Skipped, IsWord;
    AtSplit(text, i, Print(object_), "." + name);
    SkipExpr(l, object_, text, i, open, depth);
    WordIsPlain(l, name);
    SkipPlain(text, i + |Print(object_)|, "." + name, open, depth);
    SkipTwo(text, i, Print(object_), "." + name, open, depth);
  }

  lemma {:induction false} SkipApply(l: Lexicon, callee: Expr, b: char, items: seq<Expr>, text: string, i: nat, open: char, depth: nat)
    requires WellFormed(l, callee) && IsOpen(b) && AllWellFormed(l, items) && IsOpen(open) && depth >= 1
    requires At(text, i, Print(callee) + ([b] + PrintList(items) + [Closing(b)]))
    ensures Skipped(text, i, Print(callee) + ([b] + PrintList(items) + [Closing(b)]), open, depth)
    decreases Apply(callee, b, items), 0
  {
    hide Skipped;
    var bracket := [b] + PrintList(items) + [Closing(b)];
    AtSplit(text, i, Print(callee), bracket);
    SkipExpr(l, callee, text, i, open, depth);
    SkipBracket(l, items, text, i + |Print(callee)|, b, open, depth);
    SkipTwo(text, i, Print(callee), bracket, open, depth);
  }

  lemma {:induction false} SkipBinary(l: Lexicon, left: Expr, op: string, right: Expr, text: string, i: nat, open: char, depth: nat)
    requires WellFormed(l, left) && IsOperator(op) && WellFormed(l, right)
    requires At(text, i, Print(left) + ((" " + op + " ") + Print(right))) && IsOpen(open) && depth >= 1
    ensures Skipped(text, i, Print(left) + ((" " + op + " ") + Print(right)), open, depth)
    decreases Binary(left, op, right), 0
  {
    hide Skipped;
    var middle, last := " " + op + " ", Print(right);
    var at := i + |Print(left)|;
    AtSplit(text, i, Print(left), middle + last);
    AtSplit(text, at, middle, last);
    SkipExpr(l, left, text, i, open, depth);
    SkipPlain(text, at, middle, open, depth);
    SkipExpr(l, right, text, at + |middle|, open, depth);
    SkipTwo(text, at, middle, last, open, depth);
    SkipTwo(text, i, Print(left), middle + last, open, depth);
  }

  lemma SkipTwo(text: string, i: nat, a: string, b: string, open: char, depth: nat)
    requires At(text, i, a + b) && At(text, i, a) && At(text, i + |a|, b)
    requires Skipped(text, i, a, open, depth) && Skipped(text, i + |a|, b, open, depth)
    ensures Skipped(text, i, a + b, open, depth)
  {
    assert Opened(text);
  }

  lemma SkipNothing(text: string, i: nat, open: char, depth: nat)
    requires At(text, i, "")
    ensures Skipped(text, i, "", open, depth)
  {
  }

  lemma {:induction false} SkipBracket(l: Lexicon, items: seq<Expr>, text: string, i: nat, b: char, open: char, depth: nat)
    requires AllWellFormed(l, items) && IsOpen(b) && IsOpen(open) && depth >= 1
    requires At(text, i, [b] + PrintList(items) + [Closing(b)])
    ensures Skipped(text, i, [b] + PrintList(items) + [Closing(b)], open, depth)
    decreases items, 2
  {
    var inner := PrintList(items);
    assert Opened(text);
    AtBracket(text, i, b, inner);
    SkipList(l, items, text, i + 1, open, if b == open then depth + 1 else depth);
  }

  lemma AtBracket(text: string, i: nat, b: char, inner: string)
    requires At(text, i, [b] + inner + [Closing(b)])
    ensures At(text, i + 1, inner) && i + |inner| + 1 < |text|
    ensures text[i] == b && text[i + 1 + |inner|] == Closing(b)
    ensures text[i + 1..i + 1 + |inner|] == inner
  {
    AtSplit(text, i, [b] + inner, [Closing(b)]);
    AtSplit(text, i, [b], inner);
    AtIndex(text, i, [b] + inner + [Closing(b)], 0);
    AtIndex(text, i, [b] + inner + [Closing(b)], |inner| + 1);
  }

  lemma CommaStands(text: string, i: nat, first: string, rest: string)
    requires At(text, i, first + (", " + rest))
    ensures At(text, i, first) && At(text, i + |first|, ", ") && At(text, i + |first| + 2, rest)
    ensures text[i + |first|] == ','
  {
    AtSplit(text, i, first, ", " + rest);
    AtSplit(text, i + |first|, ", ", rest);
    AtIndex(text, i + |first|, ", ", 0);
  }

  lemma {:induction false} SkipList(l: Lexicon, es: seq<Expr>, text: string, i: nat, open: char, depth: nat)
    requires AllWellFormed(l, es) && At(text, i, PrintList(es)) && IsOpen(open) && depth >= 1
    ensures Skipped(text, i, PrintList(es), open, depth)
    decreases es, 1
  {
    hide Skipped, At, GroupEndFrom, Print, WellFormed;
    if |es| == 1 {
      SkipExpr(l, es[0], text, i, open, depth);
    } else if |es| > 1 {
      var first, rest := Print(es[0]), PrintList(es[1..]);
      CommaStands(text, i, first, rest);
      AtSplit(text, i, first, ", " + rest);
      SkipExpr(l, es[0], text, i, open, depth);
      SkipPlain(text, i + |first|, ", ", open, depth);
      SkipList(l, es[1..], text, i + |first| + 2, open, depth);
      SkipTwo(text, i + |first|, ", ", rest, open, depth);
      SkipTwo(text, i, first, ", " + rest, open, depth);
    } else {
      SkipNothing(text, i, open, depth);
    }
  }

  /** So a printed group ends where it should. */
  lemma GroupEnds(l: Lexicon, items: seq<Expr>, text: string, i: nat, b: char)
    requires AllWellFormed(l, items) && IsOpen(b) && At(text, i, [b] + PrintList(items) + [Closing(b)])
    ensures text[i] == b && GroupEnd(text, i) == Some(i + |PrintList(items)| + 2)
  {
    assert Opened(text);
    AtBracket(text, i, b, PrintList(items));
    SkipList(l, items, text, i + 1, b, 1);
  }
}
