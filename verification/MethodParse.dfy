/** Reading expressions back: a parser for expressions in the printed layout, which
    undoes `Print` on the trees whose text is unambiguous, and the square it closes:
    parsing the rewritten text is desugaring the parsed text. */
module MethodParse {
  import opened Text
  import opened MethodRewriter
  import opened MethodDesugar
  import opened MethodWalk

  // ----- trees with unambiguous text -----

  predicate IsInk(s: string) {
    forall i :: 0 <= i < |s| ==> !IsSpace(s[i])
  }

  /** One word, or one run of other characters; `not in` is the only operator of two
      words, and `not` alone stands before its operand. */
  predicate IsInfix(l: Lexicon, op: string) {
    || op == "not in"
    || (&& op != "" && op != "not" && AllPlain(op) && IsInk(op)
        && ((forall i :: 0 <= i < |op| ==> IsWord(l.letters, op[i])) || (forall i :: 0 <= i < |op| ==> !IsWord(l.letters, op[i]))))
  }

  predicate IsSign(l: Lexicon, c: char) {
    IsPlain(c) && !IsSpace(c) && !IsWord(l.letters, c)
  }

  predicate IsPrefix(l: Lexicon, op: string) {
    op == "not " || (|op| == 1 && IsSign(l, op[0]))
  }

  /** The chain of operators is kept flat, to the right: which of them binds closer is
      for a later reading to say. */
  predicate Tidy(l: Lexicon, e: Expr)
    decreases e, 0
  {
    match e
    case Name(id) => IsIdentifier(l, id) && id != "not"
    case Str(quote, body) => IsQuote(quote) && Closed(body, quote, false)
    case Group(open, items) => IsOpen(open) && AllTidy(l, items)
    case Attr(object_, name) => IsPrimary(object_) && Tidy(l, object_) && IsIdentifier(l, name)
    case Apply(callee, open, items) =>
      IsPrimary(callee) && Tidy(l, callee) && (open == '(' || open == '[') && AllTidy(l, items)
    case Unary(op, operand) => IsPrefix(l, op) && !operand.Binary? && Tidy(l, operand)
    case Binary(left, op, right) => !left.Binary? && Tidy(l, left) && IsInfix(l, op) && Tidy(l, right)
  }

  predicate AllTidy(l: Lexicon, es: seq<Expr>)
    decreases es, 0
  {
    es == [] || (Tidy(l, es[0]) && AllTidy(l, es[1..]))
  }

  lemma InfixIsOperator(l: Lexicon, op: string)
    requires IsInfix(l, op)
    ensures IsOperator(op)
  {
  }

  lemma {:induction false} TidyIsWellFormed(l: Lexicon, e: Expr)
    requires Tidy(l, e)
    ensures WellFormed(l, e)
    decreases e, 0
  {
    match e
    case Name(_) =>
    case Str(_, _) =>
    case Group(_, items) => TidyListIsWellFormed(l, items);
    case Attr(object_, _) => TidyIsWellFormed(l, object_);
    case Apply(callee, _, items) =>
      TidyIsWellFormed(l, callee);
      TidyListIsWellFormed(l, items);
    case Unary(_, operand) => TidyIsWellFormed(l, operand);
    case Binary(left, op, right) =>
      TidyIsWellFormed(l, left);
      InfixIsOperator(l, op);
      TidyIsWellFormed(l, right);
  }

  lemma {:induction false} TidyListIsWellFormed(l: Lexicon, es: seq<Expr>)
    requires AllTidy(l, es)
    ensures AllWellFormed(l, es)
    decreases es, 0
  {
    if es != [] {
      TidyIsWellFormed(l, es[0]);
      TidyListIsWellFormed(l, es[1..]);
    }
  }

  /** Desugaring leaves tidy trees tidy. */
  lemma {:induction false} DesugarIsTidy(l: Lexicon, e: Expr)
    requires Tidy(l, e)
    ensures Tidy(l, Desugar(l, e))
    ensures (IsPrimary(e) ==> IsPrimary(Desugar(l, e))) && (!e.Binary? ==> !Desugar(l, e).Binary?)
    decreases e, 0
  {
    match e
    case Name(_) =>
    case Str(_, _) =>
    case Group(_, items) => DesugarListIsTidy(l, items);
    case Attr(object_, _) => DesugarIsTidy(l, object_);
    case Apply(callee, _, items) =>
      DesugarIsTidy(l, callee);
      DesugarListIsTidy(l, items);
      if IsMethodCall(l, e) {
        DesugarIsTidy(l, callee.object_);
        IdentifierIsClosed(l, callee.name);
        ArgumentsAreTidy(l, Desugar(l, callee.object_), callee.name, DesugarAll(l, items));
      }
    case Unary(_, operand) => DesugarIsTidy(l, operand);
    case Binary(left, _, right) =>
      DesugarIsTidy(l, left);
      DesugarIsTidy(l, right);
  }

  lemma {:induction false} DesugarListIsTidy(l: Lexicon, es: seq<Expr>)
    requires AllTidy(l, es)
    ensures AllTidy(l, DesugarAll(l, es))
    decreases es, 0
  {
    if es != [] {
      DesugarIsTidy(l, es[0]);
      DesugarListIsTidy(l, es[1..]);
    }
  }

  lemma ArgumentsAreTidy(l: Lexicon, receiver: Expr, name: string, args: seq<Expr>)
    requires Tidy(l, receiver) && Closed(name, '"', false) && AllTidy(l, args)
    ensures AllTidy(l, [receiver, Str('"', name)] + args)
  {
    var all := [receiver, Str('"', name)] + args;
    var rest := all[1..];
    assert rest[0] == Str('"', name) && rest[1..] == args;
    assert AllTidy(l, rest);
  }

  // ----- the parser -----

  datatype Parsed = Parsed(expr: Expr, next: nat)

  datatype Items = Items(exprs: seq<Expr>, next: nat)

  /** The length of the infix operator at `k`, which a space follows. */
  function ReadInfix(l: Lexicon, text: string, k: nat): (r: Option<nat>)
    requires k <= |text|
    ensures r.Some? ==> r.value > 0 && At(text, k + r.value, " ") && IsInfix(l, text[k..k + r.value])
  {
    var n := Run(c => !IsSpace(c), text[k..]);
    if text[k..k + n] == "not" then
      if At(text, k, "not in ") then
        AtSplit(text, k, "not in", " ");
        Some(6)
      else None
    else if At(text, k + n, " ") && IsInfix(l, text[k..k + n]) then Some(n)
    else None
  }

  /** An operand, and as many operators with operands as follow. */
  function ParseExpr(l: Lexicon, text: string, i: nat): (r: Option<Parsed>)
    requires i <= |text|
    ensures r.Some? ==> i < r.value.next <= |text|
    decreases |text| - i, 3
  {
    match ParseOperand(l, text, i)
    case None => None
    case Some(left) =>
      if !At(text, left.next, " ") then Some(left)
      else
        match ReadInfix(l, text, left.next + 1)
        case None => None
        case Some(n) =>
          var k := left.next + 1 + n;
          match ParseExpr(l, text, k + 1)
          case None => None
          case Some(right) => Some(Parsed(Binary(left.expr, text[left.next + 1..k], right.expr), right.next))
  }

  function ParseOperand(l: Lexicon, text: string, i: nat): (r: Option<Parsed>)
    requires i <= |text|
    ensures r.Some? ==> i < r.value.next <= |text|
    decreases |text| - i, 2
  {
    if i == |text| then None
    else if IsQuote(text[i]) then
      match StringEnd(text, i)
      case None => None
      case Some(end) => ParseSuffixes(l, text, end, Str(text[i], text[i + 1..end - 1]))
    else if IsOpen(text[i]) then
      match ParseItems(l, text, i + 1, Closing(text[i]))
      case None => None
      case Some(items) => ParseSuffixes(l, text, items.next, Group(text[i], items.exprs))
    else if IsWord(l.letters, text[i]) then ParseWord(l, text, i)
    else if IsSign(l, text[i]) then ParsePrefixed(l, text, i, 1)
    else None
  }

  function ParseWord(l: Lexicon, text: string, i: nat): (r: Option<Parsed>)
    requires i < |text| && IsWord(l.letters, text[i])
    ensures r.Some? ==> i < r.value.next <= |text|
    decreases |text| - i, 1
  {
    var end := IdentifierEnd(l, text, i);
    assert text[i..][0] == text[i];
    if text[i..end] != "not" then ParseSuffixes(l, text, end, Name(text[i..end]))
    else if At(text, end, " ") then ParsePrefixed(l, text, i, 4)
    else None
  }

  function ParsePrefixed(l: Lexicon, text: string, i: nat, n: nat): (r: Option<Parsed>)
    requires 0 < n && i + n <= |text|
    ensures r.Some? ==> i < r.value.next <= |text|
    decreases |text| - i, 0
  {
    match ParseOperand(l, text, i + n)
    case None => None
    case Some(operand) => Some(Parsed(Unary(text[i..i + n], operand.expr), operand.next))
  }

  /** Attributes, calls and indexing behind `base`. */
  function ParseSuffixes(l: Lexicon, text: string, i: nat, base: Expr): (r: Option<Parsed>)
    requires i <= |text|
    ensures r.Some? ==> i <= r.value.next <= |text|
    decreases |text| - i, 0
  {
    if i == |text| then Some(Parsed(base, i))
    else if text[i] == '.' then
      var end := IdentifierEnd(l, text, i + 1);
      if end == i + 1 then None else ParseSuffixes(l, text, end, Attr(base, text[i + 1..end]))
    else if text[i] == '(' || text[i] == '[' then
      match ParseItems(l, text, i + 1, Closing(text[i]))
      case None => None
      case Some(items) => ParseSuffixes(l, text, items.next, Apply(base, text[i], items.exprs))
    else Some(Parsed(base, i))
  }

  /** The items of a group, up to and with its closing bracket. */
  function ParseItems(l: Lexicon, text: string, i: nat, close: char): (r: Option<Items>)
    requires i <= |text|
    ensures r.Some? ==> i < r.value.next <= |text|
    decreases |text| - i, 5
  {
    if i < |text| && text[i] == close then Some(Items([], i + 1)) else ParseMore(l, text, i, close)
  }

  function ParseMore(l: Lexicon, text: string, i: nat, close: char): (r: Option<Items>)
    requires i <= |text|
    ensures r.Some? ==> i < r.value.next <= |text|
    decreases |text| - i, 4
  {
    match ParseExpr(l, text, i)
    case None => None
    case Some(first) =>
      if first.next < |text| && text[first.next] == close then Some(Items([first.expr], first.next + 1))
      else if !At(text, first.next, ", ") then None
      else
        match ParseMore(l, text, first.next + 2, close)
        case None => None
        case Some(rest) => Some(Items([first.expr] + rest.exprs, rest.next))
  }

  /** The whole text as one expression. */
  function Parse(l: Lexicon, text: string): Option<Expr> {
    match ParseExpr(l, text, 0)
    case None => None
    case Some(parsed) => if parsed.next == |text| then Some(parsed.expr) else None
  }

  // ----- printed trees are read back -----

  /** Where an expression ends: at the end, at a comma or at a closing bracket. */
  predicate Stops(text: string, j: nat) {
    j < |text| ==> text[j] == ',' || IsClose(text[j])
  }

  lemma TidyStart(l: Lexicon, e: Expr)
    requires Tidy(l, e)
    ensures Print(e) != "" && !IsClose(Print(e)[0])
    decreases e
  {
    match e
    case Name(id) => WordIsPlain(l, id); assert IsPlain(id[0]);
    case Str(_, _) =>
    case Group(_, _) =>
    case Attr(object_, _) => TidyStart(l, object_);
    case Apply(callee, _, _) => TidyStart(l, callee);
    case Unary(_, _) =>
    case Binary(left, _, _) => TidyStart(l, left);
  }

  // One step of each function of the parser.

  lemma SuffixIsAttr(l: Lexicon, text: string, i: nat, base: Expr, name: string)
    requires i < |text| && text[i] == '.' && name != "" && At(text, i + 1, name) && IdentifierEnd(l, text, i + 1) == i + 1 + |name|
    ensures ParseSuffixes(l, text, i, base) == ParseSuffixes(l, text, i + 1 + |name|, Attr(base, name))
  {
  }

  lemma SuffixIsApply(l: Lexicon, text: string, i: nat, base: Expr, items: Items)
    requires i < |text| && (text[i] == '(' || text[i] == '[') && ParseItems(l, text, i + 1, Closing(text[i])) == Some(items)
    ensures ParseSuffixes(l, text, i, base) == ParseSuffixes(l, text, items.next, Apply(base, text[i], items.exprs))
  {
  }

  lemma NoSuffix(l: Lexicon, text: string, i: nat, base: Expr)
    requires i <= |text| && (i < |text| ==> text[i] != '.' && text[i] != '(' && text[i] != '[')
    ensures ParseSuffixes(l, text, i, base) == Some(Parsed(base, i))
  {
  }

  lemma OperandIsGroup(l: Lexicon, text: string, i: nat, items: Items)
    requires i < |text| && IsOpen(text[i]) && ParseItems(l, text, i + 1, Closing(text[i])) == Some(items)
    ensures ParseOperand(l, text, i) == ParseSuffixes(l, text, items.next, Group(text[i], items.exprs))
  {
  }

  lemma PrefixedReads(l: Lexicon, text: string, i: nat, op: string, operand: Parsed)
    requires op != "" && At(text, i, op) && ParseOperand(l, text, i + |op|) == Some(operand)
    ensures ParsePrefixed(l, text, i, |op|) == Some(Parsed(Unary(op, operand.expr), operand.next))
  {
  }

  lemma LastItem(l: Lexicon, text: string, i: nat, close: char, item: Parsed)
    requires i <= |text| && ParseExpr(l, text, i) == Some(item) && item.next < |text| && text[item.next] == close
    ensures ParseMore(l, text, i, close) == Some(Items([item.expr], item.next + 1))
  {
  }

  lemma NextItem(l: Lexicon, text: string, i: nat, close: char, item: Parsed, rest: Items)
    requires i <= |text| && ParseExpr(l, text, i) == Some(item) && At(text, item.next, ", ") && close != ','
    requires ParseMore(l, text, item.next + 2, close) == Some(rest)
    ensures ParseMore(l, text, i, close) == Some(Items([item.expr] + rest.exprs, rest.next))
  {
    hide ParseExpr;
    AtIndex(text, item.next, ", ", 0);
  }

  lemma Alone(l: Lexicon, text: string, i: nat, operand: Parsed)
    requires i <= |text| && ParseOperand(l, text, i) == Some(operand) && !At(text, operand.next, " ")
    ensures ParseExpr(l, text, i) == Some(operand)
  {
  }

  lemma Infixed(l: Lexicon, text: string, i: nat, left: Parsed, op: string, right: Parsed)
    requires i <= |text| && ParseOperand(l, text, i) == Some(left) && At(text, left.next, " ")
    requires ReadInfix(l, text, left.next + 1) == Some(|op|) && text[left.next + 1..left.next + 1 + |op|] == op
    requires left.next + |op| + 2 <= |text| && ParseExpr(l, text, left.next + |op| + 2) == Some(right)
    ensures ParseExpr(l, text, i) == Some(Parsed(Binary(left.expr, op, right.expr), right.next))
  {
    hide ParseOperand, ReadInfix, IsInfix, ParseItems, ParseMore, ParseSuffixes, ParseWord;
    var k := left.next + 1 + |op|;
    assert k + 1 == left.next + |op| + 2;
  }

  /** A primary is read up to whatever may extend it. */
  lemma {:induction false} ReadPrimary(l: Lexicon, e: Expr, text: string, i: nat)
    requires Tidy(l, e) && IsPrimary(e) && At(text, i, Print(e)) && !WordAhead(l, text, i + |Print(e)|)
    ensures ParseOperand(l, text, i) == ParseSuffixes(l, text, i + |Print(e)|, e)
    decreases e, 1
  {
    hide ParseExpr, ParseOperand, ParseSuffixes, ParseItems, ParseMore, ParsePrefixed, ParseWord, ReadInfix, Closed, IsWord, IsIdentifier, StringEnd;
    match e
    case Name(id) =>
      ReadName(l, text, i, id);
    case Str(quote, body) =>
      ReadString(l, text, i, quote, body);
    case Group(open, items) =>
      AtBracket(text, i, open, PrintList(items));
      ReadItems(l, items, text, i + 1, Closing(open));
      OperandIsGroup(l, text, i, Items(items, i + |PrintList(items)| + 2));
    case Attr(object_, name) =>
      ReadAttr(l, object_, name, text, i);
    case Apply(callee, open, items) =>
      ReadApply(l, callee, open, items, text, i);
  }

  lemma {:induction false} ReadApply(l: Lexicon, callee: Expr, open: char, items: seq<Expr>, text: string, i: nat)
    requires Tidy(l, Apply(callee, open, items)) && At(text, i, Print(Apply(callee, open, items)))
    ensures ParseOperand(l, text, i) == ParseSuffixes(l, text, i + |Print(Apply(callee, open, items))|, Apply(callee, open, items))
    decreases Apply(callee, open, items), 0
  {
    hide ParseExpr, ParseOperand, ParseSuffixes, ParseItems, ParseMore, ParsePrefixed, ParseWord, ReadInfix;
    var bracket := [open] + PrintList(items) + [Closing(open)];
    var k := i + |Print(callee)|;
    AtSplit(text, i, Print(callee), bracket);
    AtBracket(text, k, open, PrintList(items));
    ReadPrimary(l, callee, text, i);
    ReadItems(l, items, text, k + 1, Closing(open));
    SuffixIsApply(l, text, k, callee, Items(items, k + |PrintList(items)| + 2));
  }

  lemma ReadString(l: Lexicon, text: string, i: nat, quote: char, body: string)
    requires IsQuote(quote) && Closed(body, quote, false) && At(text, i, [quote] + body + [quote])
    ensures ParseOperand(l, text, i) == ParseSuffixes(l, text, i + |body| + 2, Str(quote, body))
  {
    hide ParseExpr, ParseSuffixes, ParseItems, ParseMore, ParsePrefixed, ParseWord, ReadInfix, Closed;
    StringEnds(text, i, quote, body);
    assert [quote] + body + [quote] == [quote] + (body + [quote]);
    AtSplit(text, i, [quote], body + [quote]);
    AtSplit(text, i + 1, body, [quote]);
  }

  lemma ReadName(l: Lexicon, text: string, i: nat, id: string)
    requires IsIdentifier(l, id) && id != "not" && At(text, i, id) && !WordAhead(l, text, i + |id|)
    ensures ParseOperand(l, text, i) == ParseSuffixes(l, text, i + |id|, Name(id))
  {
    WordEnds(l, text, i, id);
    AtIndex(text, i, id, 0);
    WordIsPlain(l, id);
    assert IsPlain(id[0]);
  }

  lemma DotStands(text: string, i: nat, object_: string, name: string)
    requires At(text, i, object_ + ("." + name))
    ensures At(text, i, object_) && At(text, i + |object_| + 1, name) && text[i + |object_|] == '.'
  {
    AtSplit(text, i, object_, "." + name);
    AtSplit(text, i + |object_|, ".", name);
    AtIndex(text, i + |object_|, ".", 0);
  }

  lemma {:induction false} ReadAttr(l: Lexicon, object_: Expr, name: string, text: string, i: nat)
    requires Tidy(l, Attr(object_, name)) && At(text, i, Print(Attr(object_, name)))
    requires !WordAhead(l, text, i + |Print(Attr(object_, name))|)
    ensures ParseOperand(l, text, i) == ParseSuffixes(l, text, i + |Print(Attr(object_, name))|, Attr(object_, name))
    decreases Attr(object_, name), 0
  {
    hide ParseExpr, ParseOperand, ParseSuffixes, ParseItems, ParseMore, ParsePrefixed, ParseWord, ReadInfix, IsOpen, Closing, At, IdentifierEnd;
    var k := i + |Print(object_)|;
    DotStands(text, i, Print(object_), name);
    ReadPrimary(l, object_, text, i);
    WordEnds(l, text, k + 1, name);
    SuffixIsAttr(l, text, k, object_, name);
  }

  lemma {:induction false} ReadItems(l: Lexicon, es: seq<Expr>, text: string, i: nat, close: char)
    requires AllTidy(l, es) && At(text, i, PrintList(es)) && IsClose(close)
    requires i + |PrintList(es)| < |text| && text[i + |PrintList(es)|] == close
    ensures ParseItems(l, text, i, close) == Some(Items(es, i + |PrintList(es)| + 1))
    decreases es, 2
  {
    if es != [] {
      TidyStart(l, es[0]);
      AtIndex(text, i, PrintList(es), 0);
      assert PrintList(es)[0] == Print(es[0])[0];
      ReadMore(l, es, text, i, close);
    }
  }

  lemma {:induction false} ReadMore(l: Lexicon, es: seq<Expr>, text: string, i: nat, close: char)
    requires es != [] && AllTidy(l, es) && At(text, i, PrintList(es)) && IsClose(close)
    requires i + |PrintList(es)| < |text| && text[i + |PrintList(es)|] == close
    ensures ParseMore(l, text, i, close) == Some(Items(es, i + |PrintList(es)| + 1))
    decreases es, 1
  {
    hide ParseExpr, ParseOperand, ParseSuffixes, ParseItems, ParseMore, ParsePrefixed, ParseWord, ReadInfix, Tidy, IsWord, At, Print;
    if |es| == 1 {
      ReadExpr(l, es[0], text, i);
      LastItem(l, text, i, close, Parsed(es[0], i + |Print(es[0])|));
      assert es == [es[0]];
    } else {
      var rest := PrintList(es[1..]);
      var k := i + |Print(es[0])|;
      CommaStands(text, i, Print(es[0]), rest);
      ReadExpr(l, es[0], text, i);
      ReadMore(l, es[1..], text, k + 2, close);
      NextItem(l, text, i, close, Parsed(es[0], k), Items(es[1..], k + 2 + |rest| + 1));
      assert es == [es[0]] + es[1..];
    }
  }

  lemma {:induction false} ReadOperand(l: Lexicon, e: Expr, text: string, i: nat)
    requires Tidy(l, e) && !e.Binary? && At(text, i, Print(e))
    requires Stops(text, i + |Print(e)|) || text[i + |Print(e)|] == ' '
    ensures ParseOperand(l, text, i) == Some(Parsed(e, i + |Print(e)|))
    decreases e, 2
  {
    hide ParseExpr, ParseOperand, ParseSuffixes, ParseItems, ParseMore, ParsePrefixed, ParseWord, ReadInfix;
    if e.Unary? {
      AtSplit(text, i, e.op, Print(e.operand));
      ReadOperand(l, e.operand, text, i + |e.op|);
      ReadPrefix(l, text, i, e.op);
      PrefixedReads(l, text, i, e.op, Parsed(e.operand, i + |Print(e)|));
    } else {
      ReadPrimary(l, e, text, i);
      NoSuffix(l, text, i + |Print(e)|, e);
    }
  }

  lemma ReadPrefix(l: Lexicon, text: string, i: nat, op: string)
    requires IsPrefix(l, op) && At(text, i, op)
    ensures ParseOperand(l, text, i) == ParsePrefixed(l, text, i, |op|)
  {
    hide ParsePrefixed, ParseSuffixes, ParseItems, StringEnd, ParseWord;
    AtIndex(text, i, op, 0);
    if op == "not " {
      ReadNot(l, text, i);
    }
  }

  lemma ReadNot(l: Lexicon, text: string, i: nat)
    requires At(text, i, "not ")
    ensures i < |text| && text[i] == 'n'
    ensures ParseWord(l, text, i) == ParsePrefixed(l, text, i, 4)
  {
    hide ParsePrefixed, ParseSuffixes, ParseItems, IdentifierEnd;
    assert "not " == "not" + " ";
    AtSplit(text, i, "not", " ");
    AtIndex(text, i, "not ", 0);
    AtIndex(text, i + 3, " ", 0);
    var word := "not";
    assert forall k :: 0 <= k < |word| ==> IsWord(l.letters, word[k]);
    WordEnds(l, text, i, word);
  }

  lemma InfixReads(l: Lexicon, text: string, k: nat, op: string)
    requires IsInfix(l, op) && At(text, k, op + " ")
    ensures ReadInfix(l, text, k) == Some(|op|) && text[k..k + |op|] == op
  {
    hide ParseExpr, ParseOperand, ParseSuffixes, ParseItems, ParseMore, ParsePrefixed, ParseWord, AllPlain, IsWord;
    AtSplit(text, k, op, " ");
    AtIndex(text, k + |op|, " ", 0);
    var n := if op == "not in" then 3 else |op|;
    forall j | 0 <= j < n
      ensures !IsSpace(text[k..][j])
    {
      AtIndex(text, k, op, j);
    }
    AtIndex(text, k, op + " ", n);
    assert text[k..][n] == text[k + n];
    assert Run(c => !IsSpace(c), text[k..]) == n;
    if op == "not in" {
      assert text[k..k + 3] == op[..3];
      assert op + " " == "not in ";
    }
  }

  lemma {:induction false} ReadExpr(l: Lexicon, e: Expr, text: string, i: nat)
    requires Tidy(l, e) && At(text, i, Print(e)) && Stops(text, i + |Print(e)|)
    ensures ParseExpr(l, text, i) == Some(Parsed(e, i + |Print(e)|))
    decreases e, 3
  {
    hide ParseExpr, ParseOperand, ParseSuffixes, ParseItems, ParseMore, ParsePrefixed, ParseWord, ReadInfix;
    if e.Binary? {
      ReadBinary(l, e.left, e.op, e.right, text, i);
    } else {
      ReadOperand(l, e, text, i);
      Alone(l, text, i, Parsed(e, i + |Print(e)|));
    }
  }

  lemma InfixStands(text: string, i: nat, left: string, op: string, right: string)
    requires At(text, i, left + ((" " + op + " ") + right))
    ensures var k := i + |left|;
            && At(text, i, left) && At(text, k, " ") && text[k] == ' '
            && At(text, k + 1, op + " ") && At(text, k + |op| + 2, right)
  {
    var k := i + |left|;
    AtSplit(text, i, left, (" " + op + " ") + right);
    AtSplit(text, k, " " + op + " ", right);
    assert " " + op + " " == " " + (op + " ");
    AtSplit(text, k, " ", op + " ");
    AtIndex(text, k, " ", 0);
  }

  lemma {:induction false} ReadBinary(l: Lexicon, left: Expr, op: string, right: Expr, text: string, i: nat)
    requires Tidy(l, Binary(left, op, right)) && At(text, i, Print(left) + ((" " + op + " ") + Print(right)))
    requires Stops(text, i + |Print(left)| + |op| + 2 + |Print(right)|)
    ensures ParseExpr(l, text, i) == Some(Parsed(Binary(left, op, right), i + |Print(left)| + |op| + 2 + |Print(right)|))
    decreases Binary(left, op, right), 2
  {
    hide ParseExpr, ParseOperand, ParseSuffixes, ParseItems, ParseMore, ParsePrefixed, ParseWord, ReadInfix, IsInfix, IsPrefix, IsIdentifier, IsWord, IsPrimary, IsOpen, At, Print;
    var k := i + |Print(left)|;
    InfixStands(text, i, Print(left), op, Print(right));
    ReadOperand(l, left, text, i);
    InfixReads(l, text, k + 1, op);
    ReadExpr(l, right, text, k + |op| + 2);
    Infixed(l, text, i, Parsed(left, k), op, Parsed(right, k + |op| + 2 + |Print(right)|));
  }

  /** Printing and parsing is the identity on tidy trees. */
  lemma ParsePrinted(l: Lexicon, e: Expr)
    requires Tidy(l, e)
    ensures Parse(l, Print(e)) == Some(e)
  {
    assert At(Print(e), 0, Print(e));
    ReadExpr(l, e, Print(e), 0);
  }

  // ----- what is read is a printed tree -----

  predicate Spans(l: Lexicon, e: Expr, text: string, i: nat, j: nat) {
    Tidy(l, e) && i <= j <= |text| && text[i..j] == Print(e)
  }

  predicate ListSpans(l: Lexicon, es: seq<Expr>, text: string, i: nat, j: nat) {
    AllTidy(l, es) && i <= j <= |text| && text[i..j] == PrintList(es)
  }

  lemma Joined(text: string, i: nat, k: nat, j: nat)
    requires i <= k <= j <= |text|
    ensures text[i..j] == text[i..k] + text[k..j]
  {
  }

  lemma {:induction false} StringIsClosed(text: string, i: nat, quote: char, escaped: bool)
    requires i <= |text| && quote != '\\' && StringEndFrom(text, i, quote, escaped).Some?
    ensures var end := StringEndFrom(text, i, quote, escaped).value;
            Closed(text[i..end - 1], quote, escaped) && text[end - 1] == quote
    decreases |text| - i
  {
    var end := StringEndFrom(text, i, quote, escaped).value;
    if escaped || text[i] == '\\' || text[i] != quote {
      StringIsClosed(text, i + 1, quote, !escaped && text[i] == '\\');
      assert text[i..end - 1] == [text[i]] + text[i + 1..end - 1];
      assert text[i..end - 1][1..] == text[i + 1..end - 1];
    }
  }

  lemma {:induction false} WrittenSuffixes(l: Lexicon, text: string, from: nat, i: nat, base: Expr)
    requires Spans(l, base, text, from, i) && IsPrimary(base) && ParseSuffixes(l, text, i, base).Some?
    ensures var parsed := ParseSuffixes(l, text, i, base).value;
            Spans(l, parsed.expr, text, from, parsed.next) && IsPrimary(parsed.expr)
    decreases |text| - i, 0
  {
    if i == |text| {
    } else if text[i] == '.' {
      var end := IdentifierEnd(l, text, i + 1);
      var name := text[i + 1..end];
      AttrSpans(l, text, from, i, base, end);
      WrittenSuffixes(l, text, from, end, Attr(base, name));
    } else if text[i] == '(' || text[i] == '[' {
      WrittenItems(l, text, i + 1, Closing(text[i]));
      var items := ParseItems(l, text, i + 1, Closing(text[i])).value;
      ApplySpans(l, text, from, i, base, items);
      WrittenSuffixes(l, text, from, items.next, Apply(base, text[i], items.exprs));
    }
  }

  lemma AttrSpans(l: Lexicon, text: string, from: nat, i: nat, base: Expr, end: nat)
    requires Spans(l, base, text, from, i) && IsPrimary(base) && i < |text| && text[i] == '.'
    requires end == IdentifierEnd(l, text, i + 1) && end > i + 1
    ensures Spans(l, Attr(base, text[i + 1..end]), text, from, end)
  {
    var name := text[i + 1..end];
    forall k | 0 <= k < |name|
      ensures IsWord(l.letters, name[k])
    {
      assert name[k] == text[i + 1..][k];
    }
    Joined(text, from, i, end);
    assert text[i..end] == "." + name;
  }

  lemma BracketSpans(text: string, i: nat, j: nat, inner: string)
    requires i + 1 < j <= |text| && IsOpen(text[i]) && text[i + 1..j - 1] == inner && text[j - 1] == Closing(text[i])
    ensures text[i..j] == [text[i]] + inner + [Closing(text[i])]
  {
  }

  lemma ApplySpans(l: Lexicon, text: string, from: nat, i: nat, base: Expr, items: Items)
    requires Spans(l, base, text, from, i) && IsPrimary(base) && i < |text| && (text[i] == '(' || text[i] == '[')
    requires i + 1 < items.next <= |text| && ListSpans(l, items.exprs, text, i + 1, items.next - 1)
    requires text[items.next - 1] == Closing(text[i])
    ensures Spans(l, Apply(base, text[i], items.exprs), text, from, items.next)
  {
    BracketSpans(text, i, items.next, PrintList(items.exprs));
    Joined(text, from, i, items.next);
  }

  lemma {:induction false} WrittenItems(l: Lexicon, text: string, i: nat, close: char)
    requires i <= |text| && ParseItems(l, text, i, close).Some?
    ensures var items := ParseItems(l, text, i, close).value;
            ListSpans(l, items.exprs, text, i, items.next - 1) && text[items.next - 1] == close
    decreases |text| - i, 5
  {
    hide ParseExpr, ParseOperand, ParseSuffixes, ParseMore, ParsePrefixed, ParseWord, ReadInfix, Tidy, Print;
    if i < |text| && text[i] == close {
      assert text[i..i] == "";
    } else {
      WrittenMore(l, text, i, close);
    }
  }

  lemma {:induction false} WrittenMore(l: Lexicon, text: string, i: nat, close: char)
    requires i <= |text| && ParseMore(l, text, i, close).Some?
    ensures var items := ParseMore(l, text, i, close).value;
            ListSpans(l, items.exprs, text, i, items.next - 1) && text[items.next - 1] == close && items.exprs != []
    decreases |text| - i, 4
  {
    hide ParseExpr, ParseItems, ParseOperand, Tidy, Print;
    var first := ParseExpr(l, text, i).value;
    WrittenExpr(l, text, i);
    if first.next < |text| && text[first.next] == close {
      assert AllTidy(l, [first.expr]);
    } else {
      WrittenMore(l, text, first.next + 2, close);
      ConsSpans(l, text, i, first, ParseMore(l, text, first.next + 2, close).value);
    }
  }

  lemma ConsSpans(l: Lexicon, text: string, i: nat, first: Parsed, rest: Items)
    requires Spans(l, first.expr, text, i, first.next) && At(text, first.next, ", ")
    requires rest.exprs != [] && first.next + 2 < rest.next && ListSpans(l, rest.exprs, text, first.next + 2, rest.next - 1)
    ensures ListSpans(l, [first.expr] + rest.exprs, text, i, rest.next - 1)
  {
    var all := [first.expr] + rest.exprs;
    assert all[1..] == rest.exprs;
    Joined(text, i, first.next, rest.next - 1);
    Joined(text, first.next, first.next + 2, rest.next - 1);
  }

  lemma {:induction false} WrittenOperand(l: Lexicon, text: string, i: nat)
    requires i <= |text| && ParseOperand(l, text, i).Some?
    ensures var parsed := ParseOperand(l, text, i).value;
            Spans(l, parsed.expr, text, i, parsed.next) && !parsed.expr.Binary?
    decreases |text| - i, 2
  {
    if IsQuote(text[i]) {
      var end := StringEnd(text, i).value;
      StringSpans(l, text, i, end);
      WrittenSuffixes(l, text, i, end, Str(text[i], text[i + 1..end - 1]));
    } else if IsOpen(text[i]) {
      WrittenItems(l, text, i + 1, Closing(text[i]));
      var items := ParseItems(l, text, i + 1, Closing(text[i])).value;
      BracketSpans(text, i, items.next, PrintList(items.exprs));
      WrittenSuffixes(l, text, i, items.next, Group(text[i], items.exprs));
    } else if IsWord(l.letters, text[i]) {
      WrittenWord(l, text, i);
    } else {
      WrittenPrefixed(l, text, i, 1);
    }
  }

  lemma StringSpans(l: Lexicon, text: string, i: nat, end: nat)
    requires i < |text| && IsQuote(text[i]) && StringEnd(text, i) == Some(end)
    ensures Spans(l, Str(text[i], text[i + 1..end - 1]), text, i, end)
  {
    StringIsClosed(text, i + 1, text[i], false);
    assert text[i..end] == [text[i]] + text[i + 1..end - 1] + [text[end - 1]];
  }

  lemma {:induction false} WrittenWord(l: Lexicon, text: string, i: nat)
    requires i < |text| && IsWord(l.letters, text[i]) && ParseWord(l, text, i).Some?
    ensures var parsed := ParseWord(l, text, i).value;
            Spans(l, parsed.expr, text, i, parsed.next) && !parsed.expr.Binary?
    decreases |text| - i, 1
  {
    var end := IdentifierEnd(l, text, i);
    assert text[i..][0] == text[i];
    if text[i..end] != "not" {
      var id := text[i..end];
      forall k | 0 <= k < |id|
        ensures IsWord(l.letters, id[k])
      {
        assert id[k] == text[i..][k];
      }
      WrittenSuffixes(l, text, i, end, Name(id));
    } else {
      assert text[i..i + 4] == text[i..end] + text[end..end + 1];
      WrittenPrefixed(l, text, i, 4);
    }
  }

  lemma {:induction false} WrittenPrefixed(l: Lexicon, text: string, i: nat, n: nat)
    requires 0 < n && i + n <= |text| && IsPrefix(l, text[i..i + n]) && ParsePrefixed(l, text, i, n).Some?
    ensures var parsed := ParsePrefixed(l, text, i, n).value;
            Spans(l, parsed.expr, text, i, parsed.next) && !parsed.expr.Binary?
    decreases |text| - i, 0
  {
    WrittenOperand(l, text, i + n);
    Joined(text, i, i + n, ParsePrefixed(l, text, i, n).value.next);
  }

  lemma {:induction false} WrittenExpr(l: Lexicon, text: string, i: nat)
    requires i <= |text| && ParseExpr(l, text, i).Some?
    ensures var parsed := ParseExpr(l, text, i).value; Spans(l, parsed.expr, text, i, parsed.next)
    decreases |text| - i, 3
  {
    hide ParseOperand, ReadInfix, IsInfix, ParseItems, Tidy, Print, IdentifierEnd;
    WrittenOperand(l, text, i);
    var left := ParseOperand(l, text, i).value;
    if At(text, left.next, " ") {
      var n := ReadInfix(l, text, left.next + 1).value;
      var k := left.next + 1 + n;
      WrittenExpr(l, text, k + 1);
      InfixSpans(l, text, i, left, k, ParseExpr(l, text, k + 1).value);
    }
  }

  lemma InfixSpans(l: Lexicon, text: string, i: nat, left: Parsed, k: nat, right: Parsed)
    requires Spans(l, left.expr, text, i, left.next) && !left.expr.Binary? && At(text, left.next, " ")
    requires left.next + 1 < k && At(text, k, " ") && IsInfix(l, text[left.next + 1..k])
    requires Spans(l, right.expr, text, k + 1, right.next)
    ensures Spans(l, Binary(left.expr, text[left.next + 1..k], right.expr), text, i, right.next)
  {
    hide IsInfix, At, Tidy, Print;
    InfixText(text, i, left.next, k, right.next);
    TidyBinary(l, left.expr, text[left.next + 1..k], right.expr);
  }

  lemma TidyBinary(l: Lexicon, left: Expr, op: string, right: Expr)
    requires !left.Binary? && Tidy(l, left) && IsInfix(l, op) && Tidy(l, right)
    ensures Tidy(l, Binary(left, op, right))
    ensures Print(Binary(left, op, right)) == Print(left) + ((" " + op + " ") + Print(right))
  {
  }

  lemma InfixText(text: string, i: nat, n: nat, k: nat, j: nat)
    requires i <= n < k < j <= |text| && At(text, n, " ") && At(text, k, " ")
    ensures text[i..j] == text[i..n] + ((" " + text[n + 1..k] + " ") + text[k + 1..j])
  {
    Joined(text, i, n, j);
    Joined(text, n, k + 1, j);
    Joined(text, n, k, k + 1);
    Joined(text, n, n + 1, k);
  }

  /** The parser accepts just the texts of tidy trees, and reads the tree. */
  lemma ParsesIffPrinted(l: Lexicon, text: string, e: Expr)
    ensures Parse(l, text) == Some(e) <==> Tidy(l, e) && Print(e) == text
  {
    if Parse(l, text) == Some(e) {
      WrittenExpr(l, text, 0);
      assert text[0..|text|] == text;
    }
    if Tidy(l, e) && Print(e) == text {
      ParsePrinted(l, e);
    }
  }

  // ----- the square -----

  /** Parsing the rewritten text is desugaring the parsed text, for every text that is
      an expression. */
  lemma RewriteThenParse(l: Lexicon, text: string)
    requires SpacesApart(l) && Parse(l, text).Some?
    ensures Parse(l, Rewritten(l, text)) == Some(Desugar(l, Parse(l, text).value))
  {
    var e := Parse(l, text).value;
    ParsesIffPrinted(l, text, e);
    TidyIsWellFormed(l, e);
    RewriteIsDesugaring(l, e);
    DesugarIsTidy(l, e);
    ParsePrinted(l, Desugar(l, e));
  }

  /** No other tidy tree prints as the rewritten text. */
  lemma OnlyTheDesugaring(l: Lexicon, e: Expr, other: Expr)
    requires SpacesApart(l) && Tidy(l, e) && Tidy(l, other) && Print(other) == Rewritten(l, Print(e))
    ensures other == Desugar(l, e)
  {
    ParsePrinted(l, e);
    RewriteThenParse(l, Print(e));
    ParsePrinted(l, other);
  }

  /** What becomes of one of QD's methods. */
  lemma UpperIsCalled(letters: char -> bool)
    requires SpacesApart(QdLexicon(letters))
    ensures Rewrite(QdLexicon(letters), "a.upper()") == Some("__qdm_call(a, \"upper\")")
  {
    hide Rewrite, SpacesApart;
    var l := QdLexicon(letters);
    var none: seq<Expr> := [];
    UpperStands(l);
    RewriteIsDesugaring(l, Apply(Attr(Name("a"), "upper"), '(', none));
    CallIsPrinted(l, Name("a"), "upper", none);
    UpperText();
    assert DesugarAll(l, none) == none && PrintList(none) == "";
  }

  lemma UpperStands(l: Lexicon)
    ensures var call := Apply(Attr(Name("a"), "upper"), '(', []); WellFormed(l, call) && Print(call) == "a.upper()"
  {
    assert IsWord(l.letters, 'a') && forall k :: 0 <= k < 5 ==> IsWord(l.letters, "upper"[k]);
  }

  lemma UpperText()
    ensures CallText("a", "upper", "") == "__qdm_call(a, \"upper\")"
  {
    assert Trim("") == "";
  }
}
