/** Greedy wrapping of text on its white space. */
module WordWrap {
  import opened Text

  // ----- words -----

  function WordLength(s: string): (n: nat)
    ensures n <= |s|
    ensures s != "" && !IsSpace(s[0]) ==> n > 0
    ensures forall i :: 0 <= i < n ==> !IsSpace(s[i])
  {
    if s == "" || IsSpace(s[0]) then 0 else 1 + WordLength(s[1..])
  }

  /** `split_whitespace`. */
  function Words(s: string): seq<string>
    decreases |s|
  {
    if s == "" then []
    else if IsSpace(s[0]) then Words(s[1..])
    else [s[..WordLength(s)]] + Words(s[WordLength(s)..])
  }

  predicate IsWordText(w: string) {
    w != "" && forall i :: 0 <= i < |w| ==> !IsSpace(w[i])
  }

  predicate AllWords(words: seq<string>) {
    forall i :: 0 <= i < |words| ==> IsWordText(words[i])
  }

  lemma {:induction false} WordsAreWords(s: string)
    ensures AllWords(Words(s))
    decreases |s|
  {
    if s != "" {
      if IsSpace(s[0]) {
        WordsAreWords(s[1..]);
      } else {
        WordsAreWords(s[WordLength(s)..]);
      }
    }
  }

  // ----- the loop -----

  /** The lines a word longer than the width is broken into, and what is left of it. */
  function Broken(word: string, width: nat): (r: (seq<string>, string))
    requires width > 0
    ensures |r.1| <= width || r.1 == word
    ensures |word| <= width ==> r == ([], word)
    ensures word != "" ==> r.1 != ""
    decreases |word|
  {
    if |word| <= width then ([], word)
    else
      var (pieces, rest) := Broken(word[width..], width);
      ([word[..width]] + pieces, rest)
  }

  /** Where a word that fits or starts a line goes. */
  function Placed(current: string, word: string): string {
    if current == "" then word else current + " " + word
  }

  predicate MustBreakLine(current: string, word: string, width: nat) {
    current != "" && |current| + 1 + |word| > width
  }

  /** The line that a word ends, if it does. */
  function Ended(current: string, word: string, width: nat): seq<string> {
    if MustBreakLine(current, word, width) then [current] else []
  }

  function Begun(current: string, word: string, width: nat): string {
    if MustBreakLine(current, word, width) then "" else current
  }

  function Pieces(word: string, width: nat, breakLong: bool): (seq<string>, string)
    requires width > 0
  {
    if breakLong then Broken(word, width) else ([], word)
  }

  /** The line a word leaves to be continued. */
  function Next(current: string, word: string, width: nat, breakLong: bool): string
    requires width > 0
  {
    Placed(Begun(current, word, width), Pieces(word, width, breakLong).1)
  }

  /** The lines still to come, the line begun with `current` first. */
  function Lines(current: string, words: seq<string>, width: nat, breakLong: bool): seq<string>
    requires width > 0
    decreases |words|
  {
    if words == [] then (if current == "" then [] else [current])
    else
      Ended(current, words[0], width) + Pieces(words[0], width, breakLong).0
      + Lines(Next(current, words[0], width, breakLong), words[1..], width, breakLong)
  }

  function Join(lines: seq<string>, separator: string): string {
    if lines == [] then ""
    else if |lines| == 1 then lines[0]
    else lines[0] + separator + Join(lines[1..], separator)
  }

  /** The filter passes a width of at least one. */
  method Wordwrap(value: string, width: nat, breakLong: bool, wrapstring: string) returns (text: string)
    requires width > 0
    ensures text == Join(Lines("", Words(value), width, breakLong), wrapstring)
  {
    var words := Words(value);
    var lines: seq<string>, current: string := [], "";
    for i := 0 to |words|
      invariant Lines("", words, width, breakLong) == lines + Lines(current, words[i..], width, breakLong)
    {
      var word := words[i];
      NextLines(lines, current, words, i, width, breakLong);
      ghost var next := Next(current, word, width, breakLong);
      if current != "" && |current| + 1 + |word| > width {
        lines, current := lines + [current], "";
      } else {
        assert lines + [] == lines;
      }
      if breakLong {
        lines, word := BreakWord(lines, word, width);
      } else {
        assert lines + [] == lines;
      }
      current := if current == "" then word else current + " " + word;
      assert current == next;
    }
    assert lines + [] == lines;
    if current != "" {
      lines := lines + [current];
    }
    text := Join(lines, wrapstring);
  }

  /** The inner loop. */
  method BreakWord(lines: seq<string>, word: string, width: nat) returns (lines': seq<string>, rest: string)
    requires width > 0
    ensures lines' == lines + Broken(word, width).0 && rest == Broken(word, width).1
  {
    lines', rest := lines, word;
    while |rest| > width
      invariant lines + Broken(word, width).0 == lines' + Broken(rest, width).0
      invariant Broken(rest, width).1 == Broken(word, width).1
      decreases |rest|
    {
      Regroup(lines', [rest[..width]], Broken(rest[width..], width).0);
      lines', rest := lines' + [rest[..width]], rest[width..];
    }
    assert lines' + [] == lines';
  }

  lemma NextLines(before: seq<string>, current: string, words: seq<string>, i: nat, width: nat, breakLong: bool)
    requires width > 0 && i < |words|
    ensures before + Lines(current, words[i..], width, breakLong)
         == before + Ended(current, words[i], width) + Pieces(words[i], width, breakLong).0
            + Lines(Next(current, words[i], width, breakLong), words[i + 1..], width, breakLong)
  {
    hide Ended, Pieces, Next;
    assert words[i..][1..] == words[i + 1..];
    var ended, pieces := Ended(current, words[i], width), Pieces(words[i], width, breakLong).0;
    var rest := Lines(Next(current, words[i], width, breakLong), words[i + 1..], width, breakLong);
    assert Lines(current, words[i..], width, breakLong) == ended + pieces + rest;
    Regroup(before, ended + pieces, rest);
    Regroup(before, ended, pieces);
  }

  // ----- no line is too long -----

  lemma {:induction false} PiecesFit(word: string, width: nat)
    requires width > 0
    ensures forall i :: 0 <= i < |Broken(word, width).0| ==> |Broken(word, width).0[i]| == width
    ensures |Broken(word, width).1| <= width
    decreases |word|
  {
    if |word| > width {
      PiecesFit(word[width..], width);
    }
  }

  /** A line is longer than the width only if long words are not broken and it is one. */
  lemma {:induction false} LinesFit(current: string, words: seq<string>, width: nat, breakLong: bool)
    requires width > 0 && (|current| <= width || !breakLong)
    ensures forall i :: 0 <= i < |Lines(current, words, width, breakLong)| ==>
      var line := Lines(current, words, width, breakLong)[i];
      |line| <= width || (!breakLong && (line in words || line == current))
    decreases |words|
  {
    if words != [] {
      PiecesFit(words[0], width);
      LinesFit(Next(current, words[0], width, breakLong), words[1..], width, breakLong);
    }
  }

  // ----- nothing is lost -----

  function Concat(lines: seq<string>): string {
    if lines == [] then "" else lines[0] + Concat(lines[1..])
  }

  /** The characters that are not white space. */
  function Ink(s: string): string {
    if s == "" then "" else (if IsSpace(s[0]) then "" else [s[0]]) + Ink(s[1..])
  }

  lemma {:induction false} InkOn(a: string, b: string)
    ensures Ink(a + b) == Ink(a) + Ink(b)
  {
    if a == "" {
      assert a + b == b;
    } else {
      assert (a + b)[0] == a[0] && (a + b)[1..] == a[1..] + b;
      InkOn(a[1..], b);
      Regroup(if IsSpace(a[0]) then "" else [a[0]], Ink(a[1..]), Ink(b));
    }
  }

  lemma {:induction false} ConcatOn(a: seq<string>, b: seq<string>)
    ensures Concat(a + b) == Concat(a) + Concat(b)
  {
    if a == [] {
      assert a + b == b;
    } else {
      assert (a + b)[0] == a[0] && (a + b)[1..] == a[1..] + b;
      ConcatOn(a[1..], b);
      Regroup(a[0], Concat(a[1..]), Concat(b));
    }
  }

  lemma {:induction false} PiecesAreTheWord(word: string, width: nat)
    requires width > 0
    ensures Concat(Broken(word, width).0) + Broken(word, width).1 == word
    decreases |word|
  {
    if |word| > width {
      PiecesAreTheWord(word[width..], width);
      var (pieces, rest) := Broken(word[width..], width);
      assert ([word[..width]] + pieces)[1..] == pieces;
      Regroup(word[..width], Concat(pieces), rest);
      assert word == word[..width] + word[width..];
    }
  }

  lemma PlacedInk(current: string, word: string)
    ensures Ink(Placed(current, word)) == Ink(current) + Ink(word)
  {
    if current != "" {
      InkOn(current + " ", word);
      InkOn(current, " ");
      assert Ink(" ") == "" by { assert " "[1..] == ""; }
    }
  }

  function InkAll(lines: seq<string>): string {
    Ink(Concat(lines))
  }

  lemma InkAllOn(a: seq<string>, b: seq<string>)
    ensures InkAll(a + b) == InkAll(a) + InkAll(b)
  {
    ConcatOn(a, b);
    InkOn(Concat(a), Concat(b));
  }

  lemma InkOne(s: string)
    ensures InkAll([s]) == Ink(s)
  {
    assert [s][1..] == [];
    assert Concat([s]) == s;
  }

  lemma PiecesInk(word: string, width: nat, breakLong: bool)
    requires width > 0
    ensures var (pieces, rest) := Pieces(word, width, breakLong); InkAll(pieces) + Ink(rest) == Ink(word)
  {
    var (pieces, rest) := Pieces(word, width, breakLong);
    PiecesAreTheWord(word, width);
    InkOn(Concat(pieces), rest);
  }

  /** A word is broken only at the start of a line. */
  lemma BrokenAtStart(current: string, word: string, width: nat, breakLong: bool)
    requires width > 0
    ensures Pieces(word, width, breakLong).0 == [] || Begun(current, word, width) == ""
    ensures InkAll(Ended(current, word, width)) + Ink(Begun(current, word, width)) == Ink(current)
  {
    InkOne(current);
  }

  lemma StepInk(current: string, word: string, width: nat, breakLong: bool)
    requires width > 0
    ensures InkAll(Ended(current, word, width) + Pieces(word, width, breakLong).0)
            + Ink(Next(current, word, width, breakLong)) == Ink(current) + Ink(word)
  {
    var ended, begun := Ended(current, word, width), Begun(current, word, width);
    var (pieces, rest) := Pieces(word, width, breakLong);
    InkAllOn(ended, pieces);
    PlacedInk(begun, rest);
    PiecesInk(word, width, breakLong);
    BrokenAtStart(current, word, width, breakLong);
    Shuffle(InkAll(ended), InkAll(pieces), Ink(begun), Ink(rest));
  }

  lemma Shuffle(a: string, b: string, c: string, d: string)
    requires b == "" || c == ""
    ensures a + b + (c + d) == a + c + (b + d)
  {
    if b == "" {
      assert a + b == a && b + d == d;
      Regroup(a, c, d);
    } else {
      assert a + c == a && c + d == d;
      Regroup(a, b, d);
    }
  }

  lemma {:induction false} LinesKeepInk(current: string, words: seq<string>, width: nat, breakLong: bool)
    requires width > 0
    ensures InkAll(Lines(current, words, width, breakLong)) == Ink(current) + InkAll(words)
    decreases |words|
  {
    if words == [] {
      if current != "" {
        InkOne(current);
      }
    } else {
      var word, next := words[0], Next(current, words[0], width, breakLong);
      var done := Ended(current, word, width) + Pieces(word, width, breakLong).0;
      LinesKeepInk(next, words[1..], width, breakLong);
      InkAllOn(done, Lines(next, words[1..], width, breakLong));
      StepInk(current, word, width, breakLong);
      InkOn(word, Concat(words[1..]));
      Regroup(InkAll(done), Ink(next), InkAll(words[1..]));
      Regroup(Ink(current), Ink(word), InkAll(words[1..]));
    }
  }

  lemma {:induction false} WordsKeepInk(s: string)
    ensures Ink(Concat(Words(s))) == Ink(s)
    decreases |s|
  {
    if s != "" {
      if IsSpace(s[0]) {
        WordsKeepInk(s[1..]);
      } else {
        var n := WordLength(s);
        WordsKeepInk(s[n..]);
        var words := Words(s[n..]);
        assert ([s[..n]] + words)[1..] == words;
        InkOn(s[..n], Concat(words));
        InkOn(s[..n], s[n..]);
        assert s == s[..n] + s[n..];
      }
    }
  }

  /** Wrapping changes white space only, and with long words broken no line is longer
      than the width. */
  lemma WrappingKeepsText(value: string, width: nat, breakLong: bool)
    requires width > 0
    ensures InkAll(Lines("", Words(value), width, breakLong)) == Ink(value)
    ensures breakLong ==> forall i :: 0 <= i < |Lines("", Words(value), width, true)| ==>
      |Lines("", Words(value), width, true)[i]| <= width
  {
    LinesKeepInk("", Words(value), width, breakLong);
    WordsKeepInk(value);
    LinesFit("", Words(value), width, breakLong);
  }

  // ----- as few lines as possible -----

  /** Words of at least one character, none longer than the width. */
  predicate AllFit(words: seq<string>, width: nat) {
    forall i :: 0 <= i < |words| ==> 0 < |words[i]| <= width
  }

  function Count(current: string, words: seq<string>, width: nat, breakLong: bool): nat
    requires width > 0
  {
    |Lines(current, words, width, breakLong)|
  }

  lemma CountNext(current: string, words: seq<string>, width: nat, breakLong: bool)
    requires width > 0 && words != [] && AllFit(words, width)
    ensures AllFit(words[1..], width)
    ensures Next(current, words[0], width, breakLong) == Placed(Begun(current, words[0], width), words[0])
    ensures Count(current, words, width, breakLong)
         == (if MustBreakLine(current, words[0], width) then 1 else 0)
            + Count(Next(current, words[0], width, breakLong), words[1..], width, breakLong)
  {
    assert Broken(words[0], width) == ([], words[0]);
  }

  /** A shorter beginning of the current line never costs a line. */
  lemma {:induction false} ShorterIsNoWorse(a: string, b: string, words: seq<string>, width: nat, breakLong: bool)
    requires width > 0 && |a| <= |b| <= width && AllFit(words, width)
    ensures Count(a, words, width, breakLong) <= Count(b, words, width, breakLong)
    decreases |words|, 0
  {
    if words != [] {
      CountNext(a, words, width, breakLong);
      CountNext(b, words, width, breakLong);
      var nextA, nextB := Next(a, words[0], width, breakLong), Next(b, words[0], width, breakLong);
      if MustBreakLine(a, words[0], width) == MustBreakLine(b, words[0], width) {
        ShorterIsNoWorse(nextA, nextB, words[1..], width, breakLong);
      } else {
        OneLineMore(nextA, nextB, words[1..], width, breakLong);
      }
    }
  }

  /** Whatever the current line holds, it costs at most one line. */
  lemma {:induction false} OneLineMore(a: string, b: string, words: seq<string>, width: nat, breakLong: bool)
    requires width > 0 && |a| <= width && |b| <= width && AllFit(words, width)
    ensures Count(a, words, width, breakLong) <= 1 + Count(b, words, width, breakLong)
    decreases |words|, 1
  {
    ShorterIsNoWorse("", b, words, width, breakLong);
    if words != [] {
      CountNext(a, words, width, breakLong);
      CountNext("", words, width, breakLong);
      if !MustBreakLine(a, words[0], width) {
        OneLineMore(Placed(a, words[0]), words[0], words[1..], width, breakLong);
      }
    }
  }

  /** One line of words. */
  function Line(words: seq<string>): string {
    Join(words, " ")
  }

  /** A line grown by words. */
  function Grown(current: string, words: seq<string>): (line: string)
    ensures |line| >= |current|
    decreases |words|
  {
    if words == [] then current else Grown(Placed(current, words[0]), words[1..])
  }

  lemma {:induction false} GrownIsLine(current: string, words: seq<string>, width: nat)
    requires AllFit(words, width)
    ensures Grown(current, words) == if words == [] then current else Placed(current, Line(words))
    decreases |words|
  {
    if words != [] {
      GrownIsLine(Placed(current, words[0]), words[1..], width);
      if |words| > 1 && current != "" {
        Regroup(current + " ", words[0] + " ", Line(words[1..]));
        Regroup(current + " ", words[0], " ");
      }
    }
  }

  lemma {:induction false} GrowsWithoutBreak(current: string, line: seq<string>, rest: seq<string>, width: nat, breakLong: bool)
    requires width > 0 && AllFit(line + rest, width) && |Grown(current, line)| <= width
    ensures Count(current, line + rest, width, breakLong) == Count(Grown(current, line), rest, width, breakLong)
    decreases |line|
  {
    if line == [] {
      assert line + rest == rest;
    } else {
      CountNext(current, line + rest, width, breakLong);
      assert (line + rest)[0] == line[0] && (line + rest)[1..] == line[1..] + rest;
      GrowsWithoutBreak(Placed(current, line[0]), line[1..], rest, width, breakLong);
    }
  }

  function Flatten(division: seq<seq<string>>): seq<string> {
    if division == [] then [] else division[0] + Flatten(division[1..])
  }

  /** When no word is longer than the width, no division of the words into lines that
      fit has fewer lines. */
  lemma {:induction false} GreedyIsOptimal(division: seq<seq<string>>, width: nat, breakLong: bool)
    requires width > 0 && AllFit(Flatten(division), width)
    requires forall i :: 0 <= i < |division| ==> |Line(division[i])| <= width
    ensures |Lines("", Flatten(division), width, breakLong)| <= |division|
  {
    if division != [] {
      var line, rest := division[0], Flatten(division[1..]);
      AllFitParts(line, rest, width);
      GreedyIsOptimal(division[1..], width, breakLong);
      GrownIsLine("", line, width);
      GrowsWithoutBreak("", line, rest, width, breakLong);
      OneLineMore(Grown("", line), "", rest, width, breakLong);
    }
  }

  lemma AllFitParts(a: seq<string>, b: seq<string>, width: nat)
    requires AllFit(a + b, width)
    ensures AllFit(a, width) && AllFit(b, width)
  {
    forall i | 0 <= i < |a|
      ensures 0 < |a[i]| <= width
    {
      assert a[i] == (a + b)[i];
    }
    forall i | 0 <= i < |b|
      ensures 0 < |b[i]| <= width
    {
      assert b[i] == (a + b)[|a| + i];
    }
  }

  function Texts(division: seq<seq<string>>): (lines: seq<string>)
    ensures |lines| == |division|
  {
    if division == [] then [] else [Line(division[0])] + Texts(division[1..])
  }

  /** `division` is how the loop lays out `words` after a line that holds `current`. */
  ghost predicate LaysOut(division: seq<seq<string>>, current: seq<string>, words: seq<string>, width: nat, breakLong: bool)
    requires width > 0
  {
    Flatten(division) == current + words && Texts(division) == Lines(Line(current), words, width, breakLong)
  }

  /** The lines are themselves such a division, so the bound is reached. */
  lemma {:induction false} LinesAreADivision(current: seq<string>, words: seq<string>, width: nat, breakLong: bool) returns (division: seq<seq<string>>)
    requires width > 0 && AllFit(current, width) && AllFit(words, width)
    ensures LaysOut(division, current, words, width, breakLong)
    decreases |words|
  {
    if words == [] {
      LineIsBlank(current, width);
      division := if current == [] then [] else [current];
      assert |[current][1..]| == 0;
      assert current + words == current;
    } else if MustBreakLine(Line(current), words[0], width) {
      var rest := LinesAreADivision([words[0]], words[1..], width, breakLong);
      division := [current] + rest;
      LineEnds(rest, current, words, width, breakLong);
    } else {
      division := LinesAreADivision(current + [words[0]], words[1..], width, breakLong);
      LineGoesOn(division, current, words, width, breakLong);
    }
  }

  lemma LineEnds(rest: seq<seq<string>>, current: seq<string>, words: seq<string>, width: nat, breakLong: bool)
    requires width > 0 && AllFit(words, width) && words != [] && MustBreakLine(Line(current), words[0], width)
    requires LaysOut(rest, [words[0]], words[1..], width, breakLong)
    ensures LaysOut([current] + rest, current, words, width, breakLong)
  {
    LinesNext(Line(current), words, width, breakLong);
    assert ([current] + rest)[1..] == rest;
    assert [words[0]] + words[1..] == words;
  }

  lemma LineGoesOn(division: seq<seq<string>>, current: seq<string>, words: seq<string>, width: nat, breakLong: bool)
    requires width > 0 && AllFit(current, width) && AllFit(words, width) && words != []
    requires !MustBreakLine(Line(current), words[0], width)
    requires LaysOut(division, current + [words[0]], words[1..], width, breakLong)
    ensures LaysOut(division, current, words, width, breakLong)
  {
    LinesNext(Line(current), words, width, breakLong);
    LineOn(current, words[0]);
    assert current + [words[0]] + words[1..] == current + words;
  }

  lemma LineIsBlank(words: seq<string>, width: nat)
    requires AllFit(words, width)
    ensures Line(words) == "" <==> words == []
  {
    if words != [] {
      LineOn(words[..|words| - 1], words[|words| - 1]);
      assert words[..|words| - 1] + [words[|words| - 1]] == words;
    }
  }

  lemma LinesNext(current: string, words: seq<string>, width: nat, breakLong: bool)
    requires width > 0 && words != [] && AllFit(words, width)
    ensures Lines(current, words, width, breakLong)
         == Ended(current, words[0], width)
            + Lines(Placed(Begun(current, words[0], width), words[0]), words[1..], width, breakLong)
  {
    CountNext(current, words, width, breakLong);
    assert Ended(current, words[0], width) + [] == Ended(current, words[0], width);
    assert Pieces(words[0], width, breakLong).0 == [];
  }

  lemma {:induction false} LineOn(words: seq<string>, word: string)
    requires word != "" && forall i :: 0 <= i < |words| ==> words[i] != ""
    ensures Line(words + [word]) == Placed(Line(words), word)
    ensures words != [] ==> Line(words) != ""
  {
    if words != [] {
      assert (words + [word])[1..] == words[1..] + [word];
      LineOn(words[1..], word);
      if |words| > 1 {
        Regroup(words[0] + " ", Line(words[1..]) + " ", word);
        Regroup(words[0] + " ", Line(words[1..]), " ");
      }
    }
  }
}
