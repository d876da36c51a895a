/** The check that the translator's conditions are put to once the pattern is
    compiled, and what it makes up for: the scan may count the groups wrongly, and
    nothing that passes the check branches on another group than Python does. */
module RegexConditions {
  import opened Text
  import opened RegexTokens
  import opened RegexTranslator
  import opened RegexTranslation
  import Py = PythonRegex
  import Rust = RustRegex

  // ----- the check -----

  datatype Complaint = MissingGroup(group: nat) | OtherGroup(group: nat, name: string)

  /** `names` are the groups of the compiled pattern, the whole match first. */
  predicate Fits(t: Target, names: seq<Option<string>>) {
    t.group < |names| && (t.name.Some? ==> names[t.group] == t.name)
  }

  predicate AllFit(conditions: seq<Target>, names: seq<Option<string>>) {
    forall i :: 0 <= i < |conditions| ==> Fits(conditions[i], names)
  }

  predicate Objects(t: Target, names: seq<Option<string>>, complaint: Complaint) {
    && !Fits(t, names) && complaint.group == t.group
    && (complaint.MissingGroup? <==> t.group >= |names|)
    && (complaint.OtherGroup? ==> t.name == Some(complaint.name))
  }

  /** `check_conditions`: the first condition that does not fit is complained of. */
  method CheckConditions(conditions: seq<Target>, names: seq<Option<string>>) returns (r: Option<Complaint>)
    ensures r.None? <==> AllFit(conditions, names)
    ensures r.Some? ==> exists i :: 0 <= i < |conditions| && AllFit(conditions[..i], names) && Objects(conditions[i], names, r.value)
  {
    if conditions == [] {
      return None;
    }
    for i := 0 to |conditions|
      invariant AllFit(conditions[..i], names)
    {
      var group, name := conditions[i].group, conditions[i].name;
      if group >= |names| {
        assert Objects(conditions[i], names, MissingGroup(group));
        return Some(MissingGroup(group));
      }
      if name.Some? && names[group] != name {
        assert Objects(conditions[i], names, OtherGroup(group, name.value));
        return Some(OtherGroup(group, name.value));
      }
    }
    assert conditions[..|conditions|] == conditions;
    return None;
  }

  // ----- the groups of a pattern -----

  /** The group that a token opens, if it captures. */
  function Opens(token: Token): seq<Option<string>> {
    if !token.Group? then []
    else if token.text == "(" then [None]
    else if |token.text| > 4 && token.text[2] == 'P' && token.text[3] == '<' then [Some(token.text[4..|token.text| - 1])]
    else []
  }

  function Groups(tokens: seq<Token>): seq<Option<string>> {
    if tokens == [] then [] else Opens(tokens[0]) + Groups(tokens[1..])
  }

  lemma NextOpens(u: char -> bool, cs: string, p: Py.Reading)
    requires cs != "" && Py.PyNext(u, cs, p).Some?
    ensures Py.PyNext(u, cs, p).value.reading.groups == p.groups + Opens(Py.PyNext(u, cs, p).value.token)
  {
    assert p.groups + [] == p.groups;
    if p.mode == Outside && cs[0] == '(' {
      GroupOpens(u, cs, p);
    }
  }

  lemma GroupOpens(u: char -> bool, cs: string, p: Py.Reading)
    requires cs != "" && cs[0] == '(' && Py.PyGroup(u, cs, p).Some?
    ensures Py.PyGroup(u, cs, p).value.reading.groups == p.groups + Opens(Py.PyGroup(u, cs, p).value.token)
  {
    assert p.groups + [] == p.groups;
    if |cs| > 2 && cs[1] == '?' && cs[2] != '(' {
      var n := GroupHeader(u, cs).value;
      assert cs[..n][2] == cs[2] && cs[..n] != "(";
      if IsNamedGroup(cs) {
        assert cs[..n][3] == cs[3] && cs[..n][4..n - 1] == cs[4..n - 1];
      }
    }
  }

  /** No two groups have the same name. */
  predicate Distinct(groups: seq<Option<string>>) {
    forall i, j :: 0 <= i < j < |groups| && groups[i].Some? ==> groups[i] != groups[j]
  }

  lemma {:induction false} NamesAreDistinct(u: char -> bool, cs: string, p: Py.Reading)
    requires Py.PyLex(u, cs, p).Some? && Distinct(p.groups)
    ensures Distinct(p.groups + Groups(Py.PyLex(u, cs, p).value))
    decreases |cs|
  {
    if cs == "" {
      assert p.groups + [] == p.groups;
    } else {
      var next := Py.PyNext(u, cs, p).value;
      NextOpens(u, cs, p);
      StaysDistinct(u, cs, p);
      NamesAreDistinct(u, cs[next.length..], next.reading);
      GroupsSplit(u, cs, p);
    }
  }

  lemma StaysDistinct(u: char -> bool, cs: string, p: Py.Reading)
    requires cs != "" && Py.PyNext(u, cs, p).Some? && Distinct(p.groups)
    ensures Distinct(Py.PyNext(u, cs, p).value.reading.groups)
  {
  }

  lemma GroupsSplit(u: char -> bool, cs: string, p: Py.Reading)
    requires cs != "" && Py.PyLex(u, cs, p).Some?
    ensures var next := Py.PyNext(u, cs, p).value;
            p.groups + Groups(Py.PyLex(u, cs, p).value)
            == next.reading.groups + Groups(Py.PyLex(u, cs[next.length..], next.reading).value)
  {
    hide Py.PyNext;
    var next := Py.PyNext(u, cs, p).value;
    var rest := Py.PyLex(u, cs[next.length..], next.reading).value;
    NextOpens(u, cs, p);
    assert Py.PyLex(u, cs, p).value == [next.token] + rest && ([next.token] + rest)[1..] == rest;
    Regroup(p.groups, Opens(next.token), Groups(rest));
  }

  lemma PositionIs(groups: seq<Option<string>>, all: seq<Option<string>>, name: string, i: nat)
    requires groups <= all && Distinct(all) && Position(groups, name).Some?
    requires i < |all| && all[i] == Some(name)
    ensures Position(groups, name) == Some(i)
  {
    var k := Position(groups, name).value;
    assert all[k] == groups[k] == Some(name);
  }

  // ----- one token -----

  /** The only hazard is a wrong number, and the scan is never astray. */
  predicate OnlyMiscounted(u: char -> bool, cs: string, p: Py.Reading, b: Beside)
    decreases |cs|
  {
    !b.astray &&
    (cs == "" ||
     match Py.PyNext(u, cs, p)
     case None => true
     case Some(next) =>
       && (Hazard(u, cs, p, b) ==> Miscounted(u, cs, p, b))
       && OnlyMiscounted(u, cs[next.length..], next.reading, BesideNext(u, cs, p, b)))
  }

  /** Two tokens that are the same but for the number of a condition. */
  predicate Renumbered(a: Token, b: Token) {
    a == b || (a.Condition? && b.Condition?)
  }

  predicate Refers(token: Token, count: nat) {
    token.Condition? ==> token.group <= count
  }

  /** What the scan notes of a token fits exactly when its number is Python's and
      there is such a group. */
  lemma NotedFits(u: char -> bool, cs: string, p: Py.Reading, s: Scan, b: Beside, all: seq<Option<string>>)
    requires Ready(u, cs, p, s, b) && !b.astray && (Hazard(u, cs, p, b) ==> Miscounted(u, cs, p, b))
    requires p.groups <= all && Distinct(all)
    ensures AllFit(ConditionAt(u, cs, s), [None] + all)
       <==> !Hazard(u, cs, p, b) && Refers(Py.PyNext(u, cs, p).value.token, |all|)
  {
    if p.mode == Outside && cs[0] == '(' {
      assert Py.PyNext(u, cs, p) == Py.PyGroup(u, cs, p);
      if IsCondition(cs) && !IsDigit(cs[3]) {
        NamedFits(u, cs, p, s, b, all);
      } else if |cs| > 2 && cs[1] == '?' && cs[2] == '(' {
        NumberedFits(u, cs, p, s, b, all);
      } else if |cs| > 1 && cs[1] == '?' {
        HeaderStart(u, cs, s, GroupHeader(u, cs).value,
                    if IsNamedGroup(cs) && !s.inClass then s.(groups := s.groups + [Some(cs[4..GroupHeader(u, cs).value - 1])]) else s);
      }
    }
  }

  lemma NumberedFits(u: char -> bool, cs: string, p: Py.Reading, s: Scan, b: Beside, all: seq<Option<string>>)
    requires Ready(u, cs, p, s, b) && !b.astray && p.mode == Outside
    requires |cs| > 2 && cs[0] == '(' && cs[1] == '?' && cs[2] == '(' && (|cs| > 3 ==> IsDigit(cs[3]))
    ensures AllFit(ConditionAt(u, cs, s), [None] + all)
       <==> !Hazard(u, cs, p, b) && Refers(Py.PyNext(u, cs, p).value.token, |all|)
  {
    assert Py.PyNext(u, cs, p) == Py.PyCondition(u, cs, p);
    assert |cs| > 3 && cs[3..][0] == cs[3];
    var d := DigitRun(cs[3..]);
    assert cs[3..][d] == cs[3 + d];
    ConditionKind(u, cs);
    var t := Target(DigitsValue(cs[3..][..d]), None);
    assert ConditionAt(u, cs, s) == [t];
    assert AllFit([t], [None] + all) <==> Fits([t][0], [None] + all);
  }

  lemma NamedFits(u: char -> bool, cs: string, p: Py.Reading, s: Scan, b: Beside, all: seq<Option<string>>)
    requires Ready(u, cs, p, s, b) && !b.astray && p.mode == Outside && IsCondition(cs) && !IsDigit(cs[3])
    requires p.groups <= all && Distinct(all)
    ensures AllFit(ConditionAt(u, cs, s), [None] + all)
       <==> !Hazard(u, cs, p, b) && Refers(Py.PyNext(u, cs, p).value.token, |all|)
  {
    hide ConditionAt, Py.PyNext, StepAt;
    var n, i := NameConditionStep(u, cs, p, s);
    var name, names := ConditionName(u, cs), [None] + all;
    var k := Position(p.groups, name).value;
    assert all[k] == p.groups[k] == Some(name);
    assert i < |all| ==> names[i + 1] == all[i];
    if i < |all| && all[i] == Some(name) {
      PositionIs(p.groups, all, name, i);
    }
    var t := Target(i + 1, Some(name));
    assert AllFit([t], names) <==> Fits([t][0], names);
  }

  /** Rust reads the token, perhaps with another number. */
  lemma ReadsRenumbered(u: char -> bool, cs: string, p: Py.Reading, s: Scan, b: Beside, piece: string, s2: Scan)
    requires Ready(u, cs, p, s, b) && !b.astray && (Hazard(u, cs, p, b) ==> Miscounted(u, cs, p, b))
    requires Followed(u, cs, p, s, b, piece, s2)
    ensures var rest := Translate(u, cs[Py.PyNext(u, cs, p).value.length..], s2);
            rest.Ok? ==>
              var r := Rust.RustNext(u, piece + rest.value, b.rust);
              && r.Some? && r.value.length == |piece| && r.value.mode == BesideNext(u, cs, p, b).rust
              && Renumbered(r.value.token, Py.PyNext(u, cs, p).value.token)
  {
    if Hazard(u, cs, p, b) {
      MiscountedReads(u, cs, p, s, b, piece, s2);
    }
  }

  lemma MiscountedReads(u: char -> bool, cs: string, p: Py.Reading, s: Scan, b: Beside, piece: string, s2: Scan)
    requires Ready(u, cs, p, s, b) && !b.astray && p.mode == Outside && IsCondition(cs) && !IsDigit(cs[3])
    requires Followed(u, cs, p, s, b, piece, s2)
    ensures var rest := Translate(u, cs[Py.PyNext(u, cs, p).value.length..], s2);
            rest.Ok? ==>
              var r := Rust.RustNext(u, piece + rest.value, b.rust);
              && r.Some? && r.value.length == |piece| && r.value.mode == BesideNext(u, cs, p, b).rust
              && Renumbered(r.value.token, Py.PyNext(u, cs, p).value.token)
  {
    hide Rust.RustNext, Py.PyNext, StepAt, ConditionAt, Translate, Conditions, Hazard;
    var n, i := NameConditionStep(u, cs, p, s);
    var written := "(?(" + Decimal(i + 1) + ")";
    OneStep(u, cs, s, Step(written, 4 + n, s.(head := false)));
    assert p.groups[|p.groups|..] == [] && b.counted + [] == b.counted;
    assert s2 == s.(head := false);
    var rest := Translate(u, cs[4 + n..], s2);
    if rest.Ok? {
      SamePiece(piece, written, rest.value);
      NameConditionPiece(u, i + 1, rest.value);
    }
  }

  lemma SamePiece(a: string, b: string, rest: string)
    requires a + rest == b + rest
    ensures a == b
  {
    assert |a + rest| == |a| + |rest| && |b + rest| == |b| + |rest|;
    assert (a + rest)[..|a|] == a && (b + rest)[..|a|] == b;
  }

  // ----- the theorem -----

  /** Rust's tokens are Python's, but for the numbers of conditions. */
  predicate AllRenumbered(a: seq<Token>, b: seq<Token>) {
    |a| == |b| && forall i :: 0 <= i < |a| ==> Renumbered(a[i], b[i])
  }

  predicate AllRefer(tokens: seq<Token>, count: nat) {
    forall i :: 0 <= i < |tokens| ==> Refers(tokens[i], count)
  }

  lemma AllFitSplit(a: seq<Target>, b: seq<Target>, names: seq<Option<string>>)
    ensures AllFit(a + b, names) <==> AllFit(a, names) && AllFit(b, names)
  {
    if AllFit(a + b, names) {
      assert forall i :: 0 <= i < |a| ==> a[i] == (a + b)[i];
      assert forall i :: 0 <= i < |b| ==> b[i] == (a + b)[|a| + i];
    }
  }

  lemma AllReferSplit(token: Token, rest: seq<Token>, count: nat)
    ensures AllRefer([token] + rest, count) <==> Refers(token, count) && AllRefer(rest, count)
  {
    var all := [token] + rest;
    assert all[0] == token && all[1..] == rest;
    if AllRefer(all, count) {
      assert forall i :: 0 <= i < |rest| ==> rest[i] == all[i + 1];
    }
  }

  lemma RustStep(u: char -> bool, piece: string, rest: string, mode: Mode, token: Token, next: Mode)
    requires piece != "" && Rust.RustNext(u, piece + rest, mode) == Some(Rust.Next(token, |piece|, next))
    requires Rust.RustLex(u, rest, next).Some?
    ensures Rust.RustLex(u, piece + rest, mode) == Some([token] + Rust.RustLex(u, rest, next).value)
  {
    assert (piece + rest)[|piece|..] == rest;
  }

  lemma {:induction false} CheckedFrom(u: char -> bool, cs: string, p: Py.Reading, s: Scan, b: Beside, all: seq<Option<string>>)
    requires Py.PyLex(u, cs, p).Some? && Synced(p, s, b) && OnlyMiscounted(u, cs, p, b) && NamesCounted(p, b)
    requires all == p.groups + Groups(Py.PyLex(u, cs, p).value) && Distinct(all)
    ensures Translate(u, cs, s).Ok?
    ensures var read := Rust.RustLex(u, Translate(u, cs, s).value, b.rust);
            read.Some? && AllRenumbered(read.value, Py.PyLex(u, cs, p).value)
    ensures AllFit(Conditions(u, cs, s), [None] + all) <==> Safe(u, cs, p, b) && AllRefer(Py.PyLex(u, cs, p).value, |all|)
    decreases |cs|
  {
    if cs != "" {
      hide Py.PyNext, Rust.RustNext, StepAt, ConditionAt, Hazard, Miscounted, AllRefer, AllFit, NamesCounted;
      NeverRefused(u, cs, p, s, b);
      var piece, s2 := Follow(u, cs, p, s, b);
      var next, b2 := Py.PyNext(u, cs, p).value, BesideNext(u, cs, p, b);
      var rest := cs[next.length..];
      NextOpens(u, cs, p);
      GroupsSplit(u, cs, p);
      NamesStayCounted(u, cs, p, b);
      CheckedFrom(u, rest, next.reading, s2, b2, all);
      ReadsRenumbered(u, cs, p, s, b, piece, s2);
      var out := Translate(u, rest, s2).value;
      var token := Rust.RustNext(u, piece + out, b.rust).value.token;
      RustStep(u, piece, out, b.rust, token, b2.rust);
      NotedFits(u, cs, p, s, b, all);
      AllFitSplit(ConditionAt(u, cs, s), Conditions(u, rest, s2), [None] + all);
      AllReferSplit(next.token, Py.PyLex(u, rest, next.reading).value, |all|);
    }
  }

  lemma {:induction false} RenumberedGroups(a: seq<Token>, b: seq<Token>)
    requires AllRenumbered(a, b)
    ensures Groups(a) == Groups(b)
  {
    if a != [] {
      assert Renumbered(a[0], b[0]);
      assert forall i :: 0 <= i < |a| - 1 ==> a[1..][i] == a[i + 1] && b[1..][i] == b[i + 1];
      RenumberedGroups(a[1..], b[1..]);
    }
  }

  /** For every pattern that Python reads and that holds no hazard but wrong numbers:
      the compiled pattern has Python's groups, and its conditions pass the check
      exactly when Rust reads all of Python's tokens and each condition is on a group
      that the pattern has, which is what Python asks of it. */
  lemma CheckedIsReadAlike(u: char -> bool, pattern: string)
    requires Py.PyLex(u, pattern, Py.START).Some? && OnlyMiscounted(u, pattern, Py.START, LEVEL)
    ensures var python := Py.PyLex(u, pattern, Py.START).value;
            && Translate(u, pattern, BEGIN).Ok?
            && var read := Rust.RustLex(u, Translate(u, pattern, BEGIN).value, Outside);
            && read.Some? && Groups(read.value) == Groups(python)
            && (AllFit(Conditions(u, pattern, BEGIN), [None] + Groups(read.value))
                <==> read.value == python && AllRefer(python, |Groups(python)|))
  {
    var python := Py.PyLex(u, pattern, Py.START).value;
    NamesAreDistinct(u, pattern, Py.START);
    assert Py.START.groups + Groups(python) == Groups(python);
    CheckedFrom(u, pattern, Py.START, BEGIN, LEVEL, Groups(python));
    RenumberedGroups(Rust.RustLex(u, Translate(u, pattern, BEGIN).value, Outside).value, python);
    TranslationKeepsTokens(u, pattern);
  }
}
