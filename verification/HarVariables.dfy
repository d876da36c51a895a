/** The inputs of a template: the variables that must be supplied before it runs. */
module HarVariables {
  import opened Text

  /** An extraction rule stores what its pattern finds under its name. */
  datatype Rule = Rule(name: string, pattern: string)

  /** An entry's templated fields, in the order they are visited, and its rules. */
  datatype HarEntry = HarEntry(fields: seq<string>, rules: seq<Rule>)

  /** The expression engine, which is not part of this model: the names a field reads,
      and the names the engine resolves by itself. */
  datatype Engine = Engine(undeclared: string -> seq<string>, known: set<string>)

  // ----- what the listing is -----

  function Reads(e: Engine, fields: seq<string>): seq<string> {
    if fields == [] then [] else Reads(e, fields[..|fields| - 1]) + e.undeclared(fields[|fields| - 1])
  }

  function RuleNames(rules: seq<Rule>): set<string> {
    set i | 0 <= i < |rules| :: rules[i].name
  }

  /** The names that rules of these entries mention. */
  function Mentioned(entries: seq<HarEntry>): set<string> {
    if entries == [] then {} else Mentioned(entries[..|entries| - 1]) + RuleNames(entries[|entries| - 1].rules)
  }

  function Without(names: seq<string>, dropped: set<string>): seq<string> {
    if names == [] then []
    else
      var rest, last := Without(names[..|names| - 1], dropped), names[|names| - 1];
      if last in dropped then rest else rest + [last]
  }

  /** Every read of a name that is neither known nor mentioned by an earlier entry. */
  function Inputs(e: Engine, entries: seq<HarEntry>): seq<string> {
    if entries == [] then []
    else
      var front, last := entries[..|entries| - 1], entries[|entries| - 1];
      Inputs(e, front) + Without(Reads(e, last.fields), e.known + Mentioned(front))
  }

  /** Each name where it first stands. */
  function Distinct(names: seq<string>): seq<string> {
    if names == [] then []
    else
      var rest, last := Distinct(names[..|names| - 1]), names[|names| - 1];
      if last in rest then rest else rest + [last]
  }

  method Variables(e: Engine, entries: seq<HarEntry>) returns (variables: seq<string>)
    ensures variables == Distinct(Inputs(e, entries))
  {
    var extracted: set<string>, seen: set<string> := {}, {};
    variables := [];
    for i := 0 to |entries|
      invariant extracted == Mentioned(entries[..i])
      invariant variables == Distinct(Inputs(e, entries[..i]))
      invariant forall name :: name in seen <==> name in variables
    {
      var entry := entries[i];
      assert entries[..i + 1][..i] == entries[..i];
      var found := FoundIn(e, entry.fields);
      variables, seen := AddNew(e.known + extracted, found, variables, seen, Inputs(e, entries[..i]));
      extracted := AddRuleNames(extracted, entry.rules);
    }
    assert entries[..|entries|] == entries;
  }

  method AddRuleNames(extracted: set<string>, rules: seq<Rule>) returns (extracted': set<string>)
    ensures extracted' == extracted + RuleNames(rules)
  {
    extracted' := extracted;
    for k := 0 to |rules|
      invariant extracted' == extracted + RuleNames(rules[..k])
    {
      assert RuleNames(rules[..k + 1]) == RuleNames(rules[..k]) + {rules[k].name};
      extracted' := extracted' + {rules[k].name};
    }
    assert rules[..|rules|] == rules;
  }

  method FoundIn(e: Engine, fields: seq<string>) returns (found: seq<string>)
    ensures found == Reads(e, fields)
  {
    found := [];
    for i := 0 to |fields|
      invariant found == Reads(e, fields[..i])
    {
      assert fields[..i + 1][..i] == fields[..i];
      found := found + e.undeclared(fields[i]);
    }
    assert fields[..|fields|] == fields;
  }

  /** The loop over the names an entry reads. */
  method AddNew(dropped: set<string>, found: seq<string>, variables: seq<string>, seen: set<string>, ghost inputs: seq<string>)
    returns (variables': seq<string>, seen': set<string>)
    requires variables == Distinct(inputs) && forall name :: name in seen <==> name in variables
    ensures variables' == Distinct(inputs + Without(found, dropped))
    ensures forall name :: name in seen' <==> name in variables'
  {
    variables', seen' := variables, seen;
    assert inputs + [] == inputs;
    for k := 0 to |found|
      invariant variables' == Distinct(inputs + Without(found[..k], dropped))
      invariant forall name :: name in seen' <==> name in variables'
    {
      var name := found[k];
      assert found[..k + 1][..k] == found[..k];
      if name in dropped {
        continue;
      }
      OneMore(inputs, Without(found[..k], dropped), name);
      if name !in seen' {
        seen', variables' := seen' + {name}, variables' + [name];
      }
    }
    assert found[..|found|] == found;
  }

  lemma OneMore(a: seq<string>, b: seq<string>, name: string)
    ensures Distinct(a + (b + [name])) == if name in Distinct(a + b) then Distinct(a + b) else Distinct(a + b) + [name]
  {
    var all := a + (b + [name]);
    assert all[..|all| - 1] == a + b;
  }

  // ----- the listing has no duplicates, and is in order of first appearance -----

  function FirstIndex(names: seq<string>, name: string): (i: nat)
    requires name in names
    ensures i < |names| && names[i] == name && forall j :: 0 <= j < i ==> names[j] != name
  {
    if names[0] == name then 0
    else
      var rest := FirstIndex(names[1..], name);
      assert forall j :: 0 < j < rest + 1 ==> names[j] == names[1..][j - 1];
      rest + 1
  }

  lemma {:induction false} SameNames(names: seq<string>, name: string)
    ensures name in Distinct(names) <==> name in names
  {
    if names != [] {
      SameNames(names[..|names| - 1], name);
      assert names == names[..|names| - 1] + [names[|names| - 1]];
    }
  }

  lemma FirstStays(names: seq<string>, last: string, name: string)
    requires name in names
    ensures FirstIndex(names + [last], name) == FirstIndex(names, name)
  {
    var i := FirstIndex(names, name);
    assert (names + [last])[i] == name;
    assert forall j :: 0 <= j < |names| ==> (names + [last])[j] == names[j];
  }

  lemma {:induction false} InOrder(names: seq<string>, i: nat, j: nat)
    requires i < j < |Distinct(names)|
    ensures Distinct(names)[i] in names && Distinct(names)[j] in names
    ensures FirstIndex(names, Distinct(names)[i]) < FirstIndex(names, Distinct(names)[j])
  {
    var front, last := names[..|names| - 1], names[|names| - 1];
    var listed := Distinct(names);
    assert names == front + [last];
    SameNames(names, listed[i]);
    SameNames(names, listed[j]);
    SameNames(front, listed[i]);
    SameNames(front, last);
    FirstStays(front, last, listed[i]);
    if j < |Distinct(front)| {
      InOrder(front, i, j);
      FirstStays(front, last, listed[j]);
    } else {
      assert listed[j] == last && last !in front;
    }
  }

  // ----- what a run needs -----

  /** Whether a rule's pattern finds something in the response to its entry. */
  type Matches = (HarEntry, Rule) -> bool

  /** A rule without a pattern or with a blank name stores nothing. */
  predicate Stores(m: Matches, entry: HarEntry, rule: Rule) {
    rule.pattern != "" && Trim(rule.name) != "" && m(entry, rule)
  }

  function StoredBy(m: Matches, entry: HarEntry): set<string> {
    set i | 0 <= i < |entry.rules| && Stores(m, entry, entry.rules[i]) :: entry.rules[i].name
  }

  function Stored(m: Matches, entries: seq<HarEntry>): set<string> {
    if entries == [] then {} else Stored(m, entries[..|entries| - 1]) + StoredBy(m, entries[|entries| - 1])
  }

  /** Run in order with `supplied` variables, no entry's fields read a name that is not
      known, supplied or stored by then. */
  predicate AllDefined(e: Engine, m: Matches, entries: seq<HarEntry>, supplied: set<string>) {
    entries == [] ||
    (var front, last := entries[..|entries| - 1], entries[|entries| - 1];
     && AllDefined(e, m, front, supplied)
     && forall name :: name in Reads(e, last.fields) ==> name in e.known + supplied + Stored(m, front))
  }

  /** A read that the listing takes for extracted although no earlier rule stored it. */
  ghost predicate HollowRead(e: Engine, m: Matches, entries: seq<HarEntry>, name: string) {
    entries != [] &&
    var front, last := entries[..|entries| - 1], entries[|entries| - 1];
    || HollowRead(e, m, front, name)
    || (name in Reads(e, last.fields) && name !in e.known && name in Mentioned(front) && name !in Stored(m, front))
  }

  lemma {:induction false} WithoutHas(names: seq<string>, dropped: set<string>, name: string)
    ensures name in Without(names, dropped) <==> name in names && name !in dropped
  {
    if names != [] {
      WithoutHas(names[..|names| - 1], dropped, name);
      assert names == names[..|names| - 1] + [names[|names| - 1]];
    }
  }

  lemma {:induction false} StoredIsMentioned(m: Matches, entries: seq<HarEntry>)
    ensures Stored(m, entries) <= Mentioned(entries)
  {
    if entries != [] {
      StoredIsMentioned(m, entries[..|entries| - 1]);
    }
  }

  /** The names a run needs are the listed ones and those of hollow reads. */
  lemma {:induction false} NeededNames(e: Engine, m: Matches, entries: seq<HarEntry>, supplied: set<string>)
    ensures AllDefined(e, m, entries, supplied)
       <==> forall name :: name in Inputs(e, entries) || HollowRead(e, m, entries, name) ==> name in supplied
  {
    if entries != [] {
      var front, last := entries[..|entries| - 1], entries[|entries| - 1];
      NeededNames(e, m, front, supplied);
      StoredIsMentioned(m, front);
      forall name
        ensures name in Inputs(e, entries) <==>
          name in Inputs(e, front) || (name in Reads(e, last.fields) && name !in e.known + Mentioned(front))
      {
        WithoutHas(Reads(e, last.fields), e.known + Mentioned(front), name);
      }
    }
  }

  predicate Covers(supplied: set<string>, names: seq<string>) {
    forall name :: name in names ==> name in supplied
  }

  /** Whatever is supplied, all reads are defined if and only if it holds every listed
      variable. */
  ghost predicate Exact(e: Engine, m: Matches, entries: seq<HarEntry>) {
    forall supplied :: AllDefined(e, m, entries, supplied) <==> Covers(supplied, Distinct(Inputs(e, entries)))
  }

  lemma DefinedIff(e: Engine, m: Matches, entries: seq<HarEntry>, supplied: set<string>)
    ensures AllDefined(e, m, entries, supplied)
       <==> Covers(supplied, Distinct(Inputs(e, entries))) && forall name :: HollowRead(e, m, entries, name) ==> name in supplied
  {
    NeededNames(e, m, entries, supplied);
    forall name
      ensures name in Distinct(Inputs(e, entries)) <==> name in Inputs(e, entries)
    {
      SameNames(Inputs(e, entries), name);
    }
  }

  /** The listing is what a run needs, no more and no less, exactly when every hollow
      read is of a name that is listed anyway. */
  lemma ListingIsExactIff(e: Engine, m: Matches, entries: seq<HarEntry>)
    ensures Exact(e, m, entries) <==> forall name :: HollowRead(e, m, entries, name) ==> name in Distinct(Inputs(e, entries))
  {
    var names := Distinct(Inputs(e, entries));
    var listed := set name | name in names;
    DefinedIff(e, m, entries, listed);
    if Exact(e, m, entries) {
      assert Covers(listed, names);
      assert AllDefined(e, m, entries, listed);
    }
    if forall name :: HollowRead(e, m, entries, name) ==> name in names {
      forall supplied
        ensures AllDefined(e, m, entries, supplied) <==> Covers(supplied, names)
      {
        DefinedIff(e, m, entries, supplied);
      }
    }
  }

  /** When every rule stores something, none is. */
  lemma {:induction false} NoHollowReads(e: Engine, m: Matches, entries: seq<HarEntry>)
    requires forall i, k :: 0 <= i < |entries| && 0 <= k < |entries[i].rules| ==> Stores(m, entries[i], entries[i].rules[k])
    ensures Stored(m, entries) == Mentioned(entries)
    ensures forall name :: !HollowRead(e, m, entries, name)
  {
    if entries != [] {
      var front, last := entries[..|entries| - 1], entries[|entries| - 1];
      NoHollowReads(e, m, front);
      assert StoredBy(m, last) == RuleNames(last.rules);
    }
  }

  lemma ListingIsExact(e: Engine, m: Matches, entries: seq<HarEntry>)
    requires forall i, k :: 0 <= i < |entries| && 0 <= k < |entries[i].rules| ==> Stores(m, entries[i], entries[i].rules[k])
    ensures Exact(e, m, entries)
  {
    NoHollowReads(e, m, entries);
    ListingIsExactIff(e, m, entries);
  }

  /** A rule without a pattern stores nothing, but takes its name off the listing. */
  lemma EmptyPatternHidesAnInput(m: Matches, name: string)
    ensures var e := Engine(field => [field], {});
            var entries := [HarEntry([], [Rule(name, "")]), HarEntry([name], [])];
            Distinct(Inputs(e, entries)) == [] && !AllDefined(e, m, entries, {})
  {
    var e := Engine(field => [field], {});
    var first, second := HarEntry([], [Rule(name, "")]), HarEntry([name], []);
    var entries := [first, second];
    assert entries[..1] == [first] && [first][..0] == [] && [name][..0] == [];
    assert Mentioned([first]) == {name} by {
      assert RuleNames(first.rules) == {name} by { assert first.rules[0].name == name; }
    }
    assert Reads(e, [name]) == [name] && Reads(e, []) == [];
    assert Inputs(e, []) == [] && Inputs(e, [first]) == [];
    assert Without([name], e.known + Mentioned([first])) == [];
    assert Stored(m, [first]) == {};
  }

  // ----- where the listed names are read -----

  /** An entry, a field of it and one of the names that the field reads. */
  datatype Place = Place(entry: nat, field: nat, index: nat)

  predicate Before(a: Place, b: Place) {
    a.entry < b.entry || (a.entry == b.entry && (a.field < b.field || (a.field == b.field && a.index < b.index)))
  }

  predicate Increasing(places: seq<Place>) {
    forall i, j :: 0 <= i < j < |places| ==> Before(places[i], places[j])
  }

  predicate ReadAt(e: Engine, entries: seq<HarEntry>, at: Place, name: string) {
    && at.entry < |entries| && at.field < |entries[at.entry].fields|
    && var names := e.undeclared(entries[at.entry].fields[at.field]); at.index < |names| && names[at.index] == name
  }

  /** A read of a name that is neither known nor mentioned by a rule before. */
  predicate OpenAt(e: Engine, entries: seq<HarEntry>, at: Place, name: string) {
    && ReadAt(e, entries, at, name) && name !in e.known
    && forall i, k :: 0 <= i < at.entry && 0 <= k < |entries[i].rules| ==> entries[i].rules[k].name != name
  }

  lemma {:induction false} MentionedBy(entries: seq<HarEntry>, name: string)
    ensures name in Mentioned(entries) <==> exists i, k :: 0 <= i < |entries| && 0 <= k < |entries[i].rules| && entries[i].rules[k].name == name
  {
    if entries != [] {
      var front, n := entries[..|entries| - 1], |entries| - 1;
      MentionedBy(front, name);
      assert forall i :: 0 <= i < n ==> front[i] == entries[i];
      if name in Mentioned(front) {
        var i, k :| 0 <= i < |front| && 0 <= k < |front[i].rules| && front[i].rules[k].name == name;
        assert entries[i].rules[k].name == name;
      } else if name in RuleNames(entries[n].rules) {
        var k :| 0 <= k < |entries[n].rules| && entries[n].rules[k].name == name;
      }
      if i, k :| 0 <= i < |entries| && 0 <= k < |entries[i].rules| && entries[i].rules[k].name == name {
        if i < n {
          assert front[i].rules[k].name == name;
        } else {
          assert name in RuleNames(entries[n].rules);
        }
      }
    }
  }

  /** The places of what the first `n` fields of an entry read. */
  ghost predicate Placed(e: Engine, entries: seq<HarEntry>, h: nat, n: nat, names: seq<string>, places: seq<Place>) {
    && |places| == |names| && Increasing(places)
    && (forall t :: 0 <= t < |places| ==> ReadAt(e, entries, places[t], names[t]) && places[t].entry == h && places[t].field < n)
    && (forall at, name :: ReadAt(e, entries, at, name) && at.entry == h && at.field < n ==> at in places)
  }

  lemma {:induction false} ReadsPlaced(e: Engine, entries: seq<HarEntry>, h: nat, n: nat) returns (places: seq<Place>)
    requires h < |entries| && n <= |entries[h].fields|
    ensures Placed(e, entries, h, n, Reads(e, entries[h].fields[..n]), places)
    decreases n
  {
    places := [];
    if n > 0 {
      var front := ReadsPlaced(e, entries, h, n - 1);
      var names := e.undeclared(entries[h].fields[n - 1]);
      var last := seq(|names|, k requires 0 <= k < |names| => Place(h, n - 1, k));
      places := front + last;
      assert entries[h].fields[..n][..n - 1] == entries[h].fields[..n - 1];
      forall at, name | ReadAt(e, entries, at, name) && at.entry == h && at.field < n
        ensures at in places
      {
        if at.field == n - 1 {
          assert last[at.index] == at;
        }
      }
    }
  }

  /** The places that are left when some names are dropped. */
  ghost predicate Kept(names: seq<string>, places: seq<Place>, dropped: set<string>, kept: seq<Place>) {
    && |places| == |names| && |kept| == |Without(names, dropped)| && Increasing(kept)
    && (forall t :: 0 <= t < |kept| ==> exists q :: 0 <= q < |places| && places[q] == kept[t] && names[q] == Without(names, dropped)[t])
    && (forall q :: 0 <= q < |places| && names[q] !in dropped ==> places[q] in kept)
  }

  lemma {:induction false} WithoutPlaced(names: seq<string>, places: seq<Place>, dropped: set<string>) returns (kept: seq<Place>)
    requires |places| == |names| && Increasing(places)
    ensures Kept(names, places, dropped, kept)
  {
    kept := [];
    if names != [] {
      var n := |names| - 1;
      var before := WithoutPlaced(names[..n], places[..n], dropped);
      kept := if names[n] in dropped then before else before + [places[n]];
      forall t | 0 <= t < |kept|
        ensures exists q :: 0 <= q < |places| && places[q] == kept[t] && names[q] == Without(names, dropped)[t]
      {
        if t < |before| {
          var q :| 0 <= q < n && places[..n][q] == before[t] && names[..n][q] == Without(names[..n], dropped)[t];
          assert places[q] == kept[t] && names[q] == Without(names, dropped)[t];
        } else {
          assert places[n] == kept[t];
        }
      }
      forall q | 0 <= q < |places| && names[q] !in dropped
        ensures places[q] in kept
      {
        if q < n {
          assert places[..n][q] in before;
        }
      }
    }
  }

  /** The places of the first `n` entries' inputs, all of them, in order. */
  ghost predicate InputsAt(e: Engine, entries: seq<HarEntry>, n: nat, places: seq<Place>)
    requires n <= |entries|
  {
    var names := Inputs(e, entries[..n]);
    && |places| == |names| && Increasing(places)
    && (forall t :: 0 <= t < |places| ==> OpenAt(e, entries, places[t], names[t]) && places[t].entry < n)
    && (forall at, name :: OpenAt(e, entries, at, name) && at.entry < n ==> at in places)
  }

  lemma {:induction false} InputsPlaced(e: Engine, entries: seq<HarEntry>, n: nat) returns (places: seq<Place>)
    requires n <= |entries|
    ensures InputsAt(e, entries, n, places)
    decreases n
  {
    places := [];
    if n > 0 {
      var front := InputsPlaced(e, entries, n - 1);
      var fields := entries[n - 1].fields;
      var all := ReadsPlaced(e, entries, n - 1, |fields|);
      assert fields[..|fields|] == fields;
      var dropped := e.known + Mentioned(entries[..n - 1]);
      var last := WithoutPlaced(Reads(e, fields), all, dropped);
      places := front + last;
      assert entries[..n][..n - 1] == entries[..n - 1];
      LastPlaced(e, entries, n - 1, all, dropped, last);
      JoinPlaces(e, entries, n - 1, front, last);
    }
  }

  /** The places that one entry adds. */
  ghost predicate EntryAt(e: Engine, entries: seq<HarEntry>, h: nat, names: seq<string>, places: seq<Place>) {
    && |places| == |names| && Increasing(places)
    && (forall t :: 0 <= t < |places| ==> OpenAt(e, entries, places[t], names[t]) && places[t].entry == h)
    && (forall at, name :: OpenAt(e, entries, at, name) && at.entry == h ==> at in places)
  }

  lemma LastPlaced(e: Engine, entries: seq<HarEntry>, h: nat, all: seq<Place>, dropped: set<string>, last: seq<Place>)
    requires h < |entries| && dropped == e.known + Mentioned(entries[..h])
    requires Placed(e, entries, h, |entries[h].fields|, Reads(e, entries[h].fields), all)
    requires Kept(Reads(e, entries[h].fields), all, dropped, last)
    ensures EntryAt(e, entries, h, Without(Reads(e, entries[h].fields), dropped), last)
  {
    var names := Reads(e, entries[h].fields);
    forall at, name | ReadAt(e, entries, at, name) && at.entry == h
      ensures OpenAt(e, entries, at, name) <==> name !in dropped
    {
      OpenIff(e, entries, at, name);
    }
    forall t | 0 <= t < |last|
      ensures OpenAt(e, entries, last[t], Without(names, dropped)[t]) && last[t].entry == h
    {
      var q :| 0 <= q < |all| && all[q] == last[t] && names[q] == Without(names, dropped)[t];
      WithoutHas(names, dropped, names[q]);
      assert Without(names, dropped)[t] in Without(names, dropped);
    }
    forall at, name | OpenAt(e, entries, at, name) && at.entry == h
      ensures at in last
    {
      var q :| 0 <= q < |all| && all[q] == at;
      assert names[q] == name;
    }
  }

  lemma OpenIff(e: Engine, entries: seq<HarEntry>, at: Place, name: string)
    requires ReadAt(e, entries, at, name)
    ensures OpenAt(e, entries, at, name) <==> name !in e.known + Mentioned(entries[..at.entry])
  {
    var front := entries[..at.entry];
    MentionedBy(front, name);
    assert forall i :: 0 <= i < at.entry ==> front[i] == entries[i];
    if name in Mentioned(front) {
      var i, k :| 0 <= i < |front| && 0 <= k < |front[i].rules| && front[i].rules[k].name == name;
      assert entries[i].rules[k].name == name;
    }
  }

  lemma JoinPlaces(e: Engine, entries: seq<HarEntry>, h: nat, front: seq<Place>, last: seq<Place>)
    requires h < |entries| && InputsAt(e, entries, h, front)
    requires EntryAt(e, entries, h, Without(Reads(e, entries[h].fields), e.known + Mentioned(entries[..h])), last)
    ensures InputsAt(e, entries, h + 1, front + last)
  {
    hide OpenAt, Without, Reads;
    assert entries[..h + 1][..h] == entries[..h];
  }

  /** Of two listed names the first is read, openly, before the second ever is: in an
      earlier entry, an earlier field of the same one, or earlier in the same field. */
  lemma ListedInOrder(e: Engine, entries: seq<HarEntry>, i: nat, j: nat)
    requires i < j < |Distinct(Inputs(e, entries))|
    ensures exists a :: OpenAt(e, entries, a, Distinct(Inputs(e, entries))[i])
              && forall b :: OpenAt(e, entries, b, Distinct(Inputs(e, entries))[j]) ==> Before(a, b)
  {
    var names := Inputs(e, entries);
    var x, y := Distinct(names)[i], Distinct(names)[j];
    var places := InputsPlaced(e, entries, |entries|);
    assert entries[..|entries|] == entries;
    InOrder(names, i, j);
    var a := places[FirstIndex(names, x)];
    forall b | OpenAt(e, entries, b, y)
      ensures Before(a, b)
    {
      var t :| 0 <= t < |places| && places[t] == b;
      assert names[t] == y;
    }
  }

  /** The listed names are those that are read openly anywhere. */
  lemma ListedIsOpen(e: Engine, entries: seq<HarEntry>, name: string)
    ensures name in Distinct(Inputs(e, entries)) <==> exists at :: OpenAt(e, entries, at, name)
  {
    var names := Inputs(e, entries);
    var places := InputsPlaced(e, entries, |entries|);
    assert entries[..|entries|] == entries;
    SameNames(names, name);
    if name in names {
      var t :| 0 <= t < |names| && names[t] == name;
      assert OpenAt(e, entries, places[t], name);
    }
    if at :| OpenAt(e, entries, at, name) {
      var t :| 0 <= t < |places| && places[t] == at;
      assert names[t] == name;
    }
  }
}
