/** Native templates: which step trees are accepted. */
module Template {
  import opened Text

  const SCHEMA_VERSION := 1
  const MAX_NESTING_DEPTH: nat := 16
  const MAX_STEPS: nat := 1000
  const MAX_DELAY: nat := 300_000

  datatype Source = Json | TextBody | HeaderField | Status

  datatype Step =
    | Request(name: string, verb: string, url: string)
    | Extract(name: string, source: Source, selector: string, target: string, required: bool)
    | If(condition: string, thenSteps: seq<Step>, otherwise: seq<Step>)
    | ForEach(item: string, items: string, steps: seq<Step>)
    | Delay(milliseconds: nat)

  datatype Refusal = BadVersion | NoName | NoSteps | TooDeep | TooMany | BadField

  // ----- what is accepted -----

  const VERBS := ["GET", "POST", "PUT", "PATCH", "DELETE", "HEAD", "OPTIONS"]

  predicate Blank(s: string) {
    Trim(s) == ""
  }

  /** A step's own fields are in order, whatever its inner steps are. */
  predicate WellFilled(step: Step) {
    match step
    case Request(name, verb, url) => !Blank(name) && !Blank(url) && Upper(verb) in VERBS
    case Extract(name, source, selector, target, _) =>
      !Blank(name) && !Blank(target) && (source.Status? || selector != "")
    case If(condition, _, _) => !Blank(condition)
    case ForEach(item, items, _) => !Blank(item) && !Blank(items)
    case Delay(milliseconds) => milliseconds <= MAX_DELAY
  }

  predicate AllWellFilled(steps: seq<Step>)
    decreases steps, 0
  {
    steps == [] || (AllWellFilled(steps[..|steps| - 1]) && Filled(steps[|steps| - 1]))
  }

  predicate Filled(step: Step)
    decreases step, 1
  {
    && WellFilled(step)
    && match step
       case If(_, thenSteps, otherwise) => AllWellFilled(thenSteps) && AllWellFilled(otherwise)
       case ForEach(_, _, steps) => AllWellFilled(steps)
       case _ => true
  }

  /** All the steps of a tree. */
  function Steps(steps: seq<Step>): nat
    decreases steps, 0
  {
    if steps == [] then 0
    else Steps(steps[..|steps| - 1]) + 1 + Inner(steps[|steps| - 1])
  }

  /** The steps below one. */
  function Inner(step: Step): nat
    decreases step, 1
  {
    match step
    case If(_, thenSteps, otherwise) => Steps(thenSteps) + Steps(otherwise)
    case ForEach(_, _, steps) => Steps(steps)
    case _ => 0
  }

  /** How deep lists of steps are nested below a list. An empty list is one too. */
  function Nesting(steps: seq<Step>): nat
    decreases steps, 0
  {
    if steps == [] then 0
    else Larger(Nesting(steps[..|steps| - 1]), Lists(steps[|steps| - 1]))
  }

  function Lists(step: Step): nat
    decreases step, 1
  {
    match step
    case If(_, thenSteps, otherwise) => 1 + Larger(Nesting(thenSteps), Nesting(otherwise))
    case ForEach(_, _, steps) => 1 + Nesting(steps)
    case _ => 0
  }

  function Larger(a: nat, b: nat): nat {
    if a < b then b else a
  }

  // ----- the validation -----

  /** What the lists nested `depth` deep may hold, `counted` steps being elsewhere. */
  predicate Fits(steps: seq<Step>, depth: nat, counted: nat) {
    counted + Steps(steps) <= MAX_STEPS && depth + Nesting(steps) <= MAX_NESTING_DEPTH && AllWellFilled(steps)
  }

  predicate StepFits(step: Step, depth: nat, counted: nat) {
    counted + Inner(step) <= MAX_STEPS && depth + Lists(step) <= MAX_NESTING_DEPTH && Filled(step)
  }

  method Validate(version: nat, name: string, steps: seq<Step>) returns (refusal: Option<Refusal>)
    ensures refusal.None? <==>
      && version == SCHEMA_VERSION && !Blank(name) && steps != []
      && Steps(steps) <= MAX_STEPS && Nesting(steps) <= MAX_NESTING_DEPTH && AllWellFilled(steps)
  {
    if version != SCHEMA_VERSION {
      return Some(BadVersion);
    }
    if Blank(name) {
      return Some(NoName);
    }
    if steps == [] {
      return Some(NoSteps);
    }
    var count;
    refusal, count := ValidateSteps(steps, 0, 0);
  }

  /** `counted` steps were seen before this list, which is nested `depth` deep. */
  method ValidateSteps(steps: seq<Step>, depth: nat, counted: nat) returns (refusal: Option<Refusal>, count: nat)
    requires counted <= MAX_STEPS
    ensures refusal.None? <==> Fits(steps, depth, counted)
    ensures refusal.None? ==> count == counted + Steps(steps)
    decreases steps, 0
  {
    count := counted;
    if depth > MAX_NESTING_DEPTH {
      return Some(TooDeep), count;
    }
    count := count + |steps|;
    AtLeastItsLength(steps);
    if count > MAX_STEPS {
      return Some(TooMany), count;
    }
    for i := 0 to |steps|
      invariant Fits(steps[..i], depth, counted + |steps| - i)
      invariant count == counted + |steps| - i + Steps(steps[..i]) <= MAX_STEPS
    {
      NextFits(steps, i, depth, counted);
      refusal, count := ValidateStep(steps[i], depth, count);
      if refusal.Some? {
        return;
      }
    }
    assert steps[..|steps|] == steps;
    return None, count;
  }

  lemma NextFits(steps: seq<Step>, i: nat, depth: nat, counted: nat)
    requires i < |steps| && Fits(steps[..i], depth, counted + |steps| - i)
    ensures Steps(steps[..i + 1]) == Steps(steps[..i]) + 1 + Inner(steps[i])
    ensures Fits(steps[..i + 1], depth, counted + |steps| - (i + 1))
       <==> StepFits(steps[i], depth, counted + |steps| - i + Steps(steps[..i]))
    ensures Fits(steps, depth, counted) ==> Fits(steps[..i + 1], depth, counted + |steps| - (i + 1))
  {
    OneMore(steps, i);
    PrefixIsSmaller(steps, i + 1);
  }

  method ValidateStep(step: Step, depth: nat, counted: nat) returns (refusal: Option<Refusal>, count: nat)
    requires counted <= MAX_STEPS && depth <= MAX_NESTING_DEPTH
    ensures refusal.None? <==> StepFits(step, depth, counted)
    ensures refusal.None? ==> count == counted + Inner(step)
    decreases step, 1
  {
    count := counted;
    if !WellFilled(step) {
      return Some(BadField), count;
    }
    match step {
      case If(_, thenSteps, otherwise) =>
        refusal, count := ValidateSteps(thenSteps, depth + 1, count);
        if refusal.None? {
          refusal, count := ValidateSteps(otherwise, depth + 1, count);
        }
      case ForEach(_, _, inner) =>
        refusal, count := ValidateSteps(inner, depth + 1, count);
      case _ =>
        refusal := None;
    }
  }

  lemma {:induction false} AtLeastItsLength(steps: seq<Step>)
    ensures |steps| <= Steps(steps)
  {
    if steps != [] {
      AtLeastItsLength(steps[..|steps| - 1]);
    }
  }

  lemma OneMore(steps: seq<Step>, i: nat)
    requires i < |steps|
    ensures Steps(steps[..i + 1]) == Steps(steps[..i]) + 1 + Inner(steps[i])
    ensures Nesting(steps[..i + 1]) == Larger(Nesting(steps[..i]), Lists(steps[i]))
    ensures AllWellFilled(steps[..i + 1]) <==> AllWellFilled(steps[..i]) && Filled(steps[i])
  {
    var more := steps[..i + 1];
    assert more[..i] == steps[..i] && more[i] == steps[i];
  }

  /** What is left out of a prefix can only add to it. */
  lemma {:induction false} PrefixIsSmaller(steps: seq<Step>, n: nat)
    requires n <= |steps|
    ensures Steps(steps[..n]) + |steps| - n <= Steps(steps)
    ensures Nesting(steps[..n]) <= Nesting(steps)
    ensures AllWellFilled(steps) ==> AllWellFilled(steps[..n])
  {
    if n < |steps| {
      var front := steps[..|steps| - 1];
      PrefixIsSmaller(front, n);
      assert front[..n] == steps[..n];
    } else {
      assert steps[..n] == steps;
    }
  }

  // ----- the fields, spelled out -----

  /** The word, in letters of either case. */
  predicate Spells(text: string, word: string) {
    |text| == |word| && forall i :: 0 <= i < |word| ==> text[i] == word[i] || ('A' <= word[i] <= 'Z' && text[i] == word[i] + ' ')
  }

  lemma UpperSpells(text: string, word: string)
    requires forall i :: 0 <= i < |word| ==> 'A' <= word[i] <= 'Z'
    ensures Upper(text) == word <==> Spells(text, word)
  {
    var upper := Upper(text);
    forall i | 0 <= i < |text| && i < |word|
      ensures upper[i] == word[i] <==> text[i] == word[i] || text[i] == word[i] + ' '
    {
    }
    if upper == word {
      assert forall i :: 0 <= i < |word| ==> upper[i] == word[i];
    }
    if Spells(text, word) {
      assert forall i :: 0 <= i < |word| ==> upper[i] == word[i];
    }
  }

  /** Seven verbs, in letters of either case. */
  lemma VerbsAreSpelled(verb: string)
    ensures Upper(verb) in VERBS <==>
      || Spells(verb, "GET") || Spells(verb, "POST") || Spells(verb, "PUT") || Spells(verb, "PATCH")
      || Spells(verb, "DELETE") || Spells(verb, "HEAD") || Spells(verb, "OPTIONS")
  {
    hide Upper, Spells;
    UpperSpells(verb, "GET");
    UpperSpells(verb, "POST");
    UpperSpells(verb, "PUT");
    UpperSpells(verb, "PATCH");
    UpperSpells(verb, "DELETE");
    UpperSpells(verb, "HEAD");
    UpperSpells(verb, "OPTIONS");
    var verbs := VERBS;
    assert verbs[0] == "GET" && verbs[1] == "POST" && verbs[2] == "PUT" && verbs[3] == "PATCH";
    assert verbs[4] == "DELETE" && verbs[5] == "HEAD" && verbs[6] == "OPTIONS" && |verbs| == 7;
  }

  /** Blank is what holds nothing but white space. */
  lemma BlankIsAllSpace(s: string)
    ensures Blank(s) <==> AllSpace(s)
  {
    if Blank(s) {
      var a, b := TrimSplits(s);
      assert s == a + b;
    }
    if AllSpace(s) {
      TrimDrops(s, "", "");
      assert s + "" + "" == s;
    }
  }

  /** A delay may take five minutes. */
  lemma DelaysAreShort(milliseconds: nat)
    ensures Filled(Delay(milliseconds)) <==> milliseconds <= 5 * 60 * 1000
  {
  }
}
