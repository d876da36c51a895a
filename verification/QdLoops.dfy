/** What the rounds of a loop see, said of the requests they send. */
module QdLoops {
  import opened Text
  import opened QdProgram
  import opened QdRun

  /** Every request is answered, and no response changes a variable. */
  ghost predicate Echoes(w: World) {
    forall entry, vars, sent ::
      w.request(entry, vars, sent).Answered? && w.request(entry, vars, sent).vars == vars
  }

  const LOOP_NAMES: set<string> := {
    "loop_index0", "loop_index", "loop_first", "loop_last", "loop_length", "loop_revindex0", "loop_revindex"
  }

  const DEPTH_NAMES: set<string> := {"loop_depth", "loop_depth0"}

  predicate Shows(vars: Vars, name: string, text: string) {
    name in vars && vars[name] == Str(text)
  }

  /** The loop variables in round `i` of `n`. */
  predicate CountsRound(vars: Vars, i: nat, n: nat) {
    && Shows(vars, "loop_index0", Decimal(i)) && Shows(vars, "loop_index", Decimal(i + 1))
    && Shows(vars, "loop_first", if i == 0 then "True" else "False")
    && Shows(vars, "loop_last", if i + 1 == n then "True" else "False")
    && Shows(vars, "loop_length", Decimal(n))
    && Shows(vars, "loop_revindex0", Decimal(n - i - 1)) && Shows(vars, "loop_revindex", Decimal(n - i))
  }

  /** The items of an array, the keys of an object or the characters of a text. */
  predicate HoldsItems(value: Value, items: seq<Value>) {
    match value
    case Arr(elements) => items == elements
    case Obj(fields) => |items| == |fields| && forall i :: 0 <= i < |items| ==> items[i] == Str(fields[i].key)
    case Str(text) => |items| == |text| && forall i :: 0 <= i < |items| ==> items[i] == Str([text[i]])
    case Scalar(_) => false
  }

  /** What a loop over `source` goes through: a variable of that name comes first. */
  predicate Sources(w: World, source: string, vars: Vars, items: seq<Value>) {
    if source in vars then HoldsItems(vars[source], items)
    else w.value(source, vars).Some? && HoldsItems(w.value(source, vars).value, items)
  }

  lemma SourcesAreLooped(w: World, source: string, vars: Vars, items: seq<Value>)
    ensures LoopValues(w, source, vars) == Ok(items) <==> Sources(w, source, vars, items)
  {
    var value := if source in vars then Some(vars[source]) else w.value(source, vars);
    if value.Some? && Iterable(value.value).Some? {
      assert HoldsItems(value.value, items) <==> Iterable(value.value).value == items;
    }
  }

  /** The depth that the body of a loop sees, `depth` being at least one. */
  predicate AtDepth(vars: Vars, depth: nat) {
    Shows(vars, "loop_depth", Decimal(depth)) && Shows(vars, "loop_depth0", Decimal(depth - 1))
  }

  /** The request of round `i`, sent with its item and counters. */
  predicate SentInRound(sent: Sent, entry: Entry, target: string, items: seq<Value>, i: nat, depth: nat)
    requires i < |items|
  {
    && sent.entry == entry && CountsRound(sent.vars, i, |items|)
    && (target !in LOOP_NAMES ==> target in sent.vars && sent.vars[target] == items[i])
    && (target !in DEPTH_NAMES ==> AtDepth(sent.vars, depth))
  }

  /** The variables that a loop does not set are the same. */
  ghost predicate SameElsewhere(target: string, before: Vars, after: Vars) {
    forall name :: name !in LOOP_NAMES + DEPTH_NAMES && name != target ==>
      (name in after <==> name in before) && (name in before ==> after[name] == before[name])
  }

  /** Round `i` sent its request and got its answer, the requests and the results of the
      rounds beginning behind `sentBase` and `resultBase`. */
  predicate RoundAt(w: World, entry: Entry, target: string, items: seq<Value>, i: nat, depth: nat, sent: seq<Sent>, results: seq<StepResult>,
      sentBase: int, resultBase: int)
    requires i < |items|
  {
    var p, q := sentBase + i, resultBase + i;
    && 0 <= p < |sent| && 0 <= q < |results|
    && SentInRound(sent[p], entry, target, items, i, depth)
    && w.request(entry, sent[p].vars, sent[..p]) == Answered(results[q], sent[p].vars)
  }

  ghost predicate RoundsAt(w: World, entry: Entry, target: string, items: seq<Value>, index: nat, depth: nat, sent: seq<Sent>, results: seq<StepResult>,
      sentBase: int, resultBase: int) {
    forall i :: index <= i < |items| ==> RoundAt(w, entry, target, items, i, depth, sent, results, sentBase, resultBase)
  }

  /** A run that went through the rounds from `index` on, with one request in each. */
  ghost predicate WentRound(w: World, entry: Entry, target: string, items: seq<Value>, index: nat, depth: nat, before: Run, after: Run)
    requires index <= |items|
  {
    var n := |items| - index;
    && |after.sent| == |before.sent| + n && |after.results| == |before.results| + n
    && before.sent <= after.sent && before.results <= after.results
    && after.remaining == before.remaining - n && after.visits == before.visits + n
    && RoundsAt(w, entry, target, items, index, depth, after.sent, after.results, |before.sent| - index, |before.results| - index)
    && SameElsewhere(target, before.vars, after.vars)
  }

  lemma CountersShown(vars: Vars, i: nat, n: nat)
    requires i < n
    ensures CountsRound(SetLoopVariables(vars, i, n), i, n)
  {
    hide Decimal;
  }

  lemma CountersElsewhere(vars: Vars, i: nat, n: nat, name: string)
    requires name !in LOOP_NAMES
    ensures name in SetLoopVariables(vars, i, n) <==> name in vars
    ensures name in vars ==> SetLoopVariables(vars, i, n)[name] == vars[name]
  {
    hide Decimal;
  }

  lemma IterationCounts(target: string, items: seq<Value>, index: nat, run: Run, entry: Entry, depth: nat)
    requires index < |items| && (target !in DEPTH_NAMES ==> AtDepth(run.vars, depth))
    ensures var round := ForIteration(target, items, index, run);
            && round == run.(vars := round.vars) && SameElsewhere(target, run.vars, round.vars)
            && SentInRound(Sent(entry, round.vars), entry, target, items, index, depth)
  {
    hide SetLoopVariables, CountsRound, Decimal;
    var bound := run.vars[target := items[index]];
    CountersShown(bound, index, |items|);
    forall name | name !in LOOP_NAMES
      ensures name in SetLoopVariables(bound, index, |items|) <==> name in bound
      ensures name in bound ==> SetLoopVariables(bound, index, |items|)[name] == bound[name]
    {
      CountersElsewhere(bound, index, |items|, name);
    }
    assert "loop_depth" !in LOOP_NAMES && "loop_depth0" !in LOOP_NAMES;
  }

  lemma OneRequest(w: World, limit: nat, entry: Entry, run: Run)
    requires Echoes(w) && run.remaining > 0
    ensures var reply := w.request(entry, run.vars, run.sent);
            && reply.Answered? && reply.vars == run.vars
            && ExecuteBlocks(w, limit, [Request(entry)], run) == Done(AfterRequest(entry, reply.result, run))
  {
    var blocks := [Request(entry)];
    assert blocks[0] == Request(entry) && blocks[1..] == [];
    var once := ExecuteBlock(w, limit, Request(entry), run);
    assert once.Done? && ExecuteBlocks(w, limit, [], once.run) == once;
  }

  function AfterRequest(entry: Entry, result: StepResult, run: Run): Run
    requires run.remaining > 0
  {
    run.(visits := run.visits + 1, remaining := run.remaining - 1,
         sent := run.sent + [Sent(entry, run.vars)], results := run.results + [result])
  }

  lemma {:induction false} RoundsFrom(w: World, limit: nat, entry: Entry, target: string, items: seq<Value>, index: nat, depth: nat, run: Run)
    requires Echoes(w) && index <= |items| && run.remaining >= |items| - index
    requires target !in DEPTH_NAMES ==> AtDepth(run.vars, depth)
    ensures var outcome := ExecuteFor(w, limit, target, items, index, [Request(entry)], run);
            && outcome.Done? && WentRound(w, entry, target, items, index, depth, run, outcome.run)
            && (target !in DEPTH_NAMES ==> AtDepth(outcome.run.vars, depth))
    decreases |items| - index
  {
    if index < |items| {
      hide ExecuteBlocks, CountsRound, Echoes, ForIteration, WentRound, SentInRound, SameElsewhere;
      var round := ForIteration(target, items, index, run);
      IterationCounts(target, items, index, run, entry, depth);
      OneRequest(w, limit, entry, round);
      var result := w.request(entry, round.vars, round.sent).result;
      var next := AfterRequest(entry, result, round);
      KeepsDepth(entry, target, items, index, depth, round.vars);
      RoundsFrom(w, limit, entry, target, items, index + 1, depth, next);
      FirstRound(w, entry, target, items, index, depth, run, round, result,
                 ExecuteFor(w, limit, target, items, index + 1, [Request(entry)], next).run);
    } else {
      NoRound(w, entry, target, items, depth, run);
    }
  }

  lemma KeepsDepth(entry: Entry, target: string, items: seq<Value>, index: nat, depth: nat, vars: Vars)
    requires index < |items| && SentInRound(Sent(entry, vars), entry, target, items, index, depth)
    ensures target !in DEPTH_NAMES ==> AtDepth(vars, depth)
  {
  }

  lemma NoRound(w: World, entry: Entry, target: string, items: seq<Value>, depth: nat, run: Run)
    ensures WentRound(w, entry, target, items, |items|, depth, run, run)
  {
  }

  lemma FirstRound(w: World, entry: Entry, target: string, items: seq<Value>, index: nat, depth: nat, run: Run, round: Run, result: StepResult, after: Run)
    requires index < |items| && round == run.(vars := round.vars) && run.remaining >= |items| - index
    requires SentInRound(Sent(entry, round.vars), entry, target, items, index, depth) && SameElsewhere(target, run.vars, round.vars)
    requires w.request(entry, round.vars, round.sent) == Answered(result, round.vars)
    requires WentRound(w, entry, target, items, index + 1, depth, AfterRequest(entry, result, round), after)
    ensures WentRound(w, entry, target, items, index, depth, run, after)
  {
    hide SentInRound;
    var next, s := AfterRequest(entry, result, round), |run.sent|;
    assert after.sent[s] == next.sent[s] == Sent(entry, round.vars);
    assert after.results[|run.results|] == next.results[|run.results|] == result;
    assert after.sent[..s] == run.sent && run.sent <= next.sent && run.results <= next.results;
    assert |next.sent| - (index + 1) == s - index && |next.results| - (index + 1) == |run.results| - index;
    assert RoundAt(w, entry, target, items, index, depth, after.sent, after.results, s - index, |run.results| - index);
  }

  lemma EnteredDepth(target: string, vars: Vars)
    ensures AtDepth(EnterLoop(vars), LoopDepth(vars, 0) + 1) && SameElsewhere(target, vars, EnterLoop(vars))
  {
  }

  /** A `for` over one request sends it once for every item, in the order of the items,
      each time with that item, the loop's counters and one more level of depth; it gets
      the answers in that order, and changes no other variable. */
  lemma ForSendsInOrder(w: World, limit: nat, target: string, source: string, entry: Entry, run: Run, items: seq<Value>)
    requires Echoes(w) && Sources(w, source, run.vars, items) && |items| <= limit && run.remaining >= |items|
    ensures var outcome := ExecuteBlock(w, limit, For(target, source, [Request(entry)]), run);
            && outcome.Done?
            && WentRound(w, entry, target, items, 0, LoopDepth(run.vars, 0) + 1, Visit(run), outcome.run)
  {
    hide SentInRound, RoundsAt, EnterLoop, LoopDepth, ExecuteFor, LoopValues, LeaveLoop;
    SourcesAreLooped(w, source, run.vars, items);
    var depth := LoopDepth(run.vars, 0) + 1;
    EnteredDepth(target, run.vars);
    RoundsFrom(w, limit, entry, target, items, 0, depth, Entered(Visit(run)));
    LeftIsElsewhere(target, ExecuteFor(w, limit, target, items, 0, [Request(entry)], Entered(Visit(run))).run.vars);
  }

  lemma LeftIsElsewhere(target: string, vars: Vars)
    ensures SameElsewhere(target, vars, LeaveLoop(vars))
  {
  }

  /** A `for` over more items than the limit sends nothing. */
  lemma LongLoopIsRefused(w: World, limit: nat, target: string, source: string, body: seq<Block>, run: Run, items: seq<Value>)
    requires Sources(w, source, run.vars, items) && |items| > limit
    ensures ExecuteBlock(w, limit, For(target, source, body), run) == Failed(LoopLimit, Visit(run))
  {
    SourcesAreLooped(w, source, run.vars, items);
  }

  /** A check of a `while` counts its rounds up to the limit. */
  lemma WhileCounts(limit: nat, index: nat, run: Run)
    requires index < limit
    ensures CountsRound(WhileIteration(limit, index, run).vars, index, limit)
    ensures forall name :: SameElsewhere(name, run.vars, WhileIteration(limit, index, run).vars)
  {
  }

  /** The second of two requests is sent with the variables that the answer to the first
      left, and after a first one that fails there is no second. */
  lemma AnswersReachTheNext(w: World, limit: nat, a: Entry, b: Entry, run: Run)
    requires run.remaining >= 2
    ensures var first := w.request(a, run.vars, run.sent);
            var sentOne := run.sent + [Sent(a, run.vars)];
            var second := w.request(b, first.vars, sentOne);
            var outcome := ExecuteBlocks(w, limit, [Request(a), Request(b)], run);
            if first.Refused? then
              && outcome.Failed? && outcome.error == RequestFailed && outcome.run.vars == first.vars
              && outcome.run.sent == sentOne && outcome.run.results == run.results && outcome.run.remaining == run.remaining - 1
            else
              && outcome.run.vars == second.vars && outcome.run.sent == sentOne + [Sent(b, first.vars)]
              && outcome.run.remaining == run.remaining - 2
              && (if second.Refused? then outcome.Failed? && outcome.run.results == run.results + [first.result]
                  else outcome.Done? && outcome.run.results == run.results + [first.result, second.result])
  {
    var both: seq<Block>, last: seq<Block>, none: seq<Block> := [Request(a), Request(b)], [Request(b)], [];
    assert both[0] == Request(a) && both[1..] == last && last[0] == Request(b) && last[1..] == none;
    var first := ExecuteBlock(w, limit, Request(a), run);
    if first.Done? {
      var second := ExecuteBlock(w, limit, Request(b), first.run);
      assert ExecuteBlocks(w, limit, last, first.run) == second;
      assert ExecuteBlocks(w, limit, both, run) == second;
    }
  }

  /** An empty budget sends nothing. */
  lemma NothingLeftNothingSent(w: World, limit: nat, entry: Entry, run: Run)
    requires run.remaining == 0
    ensures ExecuteBlock(w, limit, Request(entry), run) == Failed(RequestLimit, Visit(run))
  {
  }
}
