/** What each step of a native template does, said of its effects. */
module TemplateSteps {
  import opened Text
  import opened QdProgram
  import opened QdRun
  import opened QdLoops
  import opened Template
  import opened TemplateRun

  // ----- lists -----

  /** Goes on with `rest` where the run before it ended well. */
  function Then(s: Surroundings, limit: nat, first: Outcome, rest: seq<TStep>): Outcome {
    match first
    case Done(run) => ExecuteSteps(s, limit, rest, run)
    case Failed(_, _) => first
  }

  /** Steps are taken in order, and a failure ends the run. */
  lemma {:induction false} StepsInOrder(s: Surroundings, limit: nat, a: seq<TStep>, b: seq<TStep>, run: Run)
    ensures ExecuteSteps(s, limit, a + b, run) == Then(s, limit, ExecuteSteps(s, limit, a, run), b)
    decreases |a|
  {
    if a == [] {
      assert a + b == b;
    } else {
      assert (a + b)[0] == a[0] && (a + b)[1..] == a[1..] + b;
      var first := ExecuteStep(s, limit, a[0], run);
      if first.Done? {
        StepsInOrder(s, limit, a[1..], b, first.run);
      }
    }
  }

  lemma OneStep(s: Surroundings, limit: nat, step: TStep, run: Run)
    ensures ExecuteSteps(s, limit, [step], run) == ExecuteStep(s, limit, step, run)
  {
    assert [step][1..] == [];
  }

  // ----- branches -----

  /** A condition that holds runs the steps of `then` and no others. */
  lemma ThenIsTaken(s: Surroundings, limit: nat, condition: string, thenSteps: seq<TStep>, otherwise: seq<TStep>, run: Run)
    requires s.world.truth(condition, run.vars) == Some(true)
    ensures ExecuteStep(s, limit, TStep.If(condition, thenSteps, otherwise), run)
         == ExecuteSteps(s, limit, thenSteps, run.(visits := run.visits + 1))
  {
  }

  lemma OtherwiseIsTaken(s: Surroundings, limit: nat, condition: string, thenSteps: seq<TStep>, otherwise: seq<TStep>, run: Run)
    requires s.world.truth(condition, run.vars) == Some(false)
    ensures ExecuteStep(s, limit, TStep.If(condition, thenSteps, otherwise), run)
         == ExecuteSteps(s, limit, otherwise, run.(visits := run.visits + 1))
  {
  }

  /** Whatever the branch that is not taken says, the whole list ends alike. */
  lemma BranchNotTakenIsFree(s: Surroundings, limit: nat, before: seq<TStep>, after: seq<TStep>, condition: string,
                             taken: seq<TStep>, a: seq<TStep>, b: seq<TStep>, run: Run)
    ensures var first := ExecuteSteps(s, limit, before, run);
            && (first.Done? && s.world.truth(condition, first.run.vars) == Some(true) ==>
                  ExecuteSteps(s, limit, before + [TStep.If(condition, taken, a)] + after, run)
                  == ExecuteSteps(s, limit, before + [TStep.If(condition, taken, b)] + after, run))
            && (first.Done? && s.world.truth(condition, first.run.vars) == Some(false) ==>
                  ExecuteSteps(s, limit, before + [TStep.If(condition, a, taken)] + after, run)
                  == ExecuteSteps(s, limit, before + [TStep.If(condition, b, taken)] + after, run))
  {
    forall step: TStep
      ensures ExecuteSteps(s, limit, before + [step] + after, run)
           == Then(s, limit, Then(s, limit, ExecuteSteps(s, limit, before, run), [step]), after)
    {
      StepsInOrder(s, limit, before + [step], after, run);
      StepsInOrder(s, limit, before, [step], run);
    }
    var first := ExecuteSteps(s, limit, before, run);
    if first.Done? {
      forall step: TStep
        ensures Then(s, limit, first, [step]) == ExecuteStep(s, limit, step, first.run)
      {
        OneStep(s, limit, step, first.run);
      }
    }
  }

  // ----- loops -----

  /** The state before round `i`, if all rounds before it end well. */
  function BeforeRound(s: Surroundings, limit: nat, item: string, values: seq<Value>, steps: seq<TStep>, run: Run, i: nat): Option<Run>
    requires i <= |values|
  {
    if i == 0 then Some(run)
    else match BeforeRound(s, limit, item, values, steps, run, i - 1)
         case None => None
         case Some(before) =>
           match ExecuteSteps(s, limit, steps, before.(vars := before.vars[item := values[i - 1]]))
           case Done(next) => Some(next)
           case Failed(_, _) => None
  }

  /** Round `i` fails in this way, after rounds that ended well. */
  predicate FailsInRound(s: Surroundings, limit: nat, item: string, values: seq<Value>, steps: seq<TStep>, run: Run, i: nat, end: Outcome)
    requires i < |values|
  {
    var before := BeforeRound(s, limit, item, values, steps, run, i);
    before.Some? && end.Failed?
    && ExecuteSteps(s, limit, steps, before.value.(vars := before.value.vars[item := values[i]])) == end
  }

  lemma {:induction false} EachFromRound(s: Surroundings, limit: nat, item: string, values: seq<Value>, steps: seq<TStep>, run: Run, i: nat, before: Run)
    requires i <= |values| && BeforeRound(s, limit, item, values, steps, run, i) == Some(before)
    ensures var end := ExecuteEach(s, limit, item, values, i, steps, before);
            if end.Done? then BeforeRound(s, limit, item, values, steps, run, |values|) == Some(end.run)
            else exists k :: i <= k < |values| && FailsInRound(s, limit, item, values, steps, run, k, end)
    decreases |values| - i
  {
    if i < |values| {
      var once := ExecuteSteps(s, limit, steps, before.(vars := before.vars[item := values[i]]));
      if once.Done? {
        assert BeforeRound(s, limit, item, values, steps, run, i + 1) == Some(once.run);
        EachFromRound(s, limit, item, values, steps, run, i + 1, once.run);
      } else {
        assert FailsInRound(s, limit, item, values, steps, run, i, once);
      }
    }
  }

  /** A loop takes its steps once for every item, in order, with nothing set but the
      item: it ends well where the last round ends, or fails as its first bad round does. */
  lemma ForEachTakesRounds(s: Surroundings, limit: nat, item: string, source: string, steps: seq<TStep>, run: Run, values: seq<Value>)
    requires Sources(s.world, source, run.vars, values)
    ensures var end := ExecuteStep(s, limit, TStep.ForEach(item, source, steps), run);
            var start := run.(visits := run.visits + 1);
            if |values| > limit then end == Failed(LoopLimit, start)
            else if end.Done? then BeforeRound(s, limit, item, values, steps, start, |values|) == Some(end.run)
            else exists k :: 0 <= k < |values| && FailsInRound(s, limit, item, values, steps, start, k, end)
  {
    SourcesAreLooped(s.world, source, run.vars, values);
    var start := run.(visits := run.visits + 1);
    if |values| <= limit {
      EachFromRound(s, limit, item, values, steps, start, 0, start);
    }
  }

  /** Over one request the loop sends it for each item in turn, with the item set and no
      other variable. */
  lemma {:induction false} EachSends(s: Surroundings, limit: nat, item: string, values: seq<Value>, request: TStep, entry: Entry, i: nat, run: Run)
    requires Echoes(s.world) && request.Request? && (forall vars :: s.entry(request, vars) == Some(entry))
    requires i <= |values| && run.remaining >= |values| - i
    ensures var end := ExecuteEach(s, limit, item, values, i, [request], run);
            && end.Done? && |end.run.sent| == |run.sent| + |values| - i && run.sent <= end.run.sent
            && (forall k :: i <= k < |values| ==> SentWith(end.run.sent, |run.sent| - i, k, entry, run.vars[item := values[k]]))
    decreases |values| - i
  {
    if i < |values| {
      var round := run.(vars := run.vars[item := values[i]]);
      RequestIsSent(s, limit, request, entry, round);
      var next := ExecuteSteps(s, limit, [request], round).run;
      EachSends(s, limit, item, values, request, entry, i + 1, next);
      var end := ExecuteEach(s, limit, item, values, i, [request], run).run;
      assert end.sent[|run.sent|] == next.sent[|run.sent|];
      forall k | i <= k < |values|
        ensures SentWith(end.sent, |run.sent| - i, k, entry, run.vars[item := values[k]])
      {
        if k > i {
          assert SentWith(end.sent, |next.sent| - (i + 1), k, entry, next.vars[item := values[k]]);
          assert next.vars[item := values[k]] == run.vars[item := values[k]];
        }
      }
    }
  }

  predicate SentWith(sent: seq<Sent>, base: int, k: nat, entry: Entry, vars: Vars) {
    0 <= base + k < |sent| && sent[base + k] == Sent(entry, vars)
  }

  // ----- requests and extractions -----

  lemma RequestIsSent(s: Surroundings, limit: nat, request: TStep, entry: Entry, run: Run)
    requires Echoes(s.world) && request.Request? && s.entry(request, run.vars) == Some(entry) && run.remaining > 0
    ensures var end := ExecuteSteps(s, limit, [request], run);
            && end.Done? && end.run.vars == run.vars && end.run.remaining == run.remaining - 1
            && end.run.sent == run.sent + [Sent(entry, run.vars)]
            && end.run.results == run.results + [s.world.request(entry, run.vars, run.sent).result]
  {
    OneStep(s, limit, request, run);
  }

  /** What an extraction finds is stored under its target, and nothing else changes; what
      it does not find ends the run just if it was required. */
  lemma ExtractStores(s: Surroundings, limit: nat, step: TStep, run: Run)
    requires step.Extract?
    ensures var found, end := s.extract(step, run.sent), ExecuteStep(s, limit, step, run);
            && (found.Ok? && found.value.Some? ==>
                  && end.Done? && end.run.vars == run.vars[step.target := found.value.value]
                  && end.run.sent == run.sent && end.run.results == run.results && end.run.remaining == run.remaining)
            && (end.Failed? <==> found.Err? || (found.value.None? && step.required))
            && (found.Ok? && found.value.None? && !step.required ==> end == Done(run.(visits := run.visits + 1)))
  {
  }
}
