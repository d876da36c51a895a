/** Running a native template, and how long that can take. */
module TemplateRun {
  import opened Text
  import opened QdProgram
  import opened QdRun
  import opened QdExecutor
  import opened QdBudget
  import opened Template

  type TStep = Template.Step

  /** Beyond what a QD program needs, a request step is first turned into an entry, and
      an extraction looks at the last response. */
  datatype Surroundings = Surroundings(
    world: World,
    entry: (TStep, Vars) -> Option<Entry>,
    extract: (TStep, seq<Sent>) -> Result<Option<Value>, ()>)

  function ExecuteSteps(s: Surroundings, limit: nat, steps: seq<TStep>, run: Run): Outcome
    decreases steps, 0, 0
  {
    if steps == [] then Done(run)
    else match ExecuteStep(s, limit, steps[0], run)
         case Done(next) => ExecuteSteps(s, limit, steps[1..], next)
         case Failed(error, next) => Failed(error, next)
  }

  function ExecuteStep(s: Surroundings, limit: nat, step: TStep, before: Run): Outcome
    decreases step, 0, 0
  {
    var run := Visit(before);
    match step
    case Request(_, _, _) =>
      (match s.entry(step, run.vars)
       case None => Failed(EvaluationFailed, run)
       case Some(entry) => ExecuteRequest(s.world, entry, run))
    case Extract(_, _, _, target, required) => Extracted(s.extract(step, run.sent), target, required, run)
    case If(condition, thenSteps, otherwise) =>
      (match s.world.truth(condition, run.vars)
       case None => Failed(EvaluationFailed, run)
       case Some(holds) => ExecuteSteps(s, limit, if holds then thenSteps else otherwise, run))
    case ForEach(item, items, steps) =>
      (match LoopValues(s.world, items, run.vars)
       case Err(error) => Failed(error, run)
       case Ok(values) =>
         if |values| > limit then Failed(LoopLimit, run) else ExecuteEach(s, limit, item, values, 0, steps, run))
    case Delay(_) => Done(run)
  }

  function Extracted(found: Result<Option<Value>, ()>, target: string, required: bool, run: Run): Outcome {
    match found
    case Err(_) => Failed(ExtractionFailed, run)
    case Ok(Some(value)) => Done(run.(vars := run.vars[target := value]))
    case Ok(None) => if required then Failed(ExtractionFailed, run) else Done(run)
  }

  /** Unlike a QD loop this sets its item and nothing else. */
  function ExecuteEach(s: Surroundings, limit: nat, item: string, values: seq<Value>, index: nat, steps: seq<TStep>, run: Run): Outcome
    requires index <= |values|
    decreases steps, 1, |values| - index
  {
    if index == |values| then Done(run)
    else match ExecuteSteps(s, limit, steps, run.(vars := run.vars[item := values[index]]))
         case Done(next) => ExecuteEach(s, limit, item, values, index + 1, steps, next)
         case Failed(error, next) => Failed(error, next)
  }

  // ----- the executor -----

  datatype Definition = Definition(version: nat, name: string, variables: Vars, steps: seq<TStep>)

  predicate Accepted(d: Definition) {
    && d.version == SCHEMA_VERSION && !Blank(d.name) && d.steps != []
    && Template.Steps(d.steps) <= MAX_STEPS && Nesting(d.steps) <= MAX_NESTING_DEPTH && AllWellFilled(d.steps)
  }

  datatype TemplateError = Invalid(refusal: Refusal) | Broken(error: RunError)

  class TemplateExecutor {
    const executor: Executor
    const entry: (TStep, Vars) -> Option<Entry>
    const extract: (TStep, seq<Sent>) -> Result<Option<Value>, ()>

    constructor (executor: Executor, entry: (TStep, Vars) -> Option<Entry>, extract: (TStep, seq<Sent>) -> Result<Option<Value>, ()>)
      ensures this.executor == executor && this.entry == entry && this.extract == extract
    {
      this.executor, this.entry, this.extract := executor, entry, extract;
    }

    function Around(): Surroundings {
      Surroundings(executor.world, entry, extract)
    }

    /** A refused template changes nothing. The context's own loop limit is used as it
        is; only its request budget is lowered to the executor's. */
    method ExecuteTemplate(d: Definition, context: ExecutionContext) returns (error: Option<TemplateError>)
      modifies context
      ensures context.loopLimit == old(context.loopLimit)
      ensures !Accepted(d) <==> error.Some? && error.value.Invalid?
      ensures !Accepted(d) ==> context.State() == old(context.State())
      ensures Accepted(d) ==>
        Ended(if error.Some? then Some(error.value.error) else None, context.State())
        == ExecuteSteps(Around(), context.loopLimit, d.steps,
             old(context.State()).(
               vars := d.variables + old(context.variables),
               remaining := Min(old(context.remainingRequests), executor.requestLimit)))
    {
      var refusal := Validate(d.version, d.name, d.steps);
      if refusal.Some? {
        return Some(Invalid(refusal.value));
      }
      FillIn(d.variables, context);
      context.remainingRequests := Min(context.remainingRequests, executor.requestLimit);
      var broken := RunSteps(d.steps, context);
      error := if broken.Some? then Some(Broken(broken.value)) else None;
    }

    /** The defaults, each inserted only where the context has no variable of its name. */
    method FillIn(defaults: Vars, context: ExecutionContext)
      modifies context`variables
      ensures context.variables == defaults + old(context.variables)
    {
      var left := defaults.Keys;
      while left != {}
        invariant left <= defaults.Keys
        invariant context.variables == (defaults - left) + old(context.variables)
        decreases |left|
      {
        var name :| name in left;
        if name !in context.variables {
          context.variables := context.variables[name := defaults[name]];
        }
        left := left - {name};
      }
    }

    method RunSteps(steps: seq<TStep>, context: ExecutionContext) returns (error: Option<RunError>)
      modifies context
      ensures context.loopLimit == old(context.loopLimit)
      ensures Ended(error, context.State()) == ExecuteSteps(Around(), context.loopLimit, steps, old(context.State()))
      decreases steps, 0, 0
    {
      ghost var limit, start := context.loopLimit, context.State();
      for i := 0 to |steps|
        invariant context.loopLimit == limit
        invariant ExecuteSteps(Around(), limit, steps, start) == ExecuteSteps(Around(), limit, steps[i..], context.State())
      {
        assert steps[i..][1..] == steps[i + 1..];
        error := RunStep(steps[i], context);
        if error.Some? {
          return;
        }
      }
      error := None;
    }

    method RunStep(step: TStep, context: ExecutionContext) returns (error: Option<RunError>)
      modifies context
      ensures context.loopLimit == old(context.loopLimit)
      ensures Ended(error, context.State()) == ExecuteStep(Around(), context.loopLimit, step, old(context.State()))
      decreases step, 0, 0
    {
      context.visits := context.visits + 1;
      match step {
        case Request(_, _, _) =>
          var request := entry(step, context.variables);
          if request.None? {
            return Some(EvaluationFailed);
          }
          error := executor.RunRequest(request.value, context);
        case Extract(_, _, _, target, required) =>
          var found := extract(step, context.sent);
          if found.Err? || (found.value.None? && required) {
            return Some(ExtractionFailed);
          }
          if found.value.Some? {
            context.variables := context.variables[target := found.value.value];
          }
          error := None;
        case If(condition, thenSteps, otherwise) =>
          var holds := executor.world.truth(condition, context.variables);
          if holds.None? {
            return Some(EvaluationFailed);
          }
          var selected := if holds.value then thenSteps else otherwise;
          error := RunSteps(selected, context);
        case ForEach(item, items, steps) =>
          var values := LoopValues(executor.world, items, context.variables);
          if values.Err? {
            return Some(values.error);
          }
          if |values.value| > context.loopLimit {
            return Some(LoopLimit);
          }
          error := RunEach(item, values.value, steps, context);
        case Delay(_) =>
          error := None;
      }
    }

    method RunEach(item: string, values: seq<Value>, steps: seq<TStep>, context: ExecutionContext) returns (error: Option<RunError>)
      modifies context
      ensures context.loopLimit == old(context.loopLimit)
      ensures Ended(error, context.State())
           == ExecuteEach(Around(), context.loopLimit, item, values, 0, steps, old(context.State()))
      decreases steps, 1, 0
    {
      ghost var limit, start := context.loopLimit, context.State();
      for index := 0 to |values|
        invariant context.loopLimit == limit
        invariant ExecuteEach(Around(), limit, item, values, 0, steps, start)
               == ExecuteEach(Around(), limit, item, values, index, steps, context.State())
      {
        context.variables := context.variables[item := values[index]];
        error := RunSteps(steps, context);
        if error.Some? {
          return;
        }
      }
      error := None;
    }
  }

  // ----- the budget -----

  lemma {:induction false} StepsAccounted(s: Surroundings, limit: nat, steps: seq<TStep>, run: Run)
    ensures Accounted(run, ExecuteSteps(s, limit, steps, run))
    decreases steps, 0, 0
  {
    if steps != [] {
      StepAccounted(s, limit, steps[0], run);
      var first := ExecuteStep(s, limit, steps[0], run);
      if first.Done? {
        StepsAccounted(s, limit, steps[1..], first.run);
      }
    }
  }

  lemma {:induction false} StepAccounted(s: Surroundings, limit: nat, step: TStep, before: Run)
    ensures Accounted(before, ExecuteStep(s, limit, step, before))
    decreases step, 0, 0
  {
    var run := Visit(before);
    match step
    case Request(_, _, _) =>
    case Extract(_, _, _, _, _) =>
    case If(condition, thenSteps, otherwise) =>
      var holds := s.world.truth(condition, run.vars);
      if holds.Some? {
        StepsAccounted(s, limit, if holds.value then thenSteps else otherwise, run);
      }
    case ForEach(item, items, steps) =>
      var values := LoopValues(s.world, items, run.vars);
      if values.Ok? && |values.value| <= limit {
        EachAccounted(s, limit, item, values.value, 0, steps, run);
      }
    case Delay(_) =>
  }

  lemma {:induction false} EachAccounted(s: Surroundings, limit: nat, item: string, values: seq<Value>, index: nat, steps: seq<TStep>, run: Run)
    requires index <= |values|
    ensures Accounted(run, ExecuteEach(s, limit, item, values, index, steps, run))
    decreases steps, 1, |values| - index
  {
    if index < |values| {
      var first := run.(vars := run.vars[item := values[index]]);
      StepsAccounted(s, limit, steps, first);
      var outcome := ExecuteSteps(s, limit, steps, first);
      if outcome.Done? {
        EachAccounted(s, limit, item, values, index + 1, steps, outcome.run);
      }
    }
  }

  // ----- the time -----

  /** The most steps a run can take when every loop goes round `limit` times. */
  function StepsCost(limit: nat, steps: seq<TStep>): nat
    decreases steps, 0
  {
    if steps == [] then 0 else StepCost(limit, steps[0]) + StepsCost(limit, steps[1..])
  }

  function StepCost(limit: nat, step: TStep): nat
    decreases step, 0
  {
    match step
    case If(_, thenSteps, otherwise) => 1 + Max(StepsCost(limit, thenSteps), StepsCost(limit, otherwise))
    case ForEach(_, _, steps) => 1 + Times(limit, StepsCost(limit, steps))
    case _ => 1
  }

  lemma {:induction false} StepsTake(s: Surroundings, limit: nat, steps: seq<TStep>, run: Run)
    ensures ExecuteSteps(s, limit, steps, run).run.visits - run.visits <= StepsCost(limit, steps)
    decreases steps, 0, 0
  {
    if steps != [] {
      StepTakes(s, limit, steps[0], run);
      var first := ExecuteStep(s, limit, steps[0], run);
      if first.Done? {
        StepsTake(s, limit, steps[1..], first.run);
      }
    }
  }

  lemma {:induction false} StepTakes(s: Surroundings, limit: nat, step: TStep, before: Run)
    ensures ExecuteStep(s, limit, step, before).run.visits - before.visits <= StepCost(limit, step)
    decreases step, 0, 0
  {
    var run := Visit(before);
    match step
    case Request(_, _, _) =>
    case Extract(_, _, _, _, _) =>
    case If(condition, thenSteps, otherwise) =>
      var holds := s.world.truth(condition, run.vars);
      if holds.Some? {
        StepsTake(s, limit, if holds.value then thenSteps else otherwise, run);
      }
    case ForEach(item, items, steps) =>
      var values := LoopValues(s.world, items, run.vars);
      if values.Ok? && |values.value| <= limit {
        EachTakes(s, limit, item, values.value, 0, steps, run);
        TimesGrows(|values.value|, limit, StepsCost(limit, steps));
      }
    case Delay(_) =>
  }

  lemma {:induction false} EachTakes(s: Surroundings, limit: nat, item: string, values: seq<Value>, index: nat, steps: seq<TStep>, run: Run)
    requires index <= |values|
    ensures ExecuteEach(s, limit, item, values, index, steps, run).run.visits - run.visits
         <= Times(|values| - index, StepsCost(limit, steps))
    decreases steps, 1, |values| - index
  {
    if index < |values| {
      var first := run.(vars := run.vars[item := values[index]]);
      StepsTake(s, limit, steps, first);
      var outcome := ExecuteSteps(s, limit, steps, first);
      if outcome.Done? {
        EachTakes(s, limit, item, values, index + 1, steps, outcome.run);
      }
    }
  }

  lemma {:induction false} FirstApart(steps: seq<TStep>)
    requires steps != []
    ensures Template.Steps(steps) == 1 + Inner(steps[0]) + Template.Steps(steps[1..])
    ensures Nesting(steps) == Larger(Lists(steps[0]), Nesting(steps[1..]))
  {
    var front, last := steps[..|steps| - 1], steps[|steps| - 1];
    if front == [] {
      assert steps == [last] && steps[1..] == [];
    } else {
      FirstApart(front);
      assert steps[1..][..|steps| - 2] == front[1..];
    }
  }

  lemma {:induction false} StepsCostBound(limit: nat, steps: seq<TStep>)
    ensures StepsCost(limit, steps) <= Template.Steps(steps) * Power(Max(limit, 1), Nesting(steps))
    decreases steps, 0
  {
    if steps != [] {
      var base, depth := Max(limit, 1), Nesting(steps);
      FirstApart(steps);
      StepCostBound(limit, steps[0]);
      StepsCostBound(limit, steps[1..]);
      Widen(1 + Inner(steps[0]), base, Lists(steps[0]), depth);
      Widen(Template.Steps(steps[1..]), base, Nesting(steps[1..]), depth);
      Distribute(1 + Inner(steps[0]), Template.Steps(steps[1..]), Power(base, depth));
    }
  }

  lemma {:induction false} StepCostBound(limit: nat, step: TStep)
    ensures StepCost(limit, step) <= (1 + Inner(step)) * Power(Max(limit, 1), Lists(step))
    decreases step, 0
  {
    var base := Max(limit, 1);
    match step
    case If(_, thenSteps, otherwise) =>
      var depth := Lists(step);
      StepsCostBound(limit, thenSteps);
      StepsCostBound(limit, otherwise);
      Widen(Template.Steps(thenSteps), base, Nesting(thenSteps), depth);
      Widen(Template.Steps(otherwise), base, Nesting(otherwise), depth);
      Distribute3(Template.Steps(thenSteps), Template.Steps(otherwise), Power(base, depth));
    case ForEach(_, _, steps) =>
      StepsCostBound(limit, steps);
      LoopBound(limit, StepsCost(limit, steps), Template.Steps(steps), Power(base, Nesting(steps)));
    case Request(_, _, _) =>
    case Extract(_, _, _, _, _) =>
    case Delay(_) =>
  }

  /** A template that is accepted takes at most 1000 * L^16 steps, L being the loop limit
      of its context, whatever its requests and expressions answer. */
  lemma AcceptedTemplatesEnd(s: Surroundings, limit: nat, d: Definition, run: Run)
    requires Accepted(d)
    ensures ExecuteSteps(s, limit, d.steps, run).run.visits - run.visits <= 1000 * Power(Max(limit, 1), 16)
    ensures Accounted(run, ExecuteSteps(s, limit, d.steps, run))
  {
    StepsTake(s, limit, d.steps, run);
    StepsCostBound(limit, d.steps);
    StepsAccounted(s, limit, d.steps, run);
    Widen(Template.Steps(d.steps), Max(limit, 1), Nesting(d.steps), 16);
    Scale(Template.Steps(d.steps), 1000, Power(Max(limit, 1), 16));
  }
}
