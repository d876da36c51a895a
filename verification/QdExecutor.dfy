/** The interpreter itself, which updates an execution context in place. */
module QdExecutor {
  import opened Text
  import opened QdProgram
  import opened QdRun

  class ExecutionContext {
    var variables: Vars
    var remainingRequests: nat
    var loopLimit: nat
    var results: seq<StepResult>
    // What the world has seen of this run.
    var sent: seq<Sent>
    ghost var visits: nat

    constructor WithLimits(variables: Vars, requestLimit: nat, loopLimit: nat)
      ensures State() == Run(variables, requestLimit, [], [], 0)
      ensures this.loopLimit == loopLimit
    {
      this.variables, this.remainingRequests, this.loopLimit := variables, requestLimit, loopLimit;
      this.results, this.sent, this.visits := [], [], 0;
    }

    ghost function State(): Run
      reads this
    {
      Run(variables, remainingRequests, results, sent, visits)
    }
  }

  ghost function Ended(error: Option<RunError>, run: Run): Outcome {
    match error
    case None => Done(run)
    case Some(e) => Failed(e, run)
  }

  class Executor {
    const world: World
    const requestLimit: nat
    const loopLimit: nat

    constructor (world: World, requestLimit: nat, loopLimit: nat)
      requires requestLimit > 0 && loopLimit > 0
      ensures this.world == world && this.requestLimit == requestLimit && this.loopLimit == loopLimit
    {
      this.world, this.requestLimit, this.loopLimit := world, requestLimit, loopLimit;
    }

    /** The context's own limits are lowered to the executor's first. */
    method Execute(program: seq<Block>, context: ExecutionContext) returns (error: Option<RunError>)
      modifies context
      ensures context.loopLimit == Min(old(context.loopLimit), loopLimit)
      ensures Ended(error, context.State())
           == ExecuteBlocks(world, context.loopLimit, program,
                old(context.State()).(remaining := Min(old(context.remainingRequests), requestLimit)))
    {
      context.remainingRequests := Min(context.remainingRequests, requestLimit);
      context.loopLimit := Min(context.loopLimit, loopLimit);
      error := RunBlocks(program, context);
    }

    method RunBlocks(blocks: seq<Block>, context: ExecutionContext) returns (error: Option<RunError>)
      modifies context
      ensures context.loopLimit == old(context.loopLimit)
      ensures Ended(error, context.State()) == ExecuteBlocks(world, context.loopLimit, blocks, old(context.State()))
      decreases blocks, 0, 0
    {
      ghost var limit, start := context.loopLimit, context.State();
      for i := 0 to |blocks|
        invariant context.loopLimit == limit
        invariant ExecuteBlocks(world, limit, blocks, start) == ExecuteBlocks(world, limit, blocks[i..], context.State())
      {
        assert blocks[i..][1..] == blocks[i + 1..];
        error := RunBlock(blocks[i], context);
        if error.Some? {
          return;
        }
      }
      error := None;
    }

    method RunBlock(block: Block, context: ExecutionContext) returns (error: Option<RunError>)
      modifies context
      ensures context.loopLimit == old(context.loopLimit)
      ensures Ended(error, context.State()) == ExecuteBlock(world, context.loopLimit, block, old(context.State()))
      decreases block, 0, 0
    {
      hide ExecuteBlocks, ExecuteFor, ExecuteWhile, ExecuteRequest, LoopValues, EnterLoop, LeaveLoop;
      context.visits := context.visits + 1;
      match block {
        case Request(entry) =>
          error := RunRequest(entry, context);
        case If(condition, thenBlocks, elseBlocks) =>
          var holds := world.truth(condition, context.variables);
          if holds.None? {
            return Some(EvaluationFailed);
          }
          var selected := if holds.value then thenBlocks else elseBlocks;
          error := RunBlocks(selected, context);
        case For(target, source, body) =>
          var values := LoopValues(world, source, context.variables);
          if values.Err? {
            return Some(values.error);
          }
          if |values.value| > context.loopLimit {
            return Some(LoopLimit);
          }
          context.variables := EnterLoop(context.variables);
          error := RunFor(target, values.value, body, context);
          if error.Some? {
            return;
          }
          context.variables := LeaveLoop(context.variables);
        case While(condition, body) =>
          context.variables := EnterLoop(context.variables);
          error := RunWhile(condition, body, context);
          if error.Some? {
            return;
          }
          context.variables := LeaveLoop(context.variables);
      }
    }

    method RunFor(target: string, values: seq<Value>, body: seq<Block>, context: ExecutionContext)
      returns (error: Option<RunError>)
      modifies context
      ensures context.loopLimit == old(context.loopLimit)
      ensures Ended(error, context.State())
           == ExecuteFor(world, context.loopLimit, target, values, 0, body, old(context.State()))
      decreases body, 1, 0
    {
      ghost var limit, start := context.loopLimit, context.State();
      for index := 0 to |values|
        invariant context.loopLimit == limit
        invariant ExecuteFor(world, limit, target, values, 0, body, start)
               == ExecuteFor(world, limit, target, values, index, body, context.State())
      {
        context.variables := context.variables[target := values[index]];
        context.variables := SetLoopVariables(context.variables, index, |values|);
        error := RunBlocks(body, context);
        if error.Some? {
          return;
        }
      }
      error := None;
    }

    method RunWhile(condition: string, body: seq<Block>, context: ExecutionContext)
      returns (error: Option<RunError>)
      modifies context
      ensures context.loopLimit == old(context.loopLimit)
      ensures Ended(error, context.State())
           == ExecuteWhile(world, context.loopLimit, condition, 0, body, old(context.State()))
      decreases body, 1, 0
    {
      ghost var start := context.State();
      var limit := context.loopLimit;
      for index := 0 to limit
        invariant context.loopLimit == limit
        invariant ExecuteWhile(world, limit, condition, 0, body, start)
               == ExecuteWhile(world, limit, condition, index, body, context.State())
      {
        context.variables := SetLoopVariables(context.variables, index, limit);
        var holds := world.truth(condition, context.variables);
        if holds.None? {
          return Some(EvaluationFailed);
        }
        if !holds.value {
          return None;
        }
        error := RunBlocks(body, context);
        if error.Some? {
          return;
        }
        if index + 1 == limit {
          return Some(LoopLimit);
        }
      }
      error := None;
    }

    method RunRequest(entry: Entry, context: ExecutionContext) returns (error: Option<RunError>)
      modifies context
      ensures context.loopLimit == old(context.loopLimit)
      ensures Ended(error, context.State()) == ExecuteRequest(world, entry, old(context.State()))
    {
      if context.remainingRequests == 0 {
        return Some(RequestLimit);
      }
      context.remainingRequests := context.remainingRequests - 1;
      var reply := world.request(entry, context.variables, context.sent);
      context.sent := context.sent + [Sent(entry, context.variables)];
      match reply {
        case Refused(vars) =>
          context.variables := vars;
          return Some(RequestFailed);
        case Answered(result, vars) =>
          context.variables := vars;
          context.results := context.results + [result];
          return None;
      }
    }
  }

  function Min(a: nat, b: nat): nat {
    if a < b then a else b
  }
}
