/** The meaning of a compiled program: what running its blocks does to the
    variables, the request budget and the results. */
module QdRun {
  import opened Text
  import opened QdProgram

  datatype Value =
    | Str(text: string)
    | Arr(items: seq<Value>)
    | Obj(fields: seq<Field>)
    | Scalar(json: string)

  /** A JSON object's fields, in the order the object iterates over them. */
  datatype Field = Field(key: string, value: Value)

  type Vars = map<string, Value>

  datatype StepResult = StepResult(url: string, status: nat, bodySize: nat)

  /** One request that left the budget: the entry and the variables it saw. */
  datatype Sent = Sent(entry: Entry, vars: Vars)

  datatype Reply =
    | Answered(result: StepResult, vars: Vars)
    | Refused(vars: Vars)

  /** Everything outside the interpreter. Expressions see the variables; a request
      also depends on every request sent before it, which stands for the cookie
      jar, the servers and the last response. */
  datatype World = World(
    truth: (string, Vars) -> Option<bool>,
    value: (string, Vars) -> Option<Value>,
    request: (Entry, Vars, seq<Sent>) -> Reply)

  /** What a run has done so far. `visits` counts the blocks entered. */
  datatype Run = Run(
    vars: Vars,
    remaining: nat,
    results: seq<StepResult>,
    sent: seq<Sent>,
    visits: nat)

  datatype RunError = RequestLimit | RequestFailed | EvaluationFailed | NotIterable | LoopLimit | ExtractionFailed

  datatype Outcome =
    | Done(run: Run)
    | Failed(error: RunError, run: Run)

  function Iterable(value: Value): Option<seq<Value>> {
    match value
    case Arr(items) => Some(items)
    case Obj(fields) => Some(seq(|fields|, i requires 0 <= i < |fields| => Str(fields[i].key)))
    case Str(text) => Some(seq(|text|, i requires 0 <= i < |text| => Str([text[i]])))
    case Scalar(_) => None
  }

  /** What a `for` iterates over: a variable of that name, or an expression. */
  function LoopValues(w: World, source: string, vars: Vars): Result<seq<Value>, RunError> {
    var value := if source in vars then Some(vars[source]) else w.value(source, vars);
    if value.None? then Err(EvaluationFailed)
    else match Iterable(value.value)
         case None => Err(NotIterable)
         case Some(values) => Ok(values)
  }

  function LoopDepth(vars: Vars, default: nat): nat {
    if "loop_depth" in vars && vars["loop_depth"].Str?
    then match ParseUsize(vars["loop_depth"].text)
         case Some(depth) => depth
         case None => default
    else default
  }

  function EnterLoop(vars: Vars): Vars {
    var depth := LoopDepth(vars, 0) + 1;
    vars["loop_depth" := Str(Decimal(depth))]["loop_depth0" := Str(Decimal(depth - 1))]
  }

  function LeaveLoop(vars: Vars): Vars {
    var outer := LoopDepth(vars, 1) - 1;
    var depth := if outer < 0 then 0 else outer;
    vars["loop_depth" := Str(Decimal(depth))]["loop_depth0" := Str(Decimal(depth - 1))]
  }

  function Flag(b: bool): Value {
    Str(if b then "True" else "False")
  }

  /** Leaving a loop undoes entering it: what is around it sees its own depth again, and
      the depth counted from zero is one less, which is -1 around the outermost. */
  lemma DepthIsRestored(vars: Vars)
    requires LoopDepth(vars, 0) + 1 < USIZE_LIMIT
    ensures LoopDepth(EnterLoop(vars), 0) == LoopDepth(vars, 0) + 1
    ensures LoopDepth(LeaveLoop(EnterLoop(vars)), 0) == LoopDepth(vars, 0)
    ensures EnterLoop(vars)["loop_depth0"] == Str(Decimal(LoopDepth(vars, 0)))
    ensures LeaveLoop(EnterLoop(vars))["loop_depth0"] == Str(Decimal(LoopDepth(vars, 0) - 1))
  {
    var depth := LoopDepth(vars, 0) + 1;
    ParseDecimal(depth);
    ParseDecimal(depth - 1);
    assert LoopDepth(EnterLoop(vars), 1) == depth;
  }

  function SetLoopVariables(vars: Vars, index: int, length: int): Vars {
    vars["loop_index0" := Str(Decimal(index))]
        ["loop_index" := Str(Decimal(index + 1))]
        ["loop_first" := Flag(index == 0)]
        ["loop_last" := Flag(index + 1 == length)]
        ["loop_length" := Str(Decimal(length))]
        ["loop_revindex0" := Str(Decimal(length - index - 1))]
        ["loop_revindex" := Str(Decimal(length - index))]
  }

  function Entered(run: Run): Run {
    run.(vars := EnterLoop(run.vars))
  }

  /** Loops are left through `leave_loop` only when they end without an error. */
  function Left(outcome: Outcome): Outcome {
    match outcome
    case Done(run) => Done(run.(vars := LeaveLoop(run.vars)))
    case Failed(_, _) => outcome
  }

  function Visit(run: Run): Run {
    run.(visits := run.visits + 1)
  }

  function ExecuteRequest(w: World, entry: Entry, run: Run): Outcome {
    if run.remaining == 0 then Failed(RequestLimit, run)
    else
      var sent := run.(remaining := run.remaining - 1, sent := run.sent + [Sent(entry, run.vars)]);
      match w.request(entry, run.vars, run.sent)
      case Answered(result, vars) => Done(sent.(vars := vars, results := run.results + [result]))
      case Refused(vars) => Failed(RequestFailed, sent.(vars := vars))
  }

  function ExecuteBlocks(w: World, limit: nat, blocks: seq<Block>, run: Run): Outcome
    decreases blocks, 0, 0
  {
    if blocks == [] then Done(run)
    else match ExecuteBlock(w, limit, blocks[0], run)
         case Done(next) => ExecuteBlocks(w, limit, blocks[1..], next)
         case Failed(error, next) => Failed(error, next)
  }

  function ExecuteBlock(w: World, limit: nat, block: Block, before: Run): Outcome
    decreases block, 0, 0
  {
    var run := Visit(before);
    match block
    case Request(entry) => ExecuteRequest(w, entry, run)
    case If(condition, thenBlocks, elseBlocks) =>
      (match w.truth(condition, run.vars)
       case None => Failed(EvaluationFailed, run)
       case Some(holds) => ExecuteBlocks(w, limit, if holds then thenBlocks else elseBlocks, run))
    case For(target, source, body) =>
      (match LoopValues(w, source, run.vars)
       case Err(error) => Failed(error, run)
       case Ok(values) =>
         if |values| > limit then Failed(LoopLimit, run)
         else Left(ExecuteFor(w, limit, target, values, 0, body, Entered(run))))
    case While(condition, body) =>
      Left(ExecuteWhile(w, limit, condition, 0, body, Entered(run)))
  }

  /** The iterations of a `for` from `index` on. */
  function ExecuteFor(w: World, limit: nat, target: string, values: seq<Value>, index: nat, body: seq<Block>, run: Run): Outcome
    requires index <= |values|
    decreases body, 1, |values| - index
  {
    if index == |values| then Done(run)
    else match ExecuteBlocks(w, limit, body, ForIteration(target, values, index, run))
         case Done(next) => ExecuteFor(w, limit, target, values, index + 1, body, next)
         case Failed(error, next) => Failed(error, next)
  }

  function ForIteration(target: string, values: seq<Value>, index: nat, run: Run): Run
    requires index < |values|
  {
    run.(vars := SetLoopVariables(run.vars[target := values[index]], index, |values|))
  }

  /** The iterations of a `while` from `index` on; a loop that would need a check
      beyond the limit fails after its last body. */
  function ExecuteWhile(w: World, limit: nat, condition: string, index: nat, body: seq<Block>, run: Run): Outcome
    requires index <= limit
    decreases body, 1, limit - index
  {
    if index == limit then Done(run)
    else
      var check := WhileIteration(limit, index, run);
      match w.truth(condition, check.vars)
      case None => Failed(EvaluationFailed, check)
      case Some(false) => Done(check)
      case Some(true) =>
        match ExecuteBlocks(w, limit, body, check)
        case Failed(error, next) => Failed(error, next)
        case Done(next) =>
          if index + 1 == limit then Failed(LoopLimit, next)
          else ExecuteWhile(w, limit, condition, index + 1, body, next)
  }

  function WhileIteration(length: nat, index: nat, run: Run): Run {
    run.(vars := SetLoopVariables(run.vars, index, length))
  }
}
