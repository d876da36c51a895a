/** The request budget over whole runs: what it pays for, and what a different
    budget would have changed. */
module QdBudget {
  import opened Text
  import opened QdProgram
  import opened QdRun

  /** Results and requests only grow, the budget pays for exactly the requests,
      and every request but a failing last one has its result. */
  ghost predicate Accounted(before: Run, outcome: Outcome) {
    var after := outcome.run;
    var spent := |after.sent| - |before.sent|;
    var answered := |after.results| - |before.results|;
    && before.sent <= after.sent
    && before.results <= after.results
    && before.remaining - after.remaining == spent
    && match outcome
       case Done(_) => spent == answered
       case Failed(RequestLimit, _) => spent == answered && after.remaining == 0
       case Failed(RequestFailed, _) => spent == answered + 1
       case Failed(_, _) => spent == answered
  }

  lemma {:induction false} BlocksAccounted(w: World, limit: nat, blocks: seq<Block>, run: Run)
    ensures Accounted(run, ExecuteBlocks(w, limit, blocks, run))
    decreases blocks, 0, 0
  {
    if blocks != [] {
      BlockAccounted(w, limit, blocks[0], run);
      var first := ExecuteBlock(w, limit, blocks[0], run);
      if first.Done? {
        BlocksAccounted(w, limit, blocks[1..], first.run);
      }
    }
  }

  lemma {:induction false} BlockAccounted(w: World, limit: nat, block: Block, before: Run)
    ensures Accounted(before, ExecuteBlock(w, limit, block, before))
    decreases block, 0, 0
  {
    var run := Visit(before);
    match block
    case Request(_) =>
    case If(condition, thenBlocks, elseBlocks) =>
      var holds := w.truth(condition, run.vars);
      if holds.Some? {
        BlocksAccounted(w, limit, if holds.value then thenBlocks else elseBlocks, run);
      }
    case For(target, source, body) =>
      var values := LoopValues(w, source, run.vars);
      if values.Ok? && |values.value| <= limit {
        ForAccounted(w, limit, target, values.value, 0, body, Entered(run));
      }
    case While(condition, body) =>
      WhileAccounted(w, limit, condition, 0, body, Entered(run));
  }

  lemma {:induction false} ForAccounted(w: World, limit: nat, target: string, values: seq<Value>, index: nat, body: seq<Block>, run: Run)
    requires index <= |values|
    ensures Accounted(run, ExecuteFor(w, limit, target, values, index, body, run))
    decreases body, 1, |values| - index
  {
    if index < |values| {
      var first := ForIteration(target, values, index, run);
      BlocksAccounted(w, limit, body, first);
      var outcome := ExecuteBlocks(w, limit, body, first);
      if outcome.Done? {
        ForAccounted(w, limit, target, values, index + 1, body, outcome.run);
      }
    }
  }

  lemma {:induction false} WhileAccounted(w: World, limit: nat, condition: string, index: nat, body: seq<Block>, run: Run)
    requires index <= limit
    ensures Accounted(run, ExecuteWhile(w, limit, condition, index, body, run))
    decreases body, 1, limit - index
  {
    if index < limit {
      var check := WhileIteration(limit, index, run);
      BlocksAccounted(w, limit, body, check);
      var outcome := ExecuteBlocks(w, limit, body, check);
      if outcome.Done? && index + 1 < limit {
        WhileAccounted(w, limit, condition, index + 1, body, outcome.run);
      }
    }
  }

  // ----- the same run under another budget -----

  function WithBudget(run: Run, budget: nat): Run {
    run.(remaining := budget)
  }

  /** `other` is how the run that ended in `outcome`, having started with
      `had`, would have ended starting with `budget`. A run that failed on the
      budget itself says nothing. */
  ghost predicate SameUpToBudget(had: nat, outcome: Outcome, budget: nat, other: Outcome) {
    var spent := had - outcome.run.remaining;
    if outcome.Failed? && outcome.error == RequestLimit then true
    else if budget < spent then other.Failed? && other.error == RequestLimit
    else other == outcome.(run := outcome.run.(remaining := budget - spent))
  }

  /** A run that did not fail on its budget needs exactly what it spent: with that
      much or more it ends the same way, with less it fails on the budget. */
  lemma {:induction false} BudgetIsExact(w: World, limit: nat, blocks: seq<Block>, run: Run, budget: nat)
    ensures SameUpToBudget(run.remaining, ExecuteBlocks(w, limit, blocks, run),
              budget, ExecuteBlocks(w, limit, blocks, WithBudget(run, budget)))
    decreases blocks, 0, 0
  {
    if blocks != [] {
      BlockBudgetIsExact(w, limit, blocks[0], run, budget);
      var first := ExecuteBlock(w, limit, blocks[0], run);
      BlockAccounted(w, limit, blocks[0], run);
      if first.Done? {
        var left := budget - (run.remaining - first.run.remaining);
        BlocksAccounted(w, limit, blocks[1..], first.run);
        if left >= 0 {
          BudgetIsExact(w, limit, blocks[1..], first.run, left);
        }
      }
    }
  }

  lemma RequestBudgetIsExact(w: World, entry: Entry, run: Run, budget: nat)
    ensures SameUpToBudget(run.remaining, ExecuteRequest(w, entry, run),
              budget, ExecuteRequest(w, entry, WithBudget(run, budget)))
  {
  }

  lemma {:induction false} BlockBudgetIsExact(w: World, limit: nat, block: Block, before: Run, budget: nat)
    ensures SameUpToBudget(before.remaining, ExecuteBlock(w, limit, block, before),
              budget, ExecuteBlock(w, limit, block, WithBudget(before, budget)))
    decreases block, 0, 0
  {
    var run := Visit(before);
    assert Visit(WithBudget(before, budget)) == WithBudget(run, budget);
    assert Entered(WithBudget(run, budget)) == WithBudget(Entered(run), budget);
    match block
    case Request(entry) =>
      RequestBudgetIsExact(w, entry, run, budget);
    case If(condition, thenBlocks, elseBlocks) =>
      var holds := w.truth(condition, run.vars);
      if holds.Some? {
        BudgetIsExact(w, limit, if holds.value then thenBlocks else elseBlocks, run, budget);
      }
    case For(target, source, body) =>
      var values := LoopValues(w, source, run.vars);
      if values.Ok? && |values.value| <= limit {
        ForBudgetIsExact(w, limit, target, values.value, 0, body, Entered(run), budget);
      }
    case While(condition, body) =>
      WhileBudgetIsExact(w, limit, condition, 0, body, Entered(run), budget);
  }

  lemma {:induction false} ForBudgetIsExact(w: World, limit: nat, target: string, values: seq<Value>, index: nat, body: seq<Block>, run: Run, budget: nat)
    requires index <= |values|
    ensures SameUpToBudget(run.remaining, ExecuteFor(w, limit, target, values, index, body, run),
              budget, ExecuteFor(w, limit, target, values, index, body, WithBudget(run, budget)))
    decreases body, 1, |values| - index
  {
    if index < |values| {
      var first := ForIteration(target, values, index, run);
      BudgetIsExact(w, limit, body, first, budget);
      BlocksAccounted(w, limit, body, first);
      var outcome := ExecuteBlocks(w, limit, body, first);
      if outcome.Done? {
        ForAccounted(w, limit, target, values, index + 1, body, outcome.run);
        var left := budget - (run.remaining - outcome.run.remaining);
        if left >= 0 {
          ForBudgetIsExact(w, limit, target, values, index + 1, body, outcome.run, left);
        }
      }
    }
  }

  lemma {:induction false} WhileBudgetIsExact(w: World, limit: nat, condition: string, index: nat, body: seq<Block>, run: Run, budget: nat)
    requires index <= limit
    ensures SameUpToBudget(run.remaining, ExecuteWhile(w, limit, condition, index, body, run),
              budget, ExecuteWhile(w, limit, condition, index, body, WithBudget(run, budget)))
    decreases body, 1, limit - index
  {
    hide ExecuteBlocks, SetLoopVariables;
    if index < limit {
      var check := WhileIteration(limit, index, run);
      BudgetIsExact(w, limit, body, check, budget);
      BlocksAccounted(w, limit, body, check);
      var outcome := ExecuteBlocks(w, limit, body, check);
      if outcome.Done? && index + 1 < limit {
        WhileAccounted(w, limit, condition, index + 1, body, outcome.run);
        var left := budget - (run.remaining - outcome.run.remaining);
        if left >= 0 {
          WhileBudgetIsExact(w, limit, condition, index + 1, body, outcome.run, left);
        }
      }
    }
  }

  // ----- how long a run can be -----

  function Power(base: nat, exponent: nat): (r: nat)
    ensures base >= 1 ==> r >= 1
  {
    if exponent == 0 then 1 else base * Power(base, exponent - 1)
  }

  function Max(a: nat, b: nat): nat {
    if a < b then b else a
  }

  function Size(blocks: seq<Block>): nat
    decreases blocks, 0
  {
    if blocks == [] then 0 else SizeOne(blocks[0]) + Size(blocks[1..])
  }

  function SizeOne(block: Block): nat
    decreases block, 0
  {
    match block
    case Request(_) => 1
    case For(_, _, body) => 1 + Size(body)
    case While(_, body) => 1 + Size(body)
    case If(_, thenBlocks, elseBlocks) => 1 + Size(thenBlocks) + Size(elseBlocks)
  }

  /** How deep loops are nested. */
  function Depth(blocks: seq<Block>): nat
    decreases blocks, 0
  {
    if blocks == [] then 0 else Max(DepthOne(blocks[0]), Depth(blocks[1..]))
  }

  function DepthOne(block: Block): nat
    decreases block, 0
  {
    match block
    case Request(_) => 0
    case For(_, _, body) => 1 + Depth(body)
    case While(_, body) => 1 + Depth(body)
    case If(_, thenBlocks, elseBlocks) => Max(Depth(thenBlocks), Depth(elseBlocks))
  }

  lemma {:induction false} PowerGrows(base: nat, a: nat, b: nat)
    requires base >= 1 && a <= b
    ensures Power(base, a) <= Power(base, b)
    decreases b
  {
    if a < b {
      PowerGrows(base, a, b - 1);
      Scale(1, base, Power(base, b - 1));
    }
  }

  lemma Scale(a: nat, b: nat, c: nat)
    requires a <= b
    ensures a * c <= b * c && c * a <= c * b
  {
  }

  /** `n` blocks at depth at most `a` cost no more than at depth `b`. */
  lemma Widen(n: nat, base: nat, a: nat, b: nat)
    requires base >= 1 && a <= b
    ensures n * Power(base, a) <= n * Power(base, b)
  {
    PowerGrows(base, a, b);
    Scale(Power(base, a), Power(base, b), n);
  }

  /** The most blocks a run can enter: a loop's body counts `limit` times. */
  function Cost(limit: nat, blocks: seq<Block>): nat
    decreases blocks, 0
  {
    if blocks == [] then 0 else CostOne(limit, blocks[0]) + Cost(limit, blocks[1..])
  }

  function CostOne(limit: nat, block: Block): nat
    decreases block, 0
  {
    match block
    case Request(_) => 1
    case For(_, _, body) => 1 + Times(limit, Cost(limit, body))
    case While(_, body) => 1 + Times(limit, Cost(limit, body))
    case If(_, thenBlocks, elseBlocks) => 1 + Max(Cost(limit, thenBlocks), Cost(limit, elseBlocks))
  }

  function Times(n: nat, cost: nat): nat {
    if n == 0 then 0 else cost + Times(n - 1, cost)
  }

  lemma {:induction false} TimesIsProduct(n: nat, cost: nat)
    ensures Times(n, cost) == n * cost
  {
    if n > 0 {
      TimesIsProduct(n - 1, cost);
      assert n * cost == (n - 1) * cost + cost;
    }
  }

  lemma {:induction false} TimesGrows(a: nat, b: nat, cost: nat)
    requires a <= b
    ensures Times(a, cost) <= Times(b, cost)
    decreases b
  {
    if a < b {
      TimesGrows(a, b - 1, cost);
    }
  }

  lemma {:induction false} RunCost(w: World, limit: nat, blocks: seq<Block>, run: Run)
    ensures ExecuteBlocks(w, limit, blocks, run).run.visits - run.visits <= Cost(limit, blocks)
    decreases blocks, 0, 0
  {
    if blocks != [] {
      RunCostOne(w, limit, blocks[0], run);
      var first := ExecuteBlock(w, limit, blocks[0], run);
      if first.Done? {
        RunCost(w, limit, blocks[1..], first.run);
      }
    }
  }

  lemma {:induction false} RunCostOne(w: World, limit: nat, block: Block, before: Run)
    ensures ExecuteBlock(w, limit, block, before).run.visits - before.visits <= CostOne(limit, block)
    decreases block, 0, 0
  {
    var run := Visit(before);
    match block
    case Request(_) =>
    case If(condition, thenBlocks, elseBlocks) =>
      var holds := w.truth(condition, run.vars);
      if holds.Some? {
        RunCost(w, limit, if holds.value then thenBlocks else elseBlocks, run);
      }
    case For(target, source, body) =>
      var values := LoopValues(w, source, run.vars);
      if values.Ok? && |values.value| <= limit {
        RunCostFor(w, limit, target, values.value, 0, body, Entered(run));
        TimesGrows(|values.value|, limit, Cost(limit, body));
      }
    case While(condition, body) =>
      RunCostWhile(w, limit, condition, 0, body, Entered(run));
  }

  lemma {:induction false} RunCostFor(w: World, limit: nat, target: string, values: seq<Value>, index: nat, body: seq<Block>, run: Run)
    requires index <= |values|
    ensures ExecuteFor(w, limit, target, values, index, body, run).run.visits - run.visits
         <= Times(|values| - index, Cost(limit, body))
    decreases body, 1, |values| - index
  {
    if index < |values| {
      var first := ForIteration(target, values, index, run);
      RunCost(w, limit, body, first);
      var outcome := ExecuteBlocks(w, limit, body, first);
      if outcome.Done? {
        RunCostFor(w, limit, target, values, index + 1, body, outcome.run);
      }
    }
  }

  lemma {:induction false} RunCostWhile(w: World, limit: nat, condition: string, index: nat, body: seq<Block>, run: Run)
    requires index <= limit
    ensures ExecuteWhile(w, limit, condition, index, body, run).run.visits - run.visits
         <= Times(limit - index, Cost(limit, body))
    decreases body, 1, limit - index
  {
    if index < limit {
      var check := WhileIteration(limit, index, run);
      RunCost(w, limit, body, check);
      var outcome := ExecuteBlocks(w, limit, body, check);
      if outcome.Done? && index + 1 < limit {
        RunCostWhile(w, limit, condition, index + 1, body, outcome.run);
      }
    }
  }

  lemma {:induction false} CostBound(limit: nat, blocks: seq<Block>)
    ensures Cost(limit, blocks) <= Size(blocks) * Power(Max(limit, 1), Depth(blocks))
    decreases blocks, 0
  {
    if blocks != [] {
      var base, depth := Max(limit, 1), Depth(blocks);
      CostBoundOne(limit, blocks[0]);
      CostBound(limit, blocks[1..]);
      Widen(SizeOne(blocks[0]), base, DepthOne(blocks[0]), depth);
      Widen(Size(blocks[1..]), base, Depth(blocks[1..]), depth);
      Distribute(SizeOne(blocks[0]), Size(blocks[1..]), Power(base, depth));
    }
  }

  lemma {:induction false} CostBoundOne(limit: nat, block: Block)
    ensures CostOne(limit, block) <= SizeOne(block) * Power(Max(limit, 1), DepthOne(block))
    decreases block, 0
  {
    var base := Max(limit, 1);
    match block
    case Request(_) =>
    case If(_, thenBlocks, elseBlocks) =>
      var depth := DepthOne(block);
      CostBound(limit, thenBlocks);
      CostBound(limit, elseBlocks);
      Widen(Size(thenBlocks), base, Depth(thenBlocks), depth);
      Widen(Size(elseBlocks), base, Depth(elseBlocks), depth);
      Distribute3(Size(thenBlocks), Size(elseBlocks), Power(base, depth));
    case For(_, _, body) =>
      CostBound(limit, body);
      LoopBound(limit, Cost(limit, body), Size(body), Power(base, Depth(body)));
    case While(_, body) =>
      CostBound(limit, body);
      LoopBound(limit, Cost(limit, body), Size(body), Power(base, Depth(body)));
  }

  lemma Distribute(a: nat, b: nat, c: nat)
    ensures (a + b) * c == a * c + b * c
  {
  }

  lemma Distribute3(a: nat, b: nat, c: nat)
    ensures (1 + a + b) * c == c + a * c + b * c
  {
  }

  lemma LoopBound(limit: nat, cost: nat, size: nat, power: nat)
    requires cost <= size * power && power >= 1
    ensures 1 + Times(limit, cost) <= (1 + size) * (Max(limit, 1) * power)
  {
    hide Power, Times;
    var base := Max(limit, 1);
    TimesIsProduct(limit, cost);
    Scale(cost, size * power, limit);
    Scale(limit, base, size * power);
    assert base * (size * power) == size * (base * power);
    Scale(1, base, power);
    Distribute(1, size, base * power);
  }

  /** A run enters at most size * L^depth blocks, L being the loop limit. */
  lemma RunBound(w: World, limit: nat, blocks: seq<Block>, run: Run)
    ensures ExecuteBlocks(w, limit, blocks, run).run.visits - run.visits
         <= Size(blocks) * Power(Max(limit, 1), Depth(blocks))
  {
    RunCost(w, limit, blocks, run);
    CostBound(limit, blocks);
  }
}
