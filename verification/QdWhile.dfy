/** The bounded `while` against the loop it stands for, which has no bound of its own;
    the loops in its body keep theirs. */
module QdWhile {
  import opened Text
  import opened QdProgram
  import opened QdRun

  /** The unbounded loop at its check number `k`: the first `k` checks held and
      the bodies after them ended well. `length` is what `loop_length` shows, and the
      limit of the loops in the body. */
  function AtCheck(w: World, length: nat, condition: string, body: seq<Block>, run: Run, k: nat): Option<Run> {
    if k == 0 then Some(WhileIteration(length, 0, run))
    else match AtCheck(w, length, condition, body, run, k - 1)
         case None => None
         case Some(check) =>
           if w.truth(condition, check.vars) != Some(true) then None
           else match ExecuteBlocks(w, length, body, check)
                case Done(next) => Some(WhileIteration(length, k, next))
                case Failed(_, _) => None
  }

  /** The unbounded loop ends at check `k`, in state `end`. */
  predicate EndsAt(w: World, length: nat, condition: string, body: seq<Block>, run: Run, k: nat, end: Run) {
    AtCheck(w, length, condition, body, run, k) == Some(end) && w.truth(condition, end.vars) == Some(false)
  }

  /** From check `k` on, the bounded loop ends well exactly when the unbounded
      one ends at one of the checks up to the limit. */
  lemma {:induction false} FromCheck(w: World, limit: nat, condition: string, body: seq<Block>, run: Run, k: nat, before: Run, end: Run)
    requires k < limit
    requires AtCheck(w, limit, condition, body, run, k) == Some(WhileIteration(limit, k, before))
    ensures ExecuteWhile(w, limit, condition, k, body, before) == Done(end)
       <==> exists j :: k <= j < limit && EndsAt(w, limit, condition, body, run, j, end)
    decreases limit - k
  {
    var check := WhileIteration(limit, k, before);
    var holds := w.truth(condition, check.vars);
    if holds != Some(true) {
      forall j | k < j < limit
        ensures !EndsAt(w, limit, condition, body, run, j, end)
      {
        NoCheckAfter(w, limit, condition, body, run, k, j);
      }
      assert holds == Some(false) && end == check ==> EndsAt(w, limit, condition, body, run, k, end);
    } else {
      var outcome := ExecuteBlocks(w, limit, body, check);
      assert !EndsAt(w, limit, condition, body, run, k, end);
      if outcome.Done? && k + 1 < limit {
        assert AtCheck(w, limit, condition, body, run, k + 1) == Some(WhileIteration(limit, k + 1, outcome.run));
        FromCheck(w, limit, condition, body, run, k + 1, outcome.run, end);
      } else {
        forall j | k < j < limit
          ensures !EndsAt(w, limit, condition, body, run, j, end)
        {
          assert AtCheck(w, limit, condition, body, run, k + 1) == None;
          NoCheckAfterNone(w, limit, condition, body, run, k + 1, j);
        }
      }
    }
  }

  lemma {:induction false} NoCheckAfterNone(w: World, length: nat, condition: string, body: seq<Block>, run: Run, k: nat, j: nat)
    requires AtCheck(w, length, condition, body, run, k) == None && k <= j
    ensures AtCheck(w, length, condition, body, run, j) == None
    decreases j
  {
    if k < j {
      NoCheckAfterNone(w, length, condition, body, run, k, j - 1);
    }
  }

  lemma NoCheckAfter(w: World, length: nat, condition: string, body: seq<Block>, run: Run, k: nat, j: nat)
    requires AtCheck(w, length, condition, body, run, k).Some? && k < j
    requires w.truth(condition, AtCheck(w, length, condition, body, run, k).value.vars) != Some(true)
    ensures AtCheck(w, length, condition, body, run, j) == None
  {
    NoCheckAfterNone(w, length, condition, body, run, k + 1, j);
  }

  /** A `while` with a limit of at least one ends well, in state `end`, exactly
      when the unbounded loop ends there at one of its first `limit` checks. */
  lemma WhileRefinesUnbounded(w: World, limit: nat, condition: string, body: seq<Block>, run: Run, end: Run)
    requires limit >= 1
    ensures ExecuteWhile(w, limit, condition, 0, body, run) == Done(end)
       <==> exists k :: 0 <= k < limit && EndsAt(w, limit, condition, body, run, k, end)
  {
    FromCheck(w, limit, condition, body, run, 0, run, end);
  }

  /** The unbounded loop ends at one check at most, so the two agree. */
  lemma UnboundedEndsOnce(w: World, length: nat, condition: string, body: seq<Block>, run: Run, j: nat, k: nat, a: Run, b: Run)
    requires EndsAt(w, length, condition, body, run, j, a) && EndsAt(w, length, condition, body, run, k, b)
    ensures j == k && a == b
  {
    if j < k {
      NoCheckAfter(w, length, condition, body, run, j, k);
    } else if k < j {
      NoCheckAfter(w, length, condition, body, run, k, j);
    }
  }

  /** The loop's own limit stops it when the first `limit` checks hold and all of their
      bodies end well. */
  lemma {:induction false} OwnLimitFrom(w: World, limit: nat, condition: string, body: seq<Block>, run: Run, k: nat, before: Run)
    requires k < limit
    requires AtCheck(w, limit, condition, body, run, k) == Some(WhileIteration(limit, k, before))
    requires AtCheck(w, limit, condition, body, run, limit).Some?
    ensures ExecuteWhile(w, limit, condition, k, body, before).Failed?
    ensures ExecuteWhile(w, limit, condition, k, body, before).error == LoopLimit
    decreases limit - k
  {
    var check := WhileIteration(limit, k, before);
    if w.truth(condition, check.vars) != Some(true) {
      NoCheckAfter(w, limit, condition, body, run, k, limit);
      assert false;
    }
    if ExecuteBlocks(w, limit, body, check).Failed? {
      assert AtCheck(w, limit, condition, body, run, k + 1) == None;
      NoCheckAfterNone(w, limit, condition, body, run, k + 1, limit);
      assert false;
    }
    if k + 1 < limit {
      OwnLimitFrom(w, limit, condition, body, run, k + 1, ExecuteBlocks(w, limit, body, check).run);
    }
  }

  lemma WhileStopsAtItsLimit(w: World, limit: nat, condition: string, body: seq<Block>, run: Run)
    requires limit >= 1 && AtCheck(w, limit, condition, body, run, limit).Some?
    ensures ExecuteWhile(w, limit, condition, 0, body, run).Failed?
    ensures ExecuteWhile(w, limit, condition, 0, body, run).error == LoopLimit
  {
    OwnLimitFrom(w, limit, condition, body, run, 0, run);
  }

  /** With a limit of zero, which a context may carry, the condition is never
      looked at. */
  lemma ZeroLimitSkips(w: World, condition: string, body: seq<Block>, run: Run)
    ensures ExecuteBlock(w, 0, While(condition, body), run)
         == Done(Visit(run).(vars := LeaveLoop(EnterLoop(run.vars))))
  {
  }

  // ----- raising the loop limit -----

  predicate WhileFree(blocks: seq<Block>)
    decreases blocks, 0
  {
    blocks == [] || (BlockIsWhileFree(blocks[0]) && WhileFree(blocks[1..]))
  }

  predicate BlockIsWhileFree(block: Block)
    decreases block, 0
  {
    match block
    case Request(_) => true
    case If(_, thenBlocks, elseBlocks) => WhileFree(thenBlocks) && WhileFree(elseBlocks)
    case For(_, _, body) => WhileFree(body)
    case While(_, _) => false
  }

  /** The same outcome, unless the smaller limit is what stopped the run. */
  predicate SameUnlessStopped(small: Outcome, large: Outcome) {
    small == large || (small.Failed? && small.error == LoopLimit)
  }

  /** Where no `while` is, raising the limit shows only in runs that the smaller limit
      stops: a run that ends well ends just as before. */
  lemma {:induction false} RaisingIsInvisible(w: World, a: nat, b: nat, blocks: seq<Block>, run: Run)
    requires a <= b && WhileFree(blocks)
    ensures SameUnlessStopped(ExecuteBlocks(w, a, blocks, run), ExecuteBlocks(w, b, blocks, run))
    decreases blocks, 0, 0
  {
    if blocks != [] {
      RaisingBlock(w, a, b, blocks[0], run);
      var first := ExecuteBlock(w, a, blocks[0], run);
      if first.Done? {
        RaisingIsInvisible(w, a, b, blocks[1..], first.run);
      }
    }
  }

  lemma {:induction false} RaisingBlock(w: World, a: nat, b: nat, block: Block, run: Run)
    requires a <= b && BlockIsWhileFree(block)
    ensures SameUnlessStopped(ExecuteBlock(w, a, block, run), ExecuteBlock(w, b, block, run))
    decreases block, 0, 0
  {
    var inside := Visit(run);
    match block
    case Request(_) =>
    case While(_, _) =>
    case If(condition, thenBlocks, elseBlocks) =>
      RaisingIsInvisible(w, a, b, if w.truth(condition, inside.vars) == Some(true) then thenBlocks else elseBlocks, inside);
    case For(target, source, body) =>
      var values := LoopValues(w, source, inside.vars);
      if values.Ok? && |values.value| <= a {
        RaisingFor(w, a, b, target, values.value, 0, body, Entered(inside));
      }
  }

  lemma {:induction false} RaisingFor(w: World, a: nat, b: nat, target: string, values: seq<Value>, index: nat, body: seq<Block>, run: Run)
    requires a <= b && index <= |values| && WhileFree(body)
    ensures SameUnlessStopped(ExecuteFor(w, a, target, values, index, body, run), ExecuteFor(w, b, target, values, index, body, run))
    decreases body, 1, |values| - index
  {
    if index < |values| {
      var iteration := ForIteration(target, values, index, run);
      RaisingIsInvisible(w, a, b, body, iteration);
      var once := ExecuteBlocks(w, a, body, iteration);
      if once.Done? {
        RaisingFor(w, a, b, target, values, index + 1, body, once.run);
      }
    }
  }

  /** That no `while` is there is not needed: one in the `else` of a condition that was
      just found to hold is never reached, in any world and under any limit. */
  lemma BuriedWhileIsInvisible(w: World, a: nat, b: nat, condition: string, loop: string, body: seq<Block>, run: Run)
    ensures var buried := If(condition, [If(condition, [], [While(loop, body)])], []);
            !BlockIsWhileFree(buried) && ExecuteBlock(w, a, buried, run) == ExecuteBlock(w, b, buried, run)
  {
    var none: seq<Block> := [];
    var while_ := While(loop, body);
    var inner := If(condition, none, [while_]);
    assert [while_][0] == while_ && [inner][0] == inner && [inner][1..] == none;
    assert !WhileFree([while_]) && !BlockIsWhileFree(inner) && !WhileFree([inner]);
    if w.truth(condition, run.vars) == Some(true) {
      InnerBranch(w, a, condition, while_, Visit(run));
      InnerBranch(w, b, condition, while_, Visit(run));
    }
  }

  lemma InnerBranch(w: World, limit: nat, condition: string, other: Block, run: Run)
    requires w.truth(condition, run.vars) == Some(true)
    ensures ExecuteBlocks(w, limit, [If(condition, [], [other])], run) == Done(Visit(run))
  {
    var none: seq<Block> := [];
    var inner := If(condition, none, [other]);
    assert ExecuteBlocks(w, limit, none, Visit(run)) == Done(Visit(run));
    assert ExecuteBlock(w, limit, inner, run) == Done(Visit(run));
    assert [inner][0] == inner && [inner][1..] == none;
  }

  /** The first check of a `while`: it sees the limit in `loop_length`. */
  function FirstCheck(limit: nat, run: Run): Run {
    WhileIteration(limit, 0, Entered(Visit(run)))
  }

  lemma FirstChecksDiffer(a: nat, b: nat, run: Run)
    requires a != b
    ensures FirstCheck(a, run).vars["loop_length"] != FirstCheck(b, run).vars["loop_length"]
    ensures FirstCheck(a, run).vars != FirstCheck(b, run).vars
  {
    DecimalReads(a);
    DecimalReads(b);
    assert FirstCheck(a, run).vars["loop_length"] == Str(Decimal(a));
    assert FirstCheck(b, run).vars["loop_length"] == Str(Decimal(b));
  }

  lemma FirstCheckDecides(w: World, limit: nat, condition: string, body: seq<Block>, run: Run)
    requires limit >= 1
    ensures var check, outcome := FirstCheck(limit, run), ExecuteBlock(w, limit, While(condition, body), run);
            && (w.truth(condition, check.vars) == None ==> outcome == Failed(EvaluationFailed, check))
            && (w.truth(condition, check.vars) == Some(false) ==> outcome == Done(check.(vars := LeaveLoop(check.vars))))
  {
  }

  /** A world that answers one condition in one state by `truth` and is `w` otherwise. */
  function Answering(w: World, condition: string, vars: Vars, truth: Option<bool>): World {
    w.(truth := (c, v) => if c == condition && v == vars then truth else w.truth(c, v))
  }

  /** A `while` shows the limit wherever it stands: whatever the world is, if it only
      denies the condition at the first check under each limit, both runs end well and
      leave another `loop_length` behind. */
  lemma LoopLimitIsVisible(w: World, a: nat, b: nat, condition: string, body: seq<Block>, run: Run)
    requires 1 <= a < b
    ensures var denying := Answering(Answering(w, condition, FirstCheck(a, run).vars, Some(false)),
                                     condition, FirstCheck(b, run).vars, Some(false));
            var small, large := ExecuteBlock(denying, a, While(condition, body), run), ExecuteBlock(denying, b, While(condition, body), run);
            && small.Done? && large.Done?
            && "loop_length" in small.run.vars && "loop_length" in large.run.vars
            && small.run.vars["loop_length"] != large.run.vars["loop_length"]
  {
    var denying := Answering(Answering(w, condition, FirstCheck(a, run).vars, Some(false)),
                             condition, FirstCheck(b, run).vars, Some(false));
    FirstChecksDiffer(a, b, run);
    FirstCheckDecides(denying, a, condition, body, run);
    FirstCheckDecides(denying, b, condition, body, run);
    assert LeaveLoop(FirstCheck(a, run).vars)["loop_length"] == FirstCheck(a, run).vars["loop_length"];
    assert LeaveLoop(FirstCheck(b, run).vars)["loop_length"] == FirstCheck(b, run).vars["loop_length"];
  }

  /** and if the condition cannot be evaluated with the larger limit in `loop_length`, as
      one that reads it may, the loop that ended well fails. */
  lemma RaisingCanFail(w: World, a: nat, b: nat, condition: string, body: seq<Block>, run: Run)
    requires 1 <= a < b
    ensures var picky := Answering(Answering(w, condition, FirstCheck(a, run).vars, Some(false)),
                                   condition, FirstCheck(b, run).vars, None);
            && ExecuteBlock(picky, a, While(condition, body), run).Done?
            && ExecuteBlock(picky, b, While(condition, body), run).Failed?
  {
    var picky := Answering(Answering(w, condition, FirstCheck(a, run).vars, Some(false)),
                           condition, FirstCheck(b, run).vars, None);
    FirstChecksDiffer(a, b, run);
    FirstCheckDecides(picky, a, condition, body, run);
    FirstCheckDecides(picky, b, condition, body, run);
  }
}
