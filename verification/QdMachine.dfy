/** The flat reading of a program: a program counter that jumps between matching
    control tags, with a stack of running loops. It never sees the blocks, and
    the last lemma says that compiling first makes no difference. */
module QdMachine {
  import opened Text
  import opened QdProgram
  import opened QdRun

  datatype Frame =
    | ForFrame(start: nat, target: string, values: seq<Value>, index: nat)
    | WhileFrame(start: nat, condition: string, index: nat)

  datatype Machine =
    | Running(pc: nat, frames: seq<Frame>, run: Run)
    | Finished(outcome: Outcome)
    | Jammed

  /** The next `else` or end tag that is not inside a block opened on the way. */
  function FindStop(code: seq<Token>, i: nat, depth: nat): nat
    decreases |code| - i
  {
    if i >= |code| then |code|
    else match code[i]
      case IfTag(_) => FindStop(code, i + 1, depth + 1)
      case ForTag(_, _) => FindStop(code, i + 1, depth + 1)
      case WhileTag(_) => FindStop(code, i + 1, depth + 1)
      case ElseTag => if depth == 0 then i else FindStop(code, i + 1, depth)
      case EndTag(_) => if depth == 0 then i else FindStop(code, i + 1, depth - 1)
      case _ => FindStop(code, i + 1, depth)
  }

  /** Where a skipped branch or a loop that is over continues. */
  function Past(code: seq<Token>, pc: nat): nat {
    FindStop(code, pc + 1, 0) + 1
  }

  function Continue(outcome: Outcome, pc: nat, frames: seq<Frame>): Machine {
    match outcome
    case Done(run) => Running(pc, frames, run)
    case Failed(_, _) => Finished(outcome)
  }

  function LeaveAt(run: Run, pc: nat, frames: seq<Frame>): Machine {
    Running(pc, frames, run.(vars := LeaveLoop(run.vars)))
  }

  /** Start iteration `index` of the `for` at `start`, or leave it. */
  function NextFor(code: seq<Token>, start: nat, target: string, values: seq<Value>, index: nat, frames: seq<Frame>, run: Run): Machine
    requires index <= |values|
  {
    if index == |values| then LeaveAt(run, Past(code, start), frames)
    else Running(start + 1, frames + [ForFrame(start, target, values, index)], ForIteration(target, values, index, run))
  }

  /** Check the `while` at `start` for iteration `index`. */
  function NextWhile(w: World, limit: nat, code: seq<Token>, start: nat, condition: string, index: nat, frames: seq<Frame>, run: Run): Machine {
    if index == limit then LeaveAt(run, Past(code, start), frames)
    else
      var check := WhileIteration(limit, index, run);
      match w.truth(condition, check.vars)
      case None => Finished(Failed(EvaluationFailed, check))
      case Some(false) => LeaveAt(check, Past(code, start), frames)
      case Some(true) => Running(start + 1, frames + [WhileFrame(start, condition, index)], check)
  }

  /** An end tag: the loop it ends, if any, is the innermost running one. */
  function AtEnd(w: World, limit: nat, code: seq<Token>, closer: Closer, pc: nat, frames: seq<Frame>, run: Run): Machine {
    if closer == EndIf then Running(pc + 1, frames, run)
    else if frames == [] then Jammed
    else
      var outer := frames[..|frames| - 1];
      match frames[|frames| - 1]
      case ForFrame(start, target, values, index) =>
        if index >= |values| then Jammed
        else NextFor(code, start, target, values, index + 1, outer, run)
      case WhileFrame(start, condition, index) =>
        if index + 1 == limit then Finished(Failed(LoopLimit, run))
        else NextWhile(w, limit, code, start, condition, index + 1, outer, run)
  }

  function Step(w: World, limit: nat, code: seq<Token>, m: Machine): Machine
    requires m.Running?
  {
    var Running(pc, frames, before) := m;
    if pc >= |code| then Finished(Done(before))
    else match code[pc]
      case Plain(entry) => Continue(ExecuteRequest(w, entry, Visit(before)), pc + 1, frames)
      case BadTag(_) => Jammed
      case IfTag(condition) =>
        (var run := Visit(before);
         match w.truth(condition, run.vars)
         case None => Finished(Failed(EvaluationFailed, run))
         case Some(holds) => Running(if holds then pc + 1 else Past(code, pc), frames, run))
      case ForTag(target, source) =>
        (var run := Visit(before);
         match LoopValues(w, source, run.vars)
         case Err(error) => Finished(Failed(error, run))
         case Ok(values) =>
           if |values| > limit then Finished(Failed(LoopLimit, run))
           else NextFor(code, pc, target, values, 0, frames, Entered(run)))
      case WhileTag(condition) =>
        NextWhile(w, limit, code, pc, condition, 0, frames, Entered(Visit(before)))
      case ElseTag => Running(Past(code, pc), frames, before)
      case EndTag(closer) => AtEnd(w, limit, code, closer, pc, frames, before)
  }

  function Steps(w: World, limit: nat, code: seq<Token>, m: Machine, n: nat): Machine
    decreases n
  {
    if n == 0 || !m.Running? then m
    else Steps(w, limit, code, Step(w, limit, code, m), n - 1)
  }

  lemma {:induction false} StepsAdd(w: World, limit: nat, code: seq<Token>, m: Machine, a: nat, b: nat)
    ensures Steps(w, limit, code, m, a + b) == Steps(w, limit, code, Steps(w, limit, code, m, a), b)
    decreases a
  {
    if a > 0 && m.Running? {
      StepsAdd(w, limit, code, Step(w, limit, code, m), a - 1, b);
    }
  }

  /** Scanning over a whole segment changes nothing. */
  lemma {:induction false} FindStopSegment(code: seq<Token>, cursor: nat, end: Option<Closer>, depth: nat)
    requires cursor <= |code| && Parse(code, cursor, end).Ok?
    ensures FindStop(code, cursor, depth) == FindStop(code, Parse(code, cursor, end).value.stop, depth)
    decreases |code| - cursor, 1
  {
    if cursor < |code| && !Closes(code[cursor]) {
      FindStopBlock(code, cursor, depth);
      FindStopSegment(code, ParseBlock(code, cursor).value.stop, end, depth);
    }
  }

  lemma {:induction false} FindStopBlock(code: seq<Token>, cursor: nat, depth: nat)
    requires cursor < |code| && !Closes(code[cursor]) && ParseBlock(code, cursor).Ok?
    ensures FindStop(code, cursor, depth) == FindStop(code, ParseBlock(code, cursor).value.stop, depth)
    decreases |code| - cursor, 0
  {
    match code[cursor]
    case Plain(_) =>
    case IfTag(_) =>
      FindStopSegment(code, cursor + 1, Some(EndIf), depth + 1);
      var stop := Parse(code, cursor + 1, Some(EndIf)).value.stop;
      if code[stop] == ElseTag {
        FindStopSegment(code, stop + 1, Some(EndIf), depth + 1);
      }
    case ForTag(_, _) =>
      FindStopSegment(code, cursor + 1, Some(EndFor), depth + 1);
    case WhileTag(_) =>
      FindStopSegment(code, cursor + 1, Some(EndWhile), depth + 1);
  }

  /** So a jump lands behind the tag that ends the segment it skips. */
  lemma PastSegment(code: seq<Token>, pc: nat, closer: Closer)
    requires pc < |code| && Parse(code, pc + 1, Some(closer)).Ok?
    ensures Past(code, pc) == Parse(code, pc + 1, Some(closer)).value.stop + 1
  {
    FindStopSegment(code, pc + 1, Some(closer), 0);
  }

  /** The machine goes from `m` to `end` in some number of steps. */
  ghost predicate Reaches(w: World, limit: nat, code: seq<Token>, m: Machine, end: Machine) {
    exists n: nat :: Steps(w, limit, code, m, n) == end
  }

  lemma ReachesSelf(w: World, limit: nat, code: seq<Token>, m: Machine)
    ensures Reaches(w, limit, code, m, m)
  {
    assert Steps(w, limit, code, m, 0) == m;
  }

  lemma ReachesTrans(w: World, limit: nat, code: seq<Token>, a: Machine, b: Machine, c: Machine)
    requires Reaches(w, limit, code, a, b) && Reaches(w, limit, code, b, c)
    ensures Reaches(w, limit, code, a, c)
  {
    var m: nat :| Steps(w, limit, code, a, m) == b;
    var n: nat :| Steps(w, limit, code, b, n) == c;
    StepsAdd(w, limit, code, a, m, n);
  }

  lemma ReachesStep(w: World, limit: nat, code: seq<Token>, m: Machine, end: Machine)
    requires m.Running? && Reaches(w, limit, code, Step(w, limit, code, m), end)
    ensures Reaches(w, limit, code, m, end)
  {
    var n: nat :| Steps(w, limit, code, Step(w, limit, code, m), n) == end;
    assert Steps(w, limit, code, m, n + 1) == end;
  }

  /** From the start of a segment the machine gets to its end with the outcome of
      the segment's blocks, whatever loops are running around it. */
  lemma {:induction false} RunSegment(w: World, limit: nat, code: seq<Token>, cursor: nat, end: Option<Closer>, frames: seq<Frame>, run: Run)
    requires cursor <= |code| && Parse(code, cursor, end).Ok?
    ensures var segment := Parse(code, cursor, end).value;
            Reaches(w, limit, code, Running(cursor, frames, run),
              Continue(ExecuteBlocks(w, limit, segment.blocks, run), segment.stop, frames))
    decreases |code| - cursor, 3, 0
  {
    var start, segment := Running(cursor, frames, run), Parse(code, cursor, end).value;
    if cursor == |code| || Closes(code[cursor]) {
      ReachesSelf(w, limit, code, start);
    } else {
      var one := ParseBlock(code, cursor).value;
      var rest := Parse(code, one.stop, end).value;
      assert segment.blocks[0] == one.blocks[0] && segment.blocks[1..] == rest.blocks;
      RunOne(w, limit, code, cursor, frames, run);
      var first := ExecuteBlock(w, limit, one.blocks[0], run);
      if first.Done? {
        RunSegment(w, limit, code, one.stop, end, frames, first.run);
        ReachesTrans(w, limit, code, start, Running(one.stop, frames, first.run),
          Continue(ExecuteBlocks(w, limit, segment.blocks, run), segment.stop, frames));
      }
    }
  }

  lemma {:induction false} RunOne(w: World, limit: nat, code: seq<Token>, cursor: nat, frames: seq<Frame>, before: Run)
    requires cursor < |code| && !Closes(code[cursor]) && ParseBlock(code, cursor).Ok?
    ensures var one := ParseBlock(code, cursor).value;
            Reaches(w, limit, code, Running(cursor, frames, before),
              Continue(ExecuteBlock(w, limit, one.blocks[0], before), one.stop, frames))
    decreases |code| - cursor, 2, 0
  {
    hide Reaches, FindStop, SetLoopVariables, LeaveLoop, ExecuteBlocks, ExecuteFor, ExecuteWhile, NextFor, NextWhile, Past;
    var start, one, run := Running(cursor, frames, before), ParseBlock(code, cursor).value, Visit(before);
    var goal := Continue(ExecuteBlock(w, limit, one.blocks[0], before), one.stop, frames);
    match code[cursor]
    case Plain(_) =>
      ReachesSelf(w, limit, code, goal);
      ReachesStep(w, limit, code, start, goal);
    case IfTag(condition) =>
      RunIf(w, limit, code, cursor, frames, before);
    case ForTag(target, source) =>
      PastSegment(code, cursor, EndFor);
      var values := LoopValues(w, source, run.vars);
      if values.Ok? && |values.value| <= limit {
        RunFor(w, limit, code, cursor, values.value, 0, frames, Entered(run));
      } else {
        ReachesSelf(w, limit, code, goal);
      }
      ReachesStep(w, limit, code, start, goal);
    case WhileTag(condition) =>
      PastSegment(code, cursor, EndWhile);
      RunWhile(w, limit, code, cursor, 0, frames, Entered(run));
      ReachesStep(w, limit, code, start, goal);
  }

  lemma {:induction false} RunIf(w: World, limit: nat, code: seq<Token>, cursor: nat, frames: seq<Frame>, before: Run)
    requires cursor < |code| && code[cursor].IfTag? && ParseBlock(code, cursor).Ok?
    ensures var one := ParseBlock(code, cursor).value;
            Reaches(w, limit, code, Running(cursor, frames, before),
              Continue(ExecuteBlock(w, limit, one.blocks[0], before), one.stop, frames))
    decreases |code| - cursor, 1, 0
  {
    hide Reaches, FindStop, Past;
    var start, one, run := Running(cursor, frames, before), ParseBlock(code, cursor).value, Visit(before);
    var goal := Continue(ExecuteBlock(w, limit, one.blocks[0], before), one.stop, frames);
    var then_ := Parse(code, cursor + 1, Some(EndIf)).value;
    PastSegment(code, cursor, EndIf);
    var holds := w.truth(code[cursor].condition, run.vars);
    if holds == Some(true) {
      RunSegment(w, limit, code, cursor + 1, Some(EndIf), frames, run);
      var outcome := ExecuteBlocks(w, limit, then_.blocks, run);
      if outcome.Done? {
        if code[then_.stop] == ElseTag {
          PastSegment(code, then_.stop, EndIf);
        }
        FinishBranch(w, limit, code, then_.stop, frames, outcome.run, one.stop);
        ReachesTrans(w, limit, code, Running(cursor + 1, frames, run), Running(then_.stop, frames, outcome.run), goal);
      }
    } else if holds == Some(false) && code[then_.stop] == ElseTag {
      var else_ := Parse(code, then_.stop + 1, Some(EndIf)).value;
      RunSegment(w, limit, code, then_.stop + 1, Some(EndIf), frames, run);
      var outcome := ExecuteBlocks(w, limit, else_.blocks, run);
      if outcome.Done? {
        FinishBranch(w, limit, code, else_.stop, frames, outcome.run, one.stop);
        ReachesTrans(w, limit, code, Running(then_.stop + 1, frames, run), Running(else_.stop, frames, outcome.run), goal);
      }
    } else {
      assert ExecuteBlocks(w, limit, [], run) == Done(run);
      assert holds == Some(false) ==> goal == Running(then_.stop + 1, frames, run);
      assert holds == None ==> goal == Finished(Failed(EvaluationFailed, run));
      ReachesSelf(w, limit, code, goal);
    }
    ReachesStep(w, limit, code, start, goal);
  }

  /** Behind a branch: an `else` is jumped over, an `endif` is stepped over. */
  lemma FinishBranch(w: World, limit: nat, code: seq<Token>, pc: nat, frames: seq<Frame>, run: Run, next: nat)
    requires pc < |code|
    requires (code[pc] == ElseTag && next == Past(code, pc)) || (code[pc] == EndTag(EndIf) && next == pc + 1)
    ensures Reaches(w, limit, code, Running(pc, frames, run), Running(next, frames, run))
  {
    ReachesSelf(w, limit, code, Running(next, frames, run));
    ReachesStep(w, limit, code, Running(pc, frames, run), Running(next, frames, run));
  }

  lemma {:induction false} RunFor(w: World, limit: nat, code: seq<Token>, start: nat, values: seq<Value>, index: nat, frames: seq<Frame>, run: Run)
    requires start < |code| && code[start].ForTag? && Parse(code, start + 1, Some(EndFor)).Ok?
    requires index <= |values|
    ensures var body := Parse(code, start + 1, Some(EndFor)).value;
            Reaches(w, limit, code,
              NextFor(code, start, code[start].target, values, index, frames, run),
              Continue(Left(ExecuteFor(w, limit, code[start].target, values, index, body.blocks, run)), body.stop + 1, frames))
    decreases |code| - start, 1, |values| - index
  {
    hide Reaches, FindStop, SetLoopVariables, EnterLoop, LeaveLoop, ExecuteBlocks, Past, Parse;
    var body, target := Parse(code, start + 1, Some(EndFor)).value, code[start].target;
    var goal := Continue(Left(ExecuteFor(w, limit, target, values, index, body.blocks, run)), body.stop + 1, frames);
    PastSegment(code, start, EndFor);
    if index == |values| {
      ReachesSelf(w, limit, code, goal);
    } else {
      var inner, first := frames + [ForFrame(start, target, values, index)], ForIteration(target, values, index, run);
      RunSegment(w, limit, code, start + 1, Some(EndFor), inner, first);
      var outcome := ExecuteBlocks(w, limit, body.blocks, first);
      if outcome.Done? {
        RunFor(w, limit, code, start, values, index + 1, frames, outcome.run);
        var back := Running(body.stop, inner, outcome.run);
        ForBack(w, limit, code, body.stop, start, target, values, index, frames, outcome.run);
        ReachesStep(w, limit, code, back, goal);
        ReachesTrans(w, limit, code, Running(start + 1, inner, first), back, goal);
      }
    }
  }

  lemma ForBack(w: World, limit: nat, code: seq<Token>, pc: nat, start: nat, target: string, values: seq<Value>, index: nat, frames: seq<Frame>, run: Run)
    requires pc < |code| && code[pc] == EndTag(EndFor) && index < |values|
    ensures Step(w, limit, code, Running(pc, frames + [ForFrame(start, target, values, index)], run))
         == NextFor(code, start, target, values, index + 1, frames, run)
  {
    var inner := frames + [ForFrame(start, target, values, index)];
    assert inner[..|inner| - 1] == frames;
  }

  lemma {:induction false} RunWhile(w: World, limit: nat, code: seq<Token>, start: nat, index: nat, frames: seq<Frame>, run: Run)
    requires start < |code| && code[start].WhileTag? && Parse(code, start + 1, Some(EndWhile)).Ok?
    requires index <= limit
    ensures var body := Parse(code, start + 1, Some(EndWhile)).value;
            Reaches(w, limit, code,
              NextWhile(w, limit, code, start, code[start].condition, index, frames, run),
              Continue(Left(ExecuteWhile(w, limit, code[start].condition, index, body.blocks, run)), body.stop + 1, frames))
    decreases |code| - start, 1, limit - index
  {
    hide Reaches, FindStop, SetLoopVariables, EnterLoop, LeaveLoop, ExecuteBlocks, Past, Parse;
    var body, condition := Parse(code, start + 1, Some(EndWhile)).value, code[start].condition;
    var goal := Continue(Left(ExecuteWhile(w, limit, condition, index, body.blocks, run)), body.stop + 1, frames);
    PastSegment(code, start, EndWhile);
    var check := WhileIteration(limit, index, run);
    if index == limit || w.truth(condition, check.vars) != Some(true) {
      ReachesSelf(w, limit, code, goal);
    } else {
      var inner := frames + [WhileFrame(start, condition, index)];
      RunSegment(w, limit, code, start + 1, Some(EndWhile), inner, check);
      var outcome := ExecuteBlocks(w, limit, body.blocks, check);
      if outcome.Done? {
        assert inner[..|inner| - 1] == frames;
        var back := Running(body.stop, inner, outcome.run);
        if index + 1 == limit {
          ReachesSelf(w, limit, code, goal);
        } else {
          RunWhile(w, limit, code, start, index + 1, frames, outcome.run);
        }
        ReachesStep(w, limit, code, back, goal);
        ReachesTrans(w, limit, code, Running(start + 1, inner, check), back, goal);
      }
    }
  }

  /** Compilation preserves meaning: for every list that compiles, every world and
      every starting state, the machine on the flat list finishes with exactly the
      outcome of running the compiled tree. */
  lemma CompilationPreservesMeaning(w: World, limit: nat, entries: seq<Entry>, run: Run)
    requires Compile(Lex(Enabled(entries))).Ok?
    ensures var code := Lex(Enabled(entries));
            Reaches(w, limit, code, Running(0, [], run),
              Finished(ExecuteBlocks(w, limit, Compile(code).value, run)))
  {
    var code := Lex(Enabled(entries));
    RunSegment(w, limit, code, 0, None, [], run);
    var outcome := ExecuteBlocks(w, limit, Compile(code).value, run);
    if outcome.Done? {
      var last := Running(|code|, [], outcome.run);
      ReachesSelf(w, limit, code, Finished(outcome));
      ReachesStep(w, limit, code, last, Finished(outcome));
      ReachesTrans(w, limit, code, Running(0, [], run), last, Finished(outcome));
    }
  }

  /** The machine is deterministic, so that outcome is the only one. */
  lemma FinishesOnce(w: World, limit: nat, code: seq<Token>, m: Machine, a: Outcome, b: Outcome)
    requires Reaches(w, limit, code, m, Finished(a)) && Reaches(w, limit, code, m, Finished(b))
    ensures a == b
  {
    var i: nat :| Steps(w, limit, code, m, i) == Finished(a);
    var j: nat :| Steps(w, limit, code, m, j) == Finished(b);
    if i <= j {
      StepsAdd(w, limit, code, m, i, j - i);
    } else {
      StepsAdd(w, limit, code, m, j, i - j);
    }
  }
}
