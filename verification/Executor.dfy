/**
 The pipeline executor: orchestrator/engine/executor.go. The meaning of a
 pipeline is given by recursion over its tree; the executor, with its loop
 counters, indices and flags, is proved to compute it. What the outside world
 answers (processes, conditions, the stop file) is an oracle asked in order.
 */
module Executors {
  import opened Common
  import opened Pipelines
  import opened Checkpoints

  /** What running a step reported; `failed` when it could not be run at all. */
  datatype StepResult = StepResult(output: string, exitCode: int, failed: bool)

  /** The answers of the n-th question asked of the outside world. */
  datatype World = World(
    run: (nat, Step) -> StepResult,
    decide: (nat, Condition, string) -> Option<bool>,  // None: the file or the LLM gave an error
    stop: nat -> bool,
    rateLimited: string -> bool)

  /** One step execution and what it reported. */
  datatype Exec = Exec(step: string, result: StepResult)

  datatype State = State(tick: nat, trace: seq<Exec>, disk: map<string, Checkpoint>)

  /** What stays fixed during one run; `subResume` is the step found by the sub-pipeline scan, or "". */
  datatype Setup = Setup(
    elements: seq<Element>, pipelineName: string, vars: Vars, restart: bool, subResume: string)

  // ---------------------------------------------------------------------
  // Single actions
  // ---------------------------------------------------------------------

  function Saved(u: Setup, s: State, completed: seq<string>, next: string, rateLimited: bool): State {
    s.(disk := s.disk[CheckpointPath(u.pipelineName) := Checkpoint(u.pipelineName, u.vars, completed, next, rateLimited)])
  }

  function Cleared(u: Setup, s: State): State {
    s.(disk := s.disk - {CheckpointPath(u.pipelineName)})
  }

  function Loaded(u: Setup, s: State): Option<Checkpoint> {
    var path := CheckpointPath(u.pipelineName);
    if path in s.disk && Matches(s.disk[path], u.pipelineName, u.vars) then Some(s.disk[path]) else None
  }

  function Succeeded(r: StepResult): bool {
    !r.failed && r.exitCode == 0
  }

  function AfterStep(w: World, step: Step, s: State): State {
    s.(tick := s.tick + 1, trace := s.trace + [Exec(step.name, w.run(s.tick, step))])
  }

  function Ticked(s: State): State {
    s.(tick := s.tick + 1)
  }

  // ---------------------------------------------------------------------
  // The meaning of a loop
  // ---------------------------------------------------------------------

  /** What executeLoop returns. */
  datatype LoopExit = LoopExit(code: int, err: bool)

  /** How part of a loop body ended: go on, leave the loop normally, or leave everything. */
  datatype Flow = Next(lastOutput: string) | Break | Leave(exit: LoopExit)

  function LoopStep(w: World, u: Setup, step: Step, s: State): (Flow, State) {
    var r := w.run(s.tick, step);
    var s1 := AfterStep(w, step, s);
    if r.failed then (Leave(LoopExit(1, true)), s1)
    else if r.exitCode != 0 then
      if w.rateLimited(r.output) then (Leave(LoopExit(2, false)), Saved(u, s1, [], step.name, true))
      else (Leave(LoopExit(r.exitCode, true)), s1)
    else
      var s2 := Ticked(s1);
      if w.stop(s1.tick) then (Leave(LoopExit(3, false)), s2)
      else if step.condition.None? then (Next(r.output), s2)
      else
        var d := w.decide(s2.tick, step.condition.value, r.output);
        (if d.None? then Leave(LoopExit(1, true)) else if d.value then Next(r.output) else Break, Ticked(s2))
  }

  /** One pass over the elements of a loop. */
  function BodyMeaning(w: World, u: Setup, es: seq<Element>, lastOutput: string, s: State): (Flow, State)
    decreases 2 * Total(es) + 1, 0
  {
    if es == [] then (Next(lastOutput), s)
    else
      NestedSmaller(es, 0);
      TailSmaller(es);
      match es[0]
      case LoopElement(l) =>
        var (x, s1) := LoopMeaning(w, u, l, l.maxIterations, s);
        if x.err || x.code != 0 then (Leave(x), s1) else BodyMeaning(w, u, es[1..], lastOutput, s1)
      case StepElement(step) =>
        if step.skip == "true" then BodyMeaning(w, u, es[1..], lastOutput, s)
        else
          var (f, s1) := LoopStep(w, u, step, s);
          if f.Next? then BodyMeaning(w, u, es[1..], f.lastOutput, s1) else (f, s1)
  }

  /** A loop with `left` iterations to go. */
  function LoopMeaning(w: World, u: Setup, l: Loop, left: int, s: State): (LoopExit, State)
    decreases 2 * (1 + Total(l.elements)), if left < 0 then 0 else left
  {
    if left <= 0 then (LoopExit(0, false), s)
    else
      var (f, s1) := BodyMeaning(w, u, l.elements, "", s);
      match f
      case Break => (LoopExit(0, false), s1)
      case Leave(x) => (x, s1)
      case Next(last) =>
        if Modes(l.condition) == 0 then LoopMeaning(w, u, l, left - 1, s1)
        else
          var d := w.decide(s1.tick, l.condition, last);
          if d.None? then (LoopExit(1, true), Ticked(s1))
          else if d.value then LoopMeaning(w, u, l, left - 1, Ticked(s1))
          else (LoopExit(0, false), Ticked(s1))
  }

  // ---------------------------------------------------------------------
  // The cost of a loop
  // ---------------------------------------------------------------------

  /** The most steps a loop can execute: max_iterations times what its body costs. */
  function LoopCost(l: Loop): nat
    decreases 2 * (1 + Total(l.elements))
  {
    (if l.maxIterations <= 0 then 0 else l.maxIterations) * BodyCost(l.elements)
  }

  function BodyCost(es: seq<Element>): nat
    decreases 2 * Total(es) + 1
  {
    if es == [] then 0
    else
      NestedSmaller(es, 0);
      TailSmaller(es);
      (match es[0]
       case StepElement(step) => if step.skip == "true" then 0 else 1
       case LoopElement(l) => LoopCost(l))
      + BodyCost(es[1..])
  }

  /** From `s` to `t`, `n` steps were executed. */
  ghost predicate Executed(s: State, t: State, n: nat) {
    && |t.trace| == |s.trace| + n
    && t.trace[..|s.trace|] == s.trace
  }

  lemma ExecutedMore(s: State, t: State, v: State, m: nat, n: nat)
    requires Executed(s, t, m) && Executed(t, v, n)
    ensures Executed(s, v, m + n)
  {
    assert v.trace[..|s.trace|] == t.trace[..|s.trace|];
  }

  lemma ExecutedNone(s: State)
    ensures Executed(s, s, 0) && Executed(s, Ticked(s), 0)
  {
  }

  lemma LoopStepCost(w: World, u: Setup, step: Step, s: State)
    ensures Executed(s, LoopStep(w, u, step, s).1, 1)
  {
  }

  /** A pass over a loop body executes at most its cost in steps, nested loops included. */
  lemma {:induction false} BodyBound(w: World, u: Setup, es: seq<Element>, last: string, s: State) returns (n: nat)
    ensures n <= BodyCost(es) && Executed(s, BodyMeaning(w, u, es, last, s).1, n)
    decreases 2 * Total(es) + 1, 0
  {
    if es == [] {
      n := 0;
    } else {
      NestedSmaller(es, 0);
      TailSmaller(es);
      match es[0] {
        case LoopElement(l) =>
          var (x, s1) := LoopMeaning(w, u, l, l.maxIterations, s);
          n := LoopBound(w, u, l, l.maxIterations, s);
          assert n <= LoopCost(l);
          if !(x.err || x.code != 0) {
            var m := BodyBound(w, u, es[1..], last, s1);
            ExecutedMore(s, s1, BodyMeaning(w, u, es[1..], last, s1).1, n, m);
            n := n + m;
          }
        case StepElement(step) =>
          if step.skip == "true" {
            n := BodyBound(w, u, es[1..], last, s);
          } else {
            var (f, s1) := LoopStep(w, u, step, s);
            LoopStepCost(w, u, step, s);
            n := 1;
            if f.Next? {
              var m := BodyBound(w, u, es[1..], f.lastOutput, s1);
              ExecutedMore(s, s1, BodyMeaning(w, u, es[1..], f.lastOutput, s1).1, n, m);
              n := n + m;
            }
          }
      }
    }
  }

  /** A loop executes at most as many steps as its remaining iterations times the cost of its body. */
  lemma {:induction false} LoopBound(w: World, u: Setup, l: Loop, left: int, s: State) returns (n: nat)
    ensures n <= (if left <= 0 then 0 else left) * BodyCost(l.elements)
    ensures Executed(s, LoopMeaning(w, u, l, left, s).1, n)
    decreases 2 * (1 + Total(l.elements)), if left < 0 then 0 else left
  {
    hide BodyMeaning, BodyCost, Executed;
    if left <= 0 {
      n := 0;
      ExecutedNone(s);
    } else {
      n := BodyBound(w, u, l.elements, "", s);
      OneMoreRound(left, BodyCost(l.elements));
      var (f, s1) := BodyMeaning(w, u, l.elements, "", s);
      if f.Next? {
        var s2 := if Modes(l.condition) == 0 then s1 else Ticked(s1);
        ExecutedNone(s1);
        ExecutedMore(s, s1, Ticked(s1), n, 0);
        if Modes(l.condition) == 0 || w.decide(s1.tick, l.condition, f.lastOutput) == Some(true) {
          var m := LoopBound(w, u, l, left - 1, s2);
          ExecutedMore(s, s2, LoopMeaning(w, u, l, left - 1, s2).1, n, m);
          n := n + m;
        }
      }
    }
  }

  lemma OneMoreRound(left: int, cost: nat)
    requires left > 0
    ensures cost + (left - 1) * cost == left * cost
  {
  }

  /** Every condition is decided, and holds. */
  ghost predicate AlwaysDecides(w: World) {
    forall n, c, input :: w.decide(n, c, input) == Some(true)
  }

  /** An execution in which every step succeeds, every condition holds and nobody asks to stop. */
  ghost predicate AllGoesWell(w: World) {
    && (forall n, step :: w.run(n, step).exitCode == 0 && !w.run(n, step).failed)
    && AlwaysDecides(w)
    && (forall n :: !w.stop(n))
  }

  const UNDISTURBED := World((n, step) => StepResult("", 0, false), (n, c, input) => Some(true), n => false, output => false)

  /** Every step succeeds, and the stop file is seen by the `t`-th question. */
  function StopsAt(t: nat): World {
    UNDISTURBED.(stop := n => n == t)
  }

  /** The bound is reached: when all goes well a loop executes exactly its cost in steps. */
  lemma {:induction false} BoundIsReached(w: World, u: Setup, l: Loop, left: int, s: State)
    requires AllGoesWell(w)
    ensures var (x, t) := LoopMeaning(w, u, l, left, s);
            x == LoopExit(0, false) && Executed(s, t, (if left <= 0 then 0 else left) * BodyCost(l.elements))
    decreases 2 * (1 + Total(l.elements)), if left < 0 then 0 else left
  {
    if left > 0 {
      BodyReached(w, u, l.elements, "", s);
      var (f, s1) := BodyMeaning(w, u, l.elements, "", s);
      var s2 := if Modes(l.condition) == 0 then s1 else Ticked(s1);
      BoundIsReached(w, u, l, left - 1, s2);
      OneMoreRound(left, BodyCost(l.elements));
      ExecutedMore(s, s2, LoopMeaning(w, u, l, left - 1, s2).1, BodyCost(l.elements), (left - 1) * BodyCost(l.elements));
    }
  }

  lemma {:induction false} BodyReached(w: World, u: Setup, es: seq<Element>, last: string, s: State)
    requires AllGoesWell(w)
    ensures var (f, t) := BodyMeaning(w, u, es, last, s);
            f.Next? && Executed(s, t, BodyCost(es))
    decreases 2 * Total(es) + 1, 0
  {
    if es != [] {
      NestedSmaller(es, 0);
      TailSmaller(es);
      match es[0] {
        case LoopElement(l) =>
          BoundIsReached(w, u, l, l.maxIterations, s);
          var s1 := LoopMeaning(w, u, l, l.maxIterations, s).1;
          BodyReached(w, u, es[1..], last, s1);
          ExecutedMore(s, s1, BodyMeaning(w, u, es[1..], last, s1).1, LoopCost(l), BodyCost(es[1..]));
        case StepElement(step) =>
          if step.skip == "true" {
            BodyReached(w, u, es[1..], last, s);
          } else {
            var (f, s1) := LoopStep(w, u, step, s);
            LoopStepCost(w, u, step, s);
            BodyReached(w, u, es[1..], f.lastOutput, s1);
            ExecutedMore(s, s1, BodyMeaning(w, u, es[1..], f.lastOutput, s1).1, 1, BodyCost(es[1..]));
          }
      }
    }
  }

  /** A loop that can execute no step only asks its conditions; an undecided one is an error. */
  lemma {:induction false} IdleLoop(w: World, u: Setup, l: Loop, left: int, s: State)
    requires left <= 0 || BodyCost(l.elements) == 0
    ensures var (x, t) := LoopMeaning(w, u, l, left, s);
            && t.disk == s.disk && t.trace == s.trace && s.tick <= t.tick
            && (x == LoopExit(0, false) || (x == LoopExit(1, true) && !AlwaysDecides(w)))
    decreases 2 * (1 + Total(l.elements)), if left < 0 then 0 else left
  {
    hide BodyMeaning, BodyCost;
    if left > 0 {
      IdleBody(w, u, l.elements, "", s);
      var (f, s1) := BodyMeaning(w, u, l.elements, "", s);
      if f.Next? {
        var s2 := if Modes(l.condition) == 0 then s1 else Ticked(s1);
        IdleLoop(w, u, l, left - 1, s2);
      }
    }
  }

  lemma {:induction false} IdleBody(w: World, u: Setup, es: seq<Element>, last: string, s: State)
    requires BodyCost(es) == 0
    ensures var (f, t) := BodyMeaning(w, u, es, last, s);
            && t.disk == s.disk && t.trace == s.trace && s.tick <= t.tick
            && (f.Next? || (f == Leave(LoopExit(1, true)) && !AlwaysDecides(w)))
    decreases 2 * Total(es) + 1, 0
  {
    hide LoopMeaning, LoopCost;
    if es != [] {
      NestedSmaller(es, 0);
      TailSmaller(es);
      match es[0] {
        case LoopElement(l) =>
          FreeLoop(l);
          IdleLoop(w, u, l, l.maxIterations, s);
          var s1 := LoopMeaning(w, u, l, l.maxIterations, s).1;
          IdleBody(w, u, es[1..], last, s1);
        case StepElement(step) =>
          IdleBody(w, u, es[1..], last, s);
      }
    }
  }

  /** A product is zero only if a factor is. */
  lemma FreeLoop(l: Loop)
    ensures LoopCost(l) == 0 <==> l.maxIterations <= 0 || BodyCost(l.elements) == 0
  {
    hide BodyCost;
    if l.maxIterations > 0 && BodyCost(l.elements) > 0 {
      OneMoreRound(l.maxIterations, BodyCost(l.elements));
    }
  }

  // ---------------------------------------------------------------------
  // The meaning of a run
  // ---------------------------------------------------------------------

  /** What happens at one top-level element: the run ends with a code, or goes on at an index. */
  datatype Move = End(code: int) | Goto(index: nat, completed: seq<string>, skipUntil: string)

  /** After the condition of element `i` was decided: the next index, -1 to stop the pipeline, or None for an error. */
  function NextIndex(c: Condition, decision: Option<bool>, i: nat, es: seq<Element>): Option<int> {
    if decision.None? then None
    else if c.target != "" && decision.value then
      var idx := IndexOf(c.target, es);
      if idx == -1 then None else Some(idx)
    else if c.target == "" && !decision.value then Some(-1)
    else Some(i + 1)
  }

  /**
   In a valid pipeline only a condition that could not be decided is an error,
   only a gate that is closed stops the pipeline, and a goto whose condition
   holds goes to the one top-level step it names; everything else goes on to
   the next element.
   */
  lemma DecisionsOfValidPipelines(es: seq<Element>, regex: string -> bool, i: nat, decision: Option<bool>)
    requires Good(es, regex) && i < |es| && es[i].StepElement? && es[i].step.condition.Some?
    ensures var c := es[i].step.condition.value;
            var next := NextIndex(c, decision, i, es);
            && (next == None <==> decision == None)
            && (next == Some(-1) <==> c.target == "" && decision == Some(false))
            && (next.Some? && next.value != -1 ==>
                  if c.target != "" && decision == Some(true) then
                    forall k :: 0 <= k < |es| ==> (k == next.value <==> es[k].StepElement? && es[k].step.name == c.target)
                  else next.value == i + 1)
  {
    hide StepNames, GoodElement, IndexOf;
    if es[i].step.condition.value.target != "" {
      GotoLands(es, regex, i);
    }
  }

  function StepMove(w: World, u: Setup, i: nat, completed: seq<string>, step: Step, s: State): (Move, State)
  {
    var r := w.run(s.tick, step);
    var s1 := AfterStep(w, step, s);
    if r.failed then (End(1), s1)
    else if r.exitCode != 0 then
      if w.rateLimited(r.output) then (End(2), Saved(u, s1, completed, step.name, true))
      else (End(r.exitCode), if u.pipelineName != "" then Saved(u, s1, completed, step.name, false) else s1)
    else
      var completed' := completed + [step.name];
      var s2 := Ticked(if u.pipelineName != "" then Saved(u, s1, completed', "", false) else s1);
      if w.stop(s1.tick) then (End(3), s2)
      else if step.condition.None? then (Goto(i + 1, completed', ""), s2)
      else
        var c := step.condition.value;
        var d := w.decide(s2.tick, c, r.output);
        var s3 := Ticked(s2);
        var next := NextIndex(c, d, i, u.elements);
        (if next.None? then End(1) else if next.value < 0 then End(0) else Goto(next.value, completed', ""), s3)
  }

  function ElementMove(w: World, u: Setup, cp: Option<Checkpoint>, i: nat, completed: seq<string>, skipUntil: string,
                       s: State): (Move, State)
    requires i < |u.elements|
  {
    match u.elements[i]
    case LoopElement(l) =>
      var (x, s1) := LoopMeaning(w, u, l, l.maxIterations, s);
      (if x.err || x.code != 0 then End(x.code) else Goto(i + 1, completed, skipUntil), s1)
    case StepElement(step) =>
      if step.skip == "true" then (Goto(i + 1, completed, skipUntil), s)
      else if cp.Some? && step.name in cp.value.completedSteps then
        (Goto(i + 1, completed + [step.name], skipUntil), s)
      else if skipUntil != "" && step.name != skipUntil then
        (Goto(i + 1, completed + [step.name], skipUntil), s)
      else StepMove(w, u, i, completed, step, s)
  }

  /** A run from element `i` on, for at most `fuel` elements; None when the fuel runs out. */
  function RunFrom(fuel: nat, w: World, u: Setup, cp: Option<Checkpoint>, i: nat, completed: seq<string>,
                   skipUntil: string, s: State): (Option<int>, State)
    decreases fuel
  {
    if i >= |u.elements| then (Some(0), Cleared(u, s))
    else if fuel == 0 then (None, s)
    else
      var (m, s1) := ElementMove(w, u, cp, i, completed, skipUntil, s);
      match m
      case End(code) => (Some(code), s1)
      case Goto(j, completed', skipUntil') => RunFrom(fuel - 1, w, u, cp, j, completed', skipUntil', s1)
  }

  function RunMeaning(fuel: nat, w: World, u: Setup, s: State): (Option<int>, State) {
    var cp := if !u.restart && u.pipelineName != "" then Loaded(u, s) else None;
    RunFrom(fuel, w, u, cp, 0, [], if cp.None? && !u.restart then u.subResume else "", s)
  }

  /** More fuel does not change a run that ends. */
  lemma {:induction false} FuelIsEnough(fuel: nat, more: nat, w: World, u: Setup, cp: Option<Checkpoint>, i: nat,
                                        completed: seq<string>, skipUntil: string, s: State)
    requires RunFrom(fuel, w, u, cp, i, completed, skipUntil, s).0.Some? && more >= fuel
    ensures RunFrom(more, w, u, cp, i, completed, skipUntil, s) == RunFrom(fuel, w, u, cp, i, completed, skipUntil, s)
    decreases fuel
  {
    hide ElementMove;
    if i < |u.elements| && fuel > 0 {
      var (m, s1) := ElementMove(w, u, cp, i, completed, skipUntil, s);
      if m.Goto? {
        FuelIsEnough(fuel - 1, more - 1, w, u, cp, m.index, m.completed, m.skipUntil, s1);
      }
    }
  }

  /** Every goto jumps to a later element. */
  predicate GotosForward(es: seq<Element>) {
    forall i :: 0 <= i < |es| && es[i].StepElement? && es[i].step.condition.Some? && es[i].step.condition.value.target != "" ==>
      var j := IndexOf(es[i].step.condition.value.target, es); j < 0 || i < j
  }

  lemma MovesForward(w: World, u: Setup, cp: Option<Checkpoint>, i: nat, completed: seq<string>, skipUntil: string, s: State)
    requires i < |u.elements| && GotosForward(u.elements)
    ensures var m := ElementMove(w, u, cp, i, completed, skipUntil, s).0;
            m.Goto? ==> i < m.index <= |u.elements|
  {
  }

  lemma {:induction false} ForwardRunEnds(fuel: nat, w: World, u: Setup, cp: Option<Checkpoint>, i: nat,
                                          completed: seq<string>, skipUntil: string, s: State)
    requires GotosForward(u.elements) && i <= |u.elements| && fuel >= |u.elements| - i
    ensures RunFrom(fuel, w, u, cp, i, completed, skipUntil, s).0.Some?
    decreases fuel
  {
    if i < |u.elements| {
      MovesForward(w, u, cp, i, completed, skipUntil, s);
      var (m, s1) := ElementMove(w, u, cp, i, completed, skipUntil, s);
      if m.Goto? {
        ForwardRunEnds(fuel - 1, w, u, cp, m.index, m.completed, m.skipUntil, s1);
      }
    }
  }

  /** A pipeline whose gotos all go forward is done after at most one visit of each element, whatever the world does. */
  lemma ForwardPipelinesTerminate(w: World, u: Setup, s: State, fuel: nat)
    requires GotosForward(u.elements) && fuel >= |u.elements|
    ensures RunMeaning(fuel, w, u, s).0.Some?
    ensures RunMeaning(fuel, w, u, s) == RunMeaning(|u.elements|, w, u, s)
  {
    var cp := if !u.restart && u.pipelineName != "" then Loaded(u, s) else None;
    var skipUntil := if cp.None? && !u.restart then u.subResume else "";
    ForwardRunEnds(|u.elements|, w, u, cp, 0, [], skipUntil, s);
    FuelIsEnough(|u.elements|, fuel, w, u, cp, 0, [], skipUntil, s);
  }

  // ---------------------------------------------------------------------
  // The executor
  // ---------------------------------------------------------------------

  class Executor {
    const world: World
    const setup: Setup
    var tick: nat
    var trace: seq<Exec>
    var disk: map<string, Checkpoint>
    var rateLimitOutput: string

    constructor (world: World, setup: Setup, tick: nat, disk: map<string, Checkpoint>)
      ensures this.world == world && this.setup == setup && View() == State(tick, [], disk)
    {
      this.world, this.setup, this.tick, this.disk := world, setup, tick, disk;
      trace, rateLimitOutput := [], "";
    }

    function View(): State
      reads this
    {
      State(tick, trace, disk)
    }

    method ExecuteStep(step: Step) returns (r: StepResult)
      modifies this`tick, this`trace
      ensures r == world.run(old(tick), step) && View() == AfterStep(world, step, old(View()))
    {
      r := world.run(tick, step);
      tick, trace := tick + 1, trace + [Exec(step.name, r)];
    }

    /** conditionInput and evaluateCondition. */
    method EvaluateCondition(c: Condition, output: string) returns (d: Option<bool>)
      modifies this`tick
      ensures d == world.decide(old(tick), c, output) && View() == Ticked(old(View()))
    {
      d := world.decide(tick, c, output);
      tick := tick + 1;
    }

    method ShouldGracefulStop() returns (b: bool)
      modifies this`tick
      ensures b == world.stop(old(tick)) && View() == Ticked(old(View()))
    {
      b := world.stop(tick);
      tick := tick + 1;
    }

    method SaveCheckpoint(completed: seq<string>, next: string, rateLimited: bool)
      modifies this`disk
      ensures View() == Saved(setup, old(View()), completed, next, rateLimited)
    {
      disk := disk[CheckpointPath(setup.pipelineName) :=
                     Checkpoint(setup.pipelineName, setup.vars, completed, next, rateLimited)];
    }

    method LoadCheckpoint() returns (cp: Option<Checkpoint>)
      ensures cp == Loaded(setup, View())
      ensures var path := CheckpointPath(setup.pipelineName);
              && (cp.Some? <==> path in disk && disk[path].pipeline == setup.pipelineName
                                && SameVars(disk[path].variables, setup.vars))
              && (cp.Some? ==> cp.value == disk[path])
    {
      var path := CheckpointPath(setup.pipelineName);
      if path !in disk {
        return None;
      }
      var stored := disk[path];
      if stored.pipeline != setup.pipelineName {
        return None;
      }
      var same := CompareVars(stored.variables, setup.vars);
      return if same then Some(stored) else None;
    }

    /** The body of a loop for one step that is not skipped. */
    method ExecuteLoopStep(step: Step) returns (f: Flow)
      modifies this
      ensures (f, View()) == LoopStep(world, setup, step, old(View()))
    {
      var r := ExecuteStep(step);
      if r.failed {
        return Leave(LoopExit(1, true));
      }
      if r.exitCode != 0 {
        if world.rateLimited(r.output) {
          SaveCheckpoint([], step.name, true);
          rateLimitOutput := r.output;
          return Leave(LoopExit(2, false));
        }
        return Leave(LoopExit(r.exitCode, true));
      }
      var stop := ShouldGracefulStop();
      if stop {
        return Leave(LoopExit(3, false));
      }
      if step.condition.Some? {
        var decision := EvaluateCondition(step.condition.value, r.output);
        if decision.None? {
          return Leave(LoopExit(1, true));
        }
        if !decision.value {
          return Break;
        }
      }
      return Next(r.output);
    }

    /** executeLoop always terminates and computes the meaning of the loop. */
    method ExecuteLoop(l: Loop) returns (x: LoopExit)
      modifies this
      ensures (x, View()) == LoopMeaning(world, setup, l, l.maxIterations, old(View()))
      decreases 2 * (1 + Total(l.elements))
    {
      hide BodyMeaning, LoopStep;
      ghost var goal := LoopMeaning(world, setup, l, l.maxIterations, View());
      var iter := 1;
      while iter <= l.maxIterations
        invariant iter >= 1
        invariant iter <= l.maxIterations + 1 || l.maxIterations <= 0
        invariant LoopMeaning(world, setup, l, l.maxIterations - iter + 1, View()) == goal
        decreases l.maxIterations - iter
      {
        var f := ExecuteBody(l);
        match f {
          case Leave(exit) => return exit;
          case Break => return LoopExit(0, false);
          case Next(lastOutput) =>
            if Modes(l.condition) > 0 {
              var decision := EvaluateCondition(l.condition, lastOutput);
              if decision.None? {
                return LoopExit(1, true);
              }
              if !decision.value {
                return LoopExit(0, false);
              }
            }
            if iter == l.maxIterations {
              return LoopExit(0, false);
            }
        }
        iter := iter + 1;
      }
      return LoopExit(0, false);
    }

    /** One iteration: the range loop over the elements, with its lastOutput and breakLoop. */
    method ExecuteBody(l: Loop) returns (f: Flow)
      modifies this
      ensures (f, View()) == BodyMeaning(world, setup, l.elements, "", old(View()))
      decreases 2 * Total(l.elements) + 1
    {
      hide LoopStep, LoopMeaning;
      ghost var goal := BodyMeaning(world, setup, l.elements, "", View());
      var lastOutput := "";
      assert l.elements[0..] == l.elements;
      for i := 0 to |l.elements|
        invariant BodyMeaning(world, setup, l.elements[i..], lastOutput, View()) == goal
      {
        assert l.elements[i..][0] == l.elements[i] && l.elements[i..][1..] == l.elements[i + 1..];
        match l.elements[i] {
          case LoopElement(inner) =>
            NestedSmaller(l.elements, i);
            var x := ExecuteLoop(inner);
            if x.err || x.code != 0 {
              return Leave(x);
            }
          case StepElement(step) =>
            if step.skip == "true" {
              continue;
            }
            f := ExecuteLoopStep(step);
            if !f.Next? {
              return;
            }
            lastOutput := f.lastOutput;
        }
      }
      assert l.elements[|l.elements|..] == [];
      return Next(lastOutput);
    }

    /** What Run does at a top-level step that is not skipped. */
    method ExecuteTopLevelStep(step: Step, i: nat, completed: seq<string>) returns (m: Move)
      modifies this
      ensures (m, View()) == StepMove(world, setup, i, completed, step, old(View()))
    {
      var r := ExecuteStep(step);
      if r.failed {
        return End(1);
      }
      if r.exitCode != 0 {
        if world.rateLimited(r.output) {
          SaveCheckpoint(completed, step.name, true);
          rateLimitOutput := r.output;
          return End(2);
        }
        if setup.pipelineName != "" {
          SaveCheckpoint(completed, step.name, false);
        }
        return End(r.exitCode);
      }
      var completed' := completed + [step.name];
      if setup.pipelineName != "" {
        SaveCheckpoint(completed', "", false);
      }
      var stop := ShouldGracefulStop();
      if stop {
        return End(3);
      }
      if step.condition.Some? {
        var next := EvaluateStepCondition(step.condition.value, r.output, i);
        if next.None? {
          return End(1);
        }
        if next.value < 0 {
          return End(0);
        }
        return Goto(next.value, completed', "");
      }
      return Goto(i + 1, completed', "");
    }

    /** The next element index, -1 to stop the pipeline, or None for an error. */
    method EvaluateStepCondition(c: Condition, output: string, i: nat) returns (next: Option<int>)
      modifies this`tick
      ensures View() == Ticked(old(View()))
      ensures next == NextIndex(c, world.decide(old(tick), c, output), i, setup.elements)
    {
      var decision := EvaluateCondition(c, output);
      if decision.None? {
        return None;
      }
      if c.target != "" {
        if decision.value {
          var idx := FindElementIndex(c.target);
          return if idx == -1 then None else Some(idx);
        }
        return Some(i + 1);
      }
      return if decision.value then Some(i + 1) else Some(-1);
    }

    method FindElementIndex(name: string) returns (idx: int)
      ensures idx == IndexOf(name, setup.elements)
    {
      for i := 0 to |setup.elements|
        invariant forall j :: 0 <= j < i ==> !(setup.elements[j].StepElement? && setup.elements[j].step.name == name)
      {
        if setup.elements[i].StepElement? && setup.elements[i].step.name == name {
          return i;
        }
      }
      return -1;
    }

    /** Executes the pipeline, visiting at most `fuel` elements; None when that was not enough. */
    method Run(fuel: nat) returns (code: Option<int>)
      modifies this
      ensures (code, View()) == RunMeaning(fuel, world, setup, old(View()))
    {
      hide ElementMove;
      var es := setup.elements;
      var cp: Option<Checkpoint> := None;
      if !setup.restart && setup.pipelineName != "" {
        cp := LoadCheckpoint();
      }
      var skipUntil := "";
      if cp.None? && !setup.restart {
        skipUntil := setup.subResume;
      }
      ghost var goal := RunFrom(fuel, world, setup, cp, 0, [], skipUntil, View());
      var completed: seq<string> := [];
      var i: nat, visits := 0, 0;
      while i < |es|
        invariant visits <= fuel
        invariant RunFrom(fuel - visits, world, setup, cp, i, completed, skipUntil, View()) == goal
        decreases fuel - visits
      {
        if visits == fuel {
          return None;
        }
        visits := visits + 1;
        var m := Visit(cp, i, completed, skipUntil);
        if m.End? {
          return Some(m.code);
        }
        i, completed, skipUntil := m.index, m.completed, m.skipUntil;
      }
      disk := disk - {CheckpointPath(setup.pipelineName)};
      return Some(0);
    }

    /** One round of Run's loop. */
    method Visit(cp: Option<Checkpoint>, i: nat, completed: seq<string>, skipUntil: string) returns (m: Move)
      requires i < |setup.elements|
      modifies this
      ensures (m, View()) == ElementMove(world, setup, cp, i, completed, skipUntil, old(View()))
    {
      match setup.elements[i]
      case LoopElement(l) =>
        var x := ExecuteLoop(l);
        if x.err || x.code != 0 {
          return End(x.code);
        }
        return Goto(i + 1, completed, skipUntil);
      case StepElement(step) =>
        if step.skip == "true" {
          return Goto(i + 1, completed, skipUntil);
        }
        if cp.Some? {
          var done := IsStepCompleted(cp.value, step.name);
          if done {
            return Goto(i + 1, completed + [step.name], skipUntil);
          }
        }
        if skipUntil != "" && step.name != skipUntil {
          return Goto(i + 1, completed + [step.name], skipUntil);
        }
        m := ExecuteTopLevelStep(step, i, completed);
    }
  }
}
