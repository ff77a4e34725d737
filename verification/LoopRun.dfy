/**
 What a loop does, iteration by iteration and element by element: executeLoop
 in orchestrator/engine/executor.go.
 */
module LoopRuns {
  import opened Common
  import opened Pipelines
  import opened Executors

  // ---------------------------------------------------------------------
  // Iteration by iteration
  // ---------------------------------------------------------------------

  /** One iteration that reached the end of the body: where it began, the output it ended with, and where it ended. */
  datatype Pass = Pass(from: State, output: string, to: State)

  /** Where the iteration after `p` begins: a loop with a condition has asked it. */
  function After(l: Loop, p: Pass): State {
    if Modes(l.condition) == 0 then p.to else Ticked(p.to)
  }

  /** What the loop's condition was answered after `p`, the input being the output `p` ended with. */
  function Answer(w: World, l: Loop, p: Pass): Option<bool> {
    if Modes(l.condition) == 0 then Some(true) else w.decide(p.to.tick, l.condition, p.output)
  }

  /** The passes follow each other from `s` on, and after each but the last the loop was to go on. */
  ghost predicate Chained(w: World, u: Setup, l: Loop, s: State, ps: seq<Pass>) {
    && (forall k :: 0 <= k < |ps| ==> BodyMeaning(w, u, l.elements, "", ps[k].from) == (Next(ps[k].output), ps[k].to))
    && (ps != [] ==> ps[0].from == s)
    && (forall k :: 0 < k < |ps| ==> ps[k].from == After(l, ps[k - 1]))
    && (forall k :: 0 <= k < |ps| - 1 ==> Answer(w, l, ps[k]) == Some(true))
  }

  /** Where the iteration after `ps` begins. */
  function Reached(l: Loop, s: State, ps: seq<Pass>): State {
    if ps == [] then s else After(l, ps[|ps| - 1])
  }

  /** The last of the passes, if any, is one after which the loop goes on. */
  ghost predicate GoesOn(w: World, l: Loop, ps: seq<Pass>) {
    ps != [] ==> Answer(w, l, ps[|ps| - 1]) == Some(true)
  }

  /**
   A loop repeats its body as long as it has iterations left and its condition
   holds, and stops at the first answer that is not true. An iteration that is
   left early ends it.
   */
  lemma {:induction false} LoopByPass(w: World, u: Setup, l: Loop, left: int, s: State) returns (ps: seq<Pass>)
    ensures Chained(w, u, l, s, ps) && |ps| <= (if left < 0 then 0 else left)
    ensures var (x, t) := LoopMeaning(w, u, l, left, s);
            var here := Reached(l, s, ps);
            if !GoesOn(w, l, ps) then
              t == here && x == if Answer(w, l, ps[|ps| - 1]) == None then LoopExit(1, true) else LoopExit(0, false)
            else if |ps| >= left then
              t == here && x == LoopExit(0, false)
            else
              var (f, v) := BodyMeaning(w, u, l.elements, "", here);
              !f.Next? && t == v && x == if f == Break then LoopExit(0, false) else f.exit
    decreases if left < 0 then 0 else left
  {
    hide BodyMeaning;
    ps := [];
    if left > 0 {
      var (f, v) := BodyMeaning(w, u, l.elements, "", s);
      if f.Next? {
        var p := Pass(s, f.lastOutput, v);
        ps := [p];
        if Answer(w, l, p) == Some(true) {
          var rest := LoopByPass(w, u, l, left - 1, After(l, p));
          ps := [p] + rest;
          assert rest != [] ==> ps[|ps| - 1] == rest[|rest| - 1];
          forall k | 0 <= k < |ps|
            ensures BodyMeaning(w, u, l.elements, "", ps[k].from) == (Next(ps[k].output), ps[k].to)
            ensures k > 0 ==> ps[k].from == After(l, ps[k - 1])
            ensures k < |ps| - 1 ==> Answer(w, l, ps[k]) == Some(true)
          {
            if k > 0 {
              assert ps[k] == rest[k - 1];
              assert ps[k - 1] == if k == 1 then p else rest[k - 2];
              assert rest[k - 1].from == if k == 1 then After(l, p) else After(l, rest[k - 2]);
            }
          }
        }
      }
    }
  }

  // ---------------------------------------------------------------------
  // Element by element
  // ---------------------------------------------------------------------

  /** A step carried out in a loop: run once, with success and without a stop, and its condition, if any, holds. */
  ghost predicate CarriedOut(w: World, step: Step, s: State, t: State, output: string) {
    && w.run(s.tick, step) == StepResult(output, 0, false)
    && !w.stop(s.tick + 1)
    && (step.condition.Some? ==> w.decide(s.tick + 2, step.condition.value, output) == Some(true))
    && t == State(s.tick + (if step.condition.None? then 2 else 3), s.trace + [Exec(step.name, StepResult(output, 0, false))], s.disk)
  }

  /** How a pass comes past one element: a nested loop ends with 0, and only a step of the body itself changes the output. */
  ghost predicate GoesPast(w: World, u: Setup, e: Element, s: State, heard: string, t: State, output: string) {
    match e
    case LoopElement(l) => LoopMeaning(w, u, l, l.maxIterations, s) == (LoopExit(0, false), t) && output == heard
    case StepElement(step) =>
      if step.skip == "true" then t == s && output == heard else CarriedOut(w, step, s, t, output)
  }

  /** Where a pass stands before each element, and the output heard last. */
  datatype Place = Place(state: State, heard: string)

  ghost predicate Walked(w: World, u: Setup, es: seq<Element>, at: seq<Place>)
    requires 0 < |at| <= |es| + 1
  {
    forall k :: 0 <= k < |at| - 1 ==> GoesPast(w, u, es[k], at[k].state, at[k].heard, at[k + 1].state, at[k + 1].heard)
  }

  /** How a pass ends at an element: a step that fails, is stopped, or asks a condition that does not hold. */
  ghost predicate EndsAt(w: World, u: Setup, e: Element, s: State, f: Flow, t: State) {
    match e
    case LoopElement(l) => f.Leave? && f.exit != LoopExit(0, false) && LoopMeaning(w, u, l, l.maxIterations, s) == (f.exit, t)
    case StepElement(step) =>
      var r := w.run(s.tick, step);
      var ran := State(s.tick + 1, s.trace + [Exec(step.name, r)], s.disk);
      && step.skip != "true"
      && if r.failed then f == Leave(LoopExit(1, true)) && t == ran
         else if r.exitCode != 0 && w.rateLimited(r.output) then
           f == Leave(LoopExit(2, false)) && t == Saved(u, ran, [], step.name, true)
         else if r.exitCode != 0 then f == Leave(LoopExit(r.exitCode, true)) && t == ran
         else if w.stop(s.tick + 1) then f == Leave(LoopExit(3, false)) && t == ran.(tick := s.tick + 2)
         else
           && step.condition.Some? && t == ran.(tick := s.tick + 3)
           && var d := w.decide(s.tick + 2, step.condition.value, r.output);
              d != Some(true) && f == if d == None then Leave(LoopExit(1, true)) else Break
  }

  lemma StepGoesPast(w: World, u: Setup, step: Step, s: State, heard: string)
    requires step.skip != "true"
    ensures var (f, t) := LoopStep(w, u, step, s);
            if f.Next? then GoesPast(w, u, StepElement(step), s, heard, t, f.lastOutput)
            else EndsAt(w, u, StepElement(step), s, f, t)
  {
    hide Saved;
  }

  /** A pass walks the elements in order, each from where the one before left off, up to the first that ends it. */
  lemma {:induction false} PassByElement(w: World, u: Setup, es: seq<Element>, heard: string, s: State) returns (at: seq<Place>)
    ensures 0 < |at| <= |es| + 1 && at[0] == Place(s, heard) && Walked(w, u, es, at)
    ensures var (f, t) := BodyMeaning(w, u, es, heard, s);
            var last := at[|at| - 1];
            if |at| == |es| + 1 then f == Next(last.heard) && t == last.state
            else !f.Next? && EndsAt(w, u, es[|at| - 1], last.state, f, t)
    decreases |es|
  {
    hide LoopMeaning, LoopStep, GoesPast, EndsAt;
    at := [Place(s, heard)];
    if es != [] {
      var next := ElementTaken(w, u, es, heard, s);
      if next.Some? {
        var rest := PassByElement(w, u, es[1..], next.value.heard, next.value.state);
        at := at + rest;
        forall k | 0 <= k < |at| - 1
          ensures GoesPast(w, u, es[k], at[k].state, at[k].heard, at[k + 1].state, at[k + 1].heard)
        {
          if k > 0 {
            assert at[k] == rest[k - 1] && at[k + 1] == rest[k] && es[k] == es[1..][k - 1];
          }
        }
        assert at[|at| - 1] == rest[|rest| - 1];
      }
    }
  }

  /** The first element of a pass: where it goes on, if it does. */
  lemma ElementTaken(w: World, u: Setup, es: seq<Element>, heard: string, s: State) returns (next: Option<Place>)
    requires es != []
    ensures next.Some? ==>
              && GoesPast(w, u, es[0], s, heard, next.value.state, next.value.heard)
              && BodyMeaning(w, u, es, heard, s) == BodyMeaning(w, u, es[1..], next.value.heard, next.value.state)
    ensures next.None? ==>
              var (f, t) := BodyMeaning(w, u, es, heard, s);
              !f.Next? && EndsAt(w, u, es[0], s, f, t)
  {
    hide LoopMeaning, LoopStep;
    next := None;
    match es[0] {
      case LoopElement(l) =>
        var (x, t) := LoopMeaning(w, u, l, l.maxIterations, s);
        if !x.err && x.code == 0 {
          next := Some(Place(t, heard));
        }
      case StepElement(step) =>
        if step.skip == "true" {
          next := Some(Place(s, heard));
        } else {
          StepGoesPast(w, u, step, s, heard);
          var (f, t) := LoopStep(w, u, step, s);
          if f.Next? {
            next := Some(Place(t, f.lastOutput));
          }
        }
    }
  }

  /**
   A condition of a step that turns out false ends the loop with 0, in whichever
   iteration, and nothing of the body is executed after the step: `ps` are the
   iterations before, and `at` is the walk of this one up to the step.
   */
  lemma FalseStepConditionEndsLoop(w: World, u: Setup, l: Loop, left: int, s: State, ps: seq<Pass>, at: seq<Place>)
    requires Chained(w, u, l, s, ps) && GoesOn(w, l, ps) && |ps| < left
    requires 0 < |at| <= |l.elements| && at[0] == Place(Reached(l, s, ps), "") && Walked(w, u, l.elements, at)
    requires var e := l.elements[|at| - 1]; e.StepElement? && e.step.skip != "true" && e.step.condition.Some?
    requires var (step, v) := (l.elements[|at| - 1].step, at[|at| - 1].state);
             var r := w.run(v.tick, step);
             Succeeded(r) && !w.stop(v.tick + 1) && w.decide(v.tick + 2, step.condition.value, r.output) == Some(false)
    ensures var (step, v) := (l.elements[|at| - 1].step, at[|at| - 1].state);
            LoopMeaning(w, u, l, left, s) ==
            (LoopExit(0, false), State(v.tick + 3, v.trace + [Exec(step.name, w.run(v.tick, step))], v.disk))
  {
    hide LoopStep, BodyMeaning, LoopMeaning, GoesPast, Chained;
    var es, here := l.elements, Reached(l, s, ps);
    PassesGone(w, u, l, left, s, ps);
    WalkedPart(w, u, es, "", here, at);
    var last := at[|at| - 1];
    EndsBody(w, u, es[|at| - 1..], last.heard, last.state);
    BreakEndsLoop(w, u, l, left - |ps|, here);
  }

  /** A loop that has made some passes is one with fewer iterations left. */
  lemma {:induction false} PassesGone(w: World, u: Setup, l: Loop, left: int, s: State, ps: seq<Pass>)
    requires Chained(w, u, l, s, ps) && GoesOn(w, l, ps) && |ps| <= left
    ensures LoopMeaning(w, u, l, left, s) == LoopMeaning(w, u, l, left - |ps|, Reached(l, s, ps))
    decreases |ps|
  {
    hide BodyMeaning, LoopMeaning;
    if ps != [] {
      var n := |ps| - 1;
      var before := ps[..n];
      assert before != [] ==> before[n - 1] == ps[n - 1];
      PassesGone(w, u, l, left, s, before);
      assert ps[n].from == Reached(l, s, before);
      OnePass(w, u, l, left - n, ps[n]);
    }
  }

  lemma OnePass(w: World, u: Setup, l: Loop, left: int, p: Pass)
    requires left > 0 && BodyMeaning(w, u, l.elements, "", p.from) == (Next(p.output), p.to) && Answer(w, l, p) == Some(true)
    ensures LoopMeaning(w, u, l, left, p.from) == LoopMeaning(w, u, l, left - 1, After(l, p))
  {
    hide BodyMeaning;
  }

  lemma BreakEndsLoop(w: World, u: Setup, l: Loop, left: int, s: State)
    requires left > 0
    ensures var (f, t) := BodyMeaning(w, u, l.elements, "", s);
            f == Break ==> LoopMeaning(w, u, l, left, s) == (LoopExit(0, false), t)
  {
    hide BodyMeaning;
  }

  lemma EndsBody(w: World, u: Setup, es: seq<Element>, heard: string, v: State)
    requires es != [] && es[0].StepElement? && es[0].step.skip != "true" && es[0].step.condition.Some?
    requires var r := w.run(v.tick, es[0].step);
             Succeeded(r) && !w.stop(v.tick + 1) && w.decide(v.tick + 2, es[0].step.condition.value, r.output) == Some(false)
    ensures BodyMeaning(w, u, es, heard, v) ==
            (Break, State(v.tick + 3, v.trace + [Exec(es[0].step.name, w.run(v.tick, es[0].step))], v.disk))
  {
  }

  /** A pass that has walked so far is one from where it stands. */
  lemma {:induction false} WalkedPart(w: World, u: Setup, es: seq<Element>, heard: string, s: State, at: seq<Place>)
    requires 0 < |at| <= |es| + 1 && at[0] == Place(s, heard) && Walked(w, u, es, at)
    ensures var last := at[|at| - 1];
            BodyMeaning(w, u, es, heard, s) == BodyMeaning(w, u, es[|at| - 1..], last.heard, last.state)
    decreases |at|
  {
    hide BodyMeaning, GoesPast;
    if |at| == 1 {
      assert es[0..] == es;
    } else {
      ElementPassed(w, u, es, at[0], at[1]);
      forall k | 0 <= k < |at| - 2
        ensures GoesPast(w, u, es[1..][k], at[1..][k].state, at[1..][k].heard, at[1..][k + 1].state, at[1..][k + 1].heard)
      {
        assert es[1..][k] == es[k + 1] && at[1..][k] == at[k + 1] && at[1..][k + 1] == at[k + 2];
      }
      WalkedPart(w, u, es[1..], at[1].heard, at[1].state, at[1..]);
      assert es[1..][|at| - 2..] == es[|at| - 1..];
    }
  }

  lemma ElementPassed(w: World, u: Setup, es: seq<Element>, p: Place, q: Place)
    requires es != [] && GoesPast(w, u, es[0], p.state, p.heard, q.state, q.heard)
    ensures BodyMeaning(w, u, es, p.heard, p.state) == BodyMeaning(w, u, es[1..], q.heard, q.state)
  {
    hide LoopMeaning;
  }

  // ---------------------------------------------------------------------
  // Which steps a loop executes
  // ---------------------------------------------------------------------

  function Repeat<T>(n: nat, s: seq<T>): seq<T> {
    if n == 0 then [] else s + Repeat(n - 1, s)
  }

  /** The steps one pass executes when no condition ends a loop early, in order. */
  function Unrolled(es: seq<Element>): seq<string>
    decreases Total(es)
  {
    if es == [] then []
    else
      NestedSmaller(es, 0);
      TailSmaller(es);
      (match es[0]
       case StepElement(step) => if step.skip == "true" then [] else [step.name]
       case LoopElement(l) => Repeat(if l.maxIterations < 0 then 0 else l.maxIterations, Unrolled(l.elements)))
      + Unrolled(es[1..])
  }

  /** Where in `Unrolled` the last step of the body itself stands. */
  function LastOwn(es: seq<Element>): Option<nat> {
    if es == [] then None
    else
      match LastOwn(es[1..])
      case Some(n) => Some(|Unrolled([es[0]])| + n)
      case None => if es[0].StepElement? && es[0].step.skip != "true" then Some(0) else None
  }

  /** The conditions that can be asked in a pass, nested loops included. */
  function Conditions(es: seq<Element>): set<Condition>
    decreases Total(es)
  {
    if es == [] then {}
    else
      NestedSmaller(es, 0);
      TailSmaller(es);
      (match es[0]
       case StepElement(step) => if step.condition.None? then {} else {step.condition.value}
       case LoopElement(l) => {l.condition} + Conditions(l.elements))
      + Conditions(es[1..])
  }

  /** Every step succeeds, nobody asks to stop, and the conditions inside `es` hold. */
  ghost predicate Smooth(w: World, es: seq<Element>) {
    && (forall n, step :: Succeeded(w.run(n, step)))
    && (forall n :: !w.stop(n))
    && (forall c, n, input :: c in Conditions(es) ==> w.decide(n, c, input) == Some(true))
  }

  function Names(trace: seq<Exec>): seq<string> {
    seq(|trace|, i requires 0 <= i < |trace| => trace[i].step)
  }

  /** From `s` to `t` exactly the given steps were executed, and no file was written. */
  ghost predicate Ran(s: State, t: State, names: seq<string>) {
    && |s.trace| <= |t.trace| && t.trace[..|s.trace|] == s.trace
    && Names(t.trace[|s.trace|..]) == names && t.disk == s.disk
  }

  lemma RanNothing(s: State)
    ensures Ran(s, s, []) && Ran(s, Ticked(s), [])
  {
  }

  lemma RanTwice(s: State, t: State, v: State, a: seq<string>, b: seq<string>)
    requires Ran(s, t, a) && Ran(t, v, b)
    ensures Ran(s, v, a + b)
  {
    assert v.trace[..|s.trace|] == t.trace[..|s.trace|];
    var x, y := t.trace[|s.trace|..], v.trace[|t.trace|..];
    assert v.trace == t.trace + y;
    assert v.trace[|s.trace|..] == x + y;
    assert Names(x + y) == Names(x) + Names(y);
  }

  /** The output a pass from `s` to `t` ends with: that of the last step of the body itself, if there is one. */
  ghost predicate EndsWith(es: seq<Element>, heard: string, s: State, t: State, output: string) {
    match LastOwn(es)
    case None => output == heard
    case Some(n) => |s.trace| + n < |t.trace| && output == t.trace[|s.trace| + n].result.output
  }

  lemma UnrolledStep(es: seq<Element>)
    requires es != []
    ensures Unrolled(es) == Unrolled([es[0]]) + Unrolled(es[1..])
    ensures match es[0]
            case StepElement(step) => Unrolled([es[0]]) == if step.skip == "true" then [] else [step.name]
            case LoopElement(l) => Unrolled([es[0]]) == Repeat(if l.maxIterations < 0 then 0 else l.maxIterations, Unrolled(l.elements))
  {
    assert [es[0]][1..] == [];
    NestedSmaller([es[0]], 0);
    NestedSmaller(es, 0);
  }

  lemma ConditionsInside(w: World, es: seq<Element>)
    requires es != [] && Smooth(w, es)
    ensures Smooth(w, es[1..])
    ensures match es[0]
            case StepElement(step) => step.condition.Some? ==> forall n, input :: w.decide(n, step.condition.value, input) == Some(true)
            case LoopElement(l) => Smooth(w, l.elements) && forall n, input :: w.decide(n, l.condition, input) == Some(true)
  {
    NestedSmaller(es, 0);
    TailSmaller(es);
    assert forall c :: c in Conditions(es[1..]) ==> c in Conditions(es);
    match es[0] {
      case StepElement(step) => assert step.condition.Some? ==> step.condition.value in Conditions(es);
      case LoopElement(l) =>
        assert l.condition in Conditions(es);
        assert forall c :: c in Conditions(l.elements) ==> c in Conditions(es);
    }
  }

  /** A smooth pass executes the unrolled steps, in order. */
  lemma {:induction false} SmoothPass(w: World, u: Setup, es: seq<Element>, heard: string, s: State)
    requires Smooth(w, es)
    ensures var (f, t) := BodyMeaning(w, u, es, heard, s);
            f.Next? && Ran(s, t, Unrolled(es)) && EndsWith(es, heard, s, t, f.lastOutput)
    decreases 2 * Total(es) + 1, 0
  {
    hide Ran, Smooth, LoopMeaning, Unrolled, Conditions;
    if es == [] {
      RanNothing(s);
      UnrolledNothing();
    } else {
      NestedSmaller(es, 0);
      TailSmaller(es);
      ConditionsInside(w, es);
      UnrolledStep(es);
      var next := SmoothElement(w, u, es, heard, s);
      SmoothPass(w, u, es[1..], next.heard, next.state);
      var t := BodyMeaning(w, u, es, heard, s).1;
      RanTwice(s, next.state, t, Unrolled([es[0]]), Unrolled(es[1..]));
      EndsWithMore(es, heard, s, next, t, BodyMeaning(w, u, es, heard, s).0.lastOutput);
    }
  }

  lemma UnrolledNothing()
    ensures Unrolled([]) == []
  {
  }

  lemma EndsWithMore(es: seq<Element>, heard: string, s: State, next: Place, t: State, output: string)
    requires es != [] && Ran(s, next.state, Unrolled([es[0]])) && Ran(next.state, t, Unrolled(es[1..]))
    requires EndsWith(es[1..], next.heard, next.state, t, output)
    requires if es[0].StepElement? && es[0].step.skip != "true" then
               Unrolled([es[0]]) == [es[0].step.name] && next.heard == next.state.trace[|next.state.trace| - 1].result.output
             else next.heard == heard
    ensures EndsWith(es, heard, s, t, output)
  {
    hide Unrolled;
    assert |Names(next.state.trace[|s.trace|..])| == |Unrolled([es[0]])|;
    assert |next.state.trace| == |s.trace| + |Unrolled([es[0]])|;
  }

  lemma {:induction false} SmoothElement(w: World, u: Setup, es: seq<Element>, heard: string, s: State) returns (next: Place)
    requires es != [] && Smooth(w, es)
    ensures BodyMeaning(w, u, es, heard, s) == BodyMeaning(w, u, es[1..], next.heard, next.state)
    ensures Ran(s, next.state, Unrolled([es[0]]))
    ensures if es[0].StepElement? && es[0].step.skip != "true" then
              Unrolled([es[0]]) == [es[0].step.name] && next.state.trace != []
              && next.heard == next.state.trace[|next.state.trace| - 1].result.output
            else next.heard == heard
    decreases 2 * Total(es) + 1, 0, 0
  {
    hide Smooth, Conditions, LoopMeaning, LoopStep, Unrolled, Ran;
    NestedSmaller(es, 0);
    ConditionsInside(w, es);
    UnrolledStep(es);
    match es[0] {
      case LoopElement(l) =>
        SmoothLoop(w, u, l, l.maxIterations, s);
        next := Place(LoopMeaning(w, u, l, l.maxIterations, s).1, heard);
      case StepElement(step) =>
        if step.skip == "true" {
          RanNothing(s);
          next := Place(s, heard);
        } else {
          NoConditions(w, es);
          SmoothStep(w, u, step, s);
          var (f, t) := LoopStep(w, u, step, s);
          next := Place(t, f.lastOutput);
        }
    }
  }

  lemma NoConditions(w: World, es: seq<Element>)
    requires Smooth(w, es)
    ensures Smooth(w, [])
  {
  }

  lemma SmoothStep(w: World, u: Setup, step: Step, s: State)
    requires Smooth(w, [])
    requires step.condition.Some? ==> forall n, input :: w.decide(n, step.condition.value, input) == Some(true)
    ensures var (f, t) := LoopStep(w, u, step, s);
            && f.Next? && Ran(s, t, [step.name])
            && t.trace != [] && f.lastOutput == t.trace[|t.trace| - 1].result.output
  {
    var t := LoopStep(w, u, step, s).1;
    assert t.trace[|s.trace|..] == [Exec(step.name, w.run(s.tick, step))];
  }

  /** A loop whose own condition holds too executes its body max_iterations times. */
  lemma {:induction false} SmoothLoop(w: World, u: Setup, l: Loop, left: int, s: State)
    requires Smooth(w, l.elements) && forall n, input :: w.decide(n, l.condition, input) == Some(true)
    ensures var (x, t) := LoopMeaning(w, u, l, left, s);
            x == LoopExit(0, false) && Ran(s, t, Repeat(if left < 0 then 0 else left, Unrolled(l.elements)))
    decreases 2 * (1 + Total(l.elements)), if left < 0 then 0 else left, 1
  {
    hide Smooth, Conditions, BodyMeaning, Unrolled, Ran;
    if left <= 0 {
      RanNothing(s);
    } else {
      SmoothPass(w, u, l.elements, "", s);
      var t := BodyMeaning(w, u, l.elements, "", s).1;
      RanNothing(t);
      var v := if Modes(l.condition) == 0 then t else Ticked(t);
      SmoothLoop(w, u, l, left - 1, v);
      var names := Unrolled(l.elements);
      assert names + [] == names;
      RanTwice(s, t, v, names, []);
      RanTwice(s, v, LoopMeaning(w, u, l, left - 1, v).1, names, Repeat(left - 1, names));
    }
  }

  /**
   When the steps succeed, nobody asks to stop and the conditions inside the
   body hold, a loop executes the whole body once, and again as long as its
   condition was answered with true, but not more than max_iterations times. Each
   question gets the output of the last step of the body in that iteration. A
   false answer ends the loop with 0, an undecided one with an error.
   */
  lemma LoopRepeatsWhileTrue(w: World, u: Setup, l: Loop, s: State) returns (ps: seq<Pass>)
    requires Smooth(w, l.elements) && l.maxIterations > 0
    ensures 0 < |ps| <= l.maxIterations
    ensures ps[0].from == s && forall k :: 0 < k < |ps| ==> ps[k].from == After(l, ps[k - 1])
    ensures forall k :: 0 <= k < |ps| ==> Ran(ps[k].from, ps[k].to, Unrolled(l.elements))
                                          && EndsWith(l.elements, "", ps[k].from, ps[k].to, ps[k].output)
    ensures forall k :: 0 <= k < |ps| - 1 ==> Answer(w, l, ps[k]) == Some(true)
    ensures |ps| < l.maxIterations ==> Answer(w, l, ps[|ps| - 1]) != Some(true)
    ensures var (x, t) := LoopMeaning(w, u, l, l.maxIterations, s);
            && x == (if Answer(w, l, ps[|ps| - 1]) == None then LoopExit(1, true) else LoopExit(0, false))
            && t == After(l, ps[|ps| - 1]) && Ran(s, t, Repeat(|ps|, Unrolled(l.elements)))
  {
    hide BodyMeaning, LoopMeaning, Unrolled, Smooth, EndsWith, Ran, Repeat;
    ps := LoopByPass(w, u, l, l.maxIterations, s);
    forall k | 0 <= k < |ps|
      ensures Ran(ps[k].from, ps[k].to, Unrolled(l.elements))
      ensures EndsWith(l.elements, "", ps[k].from, ps[k].to, ps[k].output)
    {
      SmoothPass(w, u, l.elements, "", ps[k].from);
    }
    SmoothPass(w, u, l.elements, "", Reached(l, s, ps));
    PassesRan(l, s, ps, |ps|);
    assert ps[..|ps|] == ps;
  }

  lemma {:induction false} PassesRan(l: Loop, s: State, ps: seq<Pass>, n: nat)
    requires n <= |ps| && (ps != [] ==> ps[0].from == s) && forall k :: 0 < k < |ps| ==> ps[k].from == After(l, ps[k - 1])
    requires forall k :: 0 <= k < |ps| ==> Ran(ps[k].from, ps[k].to, Unrolled(l.elements))
    ensures Ran(s, Reached(l, s, ps[..n]), Repeat(n, Unrolled(l.elements)))
    decreases n
  {
    hide Ran, Unrolled;
    if n == 0 {
      RanNothing(s);
    } else {
      PassesRan(l, s, ps, n - 1);
      var names, p := Unrolled(l.elements), ps[n - 1];
      assert n > 1 ==> ps[..n - 1][n - 2] == ps[n - 2];
      assert p.from == Reached(l, s, ps[..n - 1]) && After(l, p) == Reached(l, s, ps[..n]);
      RanTwice(s, p.from, p.to, Repeat(n - 1, names), names);
      RanNothing(p.to);
      assert (Repeat(n - 1, names) + names) + [] == Repeat(n - 1, names) + names;
      RanTwice(s, p.to, After(l, p), Repeat(n - 1, names) + names, []);
      RepeatOnce(n - 1, names);
    }
  }

  lemma {:induction false} RepeatOnce<T>(n: nat, s: seq<T>)
    ensures Repeat(n, s) + s == Repeat(n + 1, s)
  {
    if n > 0 {
      RepeatOnce(n - 1, s);
      assert (s + Repeat(n - 1, s)) + s == s + (Repeat(n - 1, s) + s);
    }
  }
}
