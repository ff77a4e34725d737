/**
 Which pipelines are always resumed exactly: what a rate limit inside a loop
 does to the checkpoint (executeLoop in orchestrator/engine/executor.go).
 */
module ResumeLoops {
  import opened Common
  import opened Pipelines
  import opened Checkpoints
  import opened Executors
  import opened Resume

  // ---------------------------------------------------------------------
  // First attempt: all goes well up to a stop
  // ---------------------------------------------------------------------

  /** A stop seen only after a loop has ended does not change it. */
  lemma {:induction false} LoopBefore(n: nat, u: Setup, l: Loop, left: int, s: State)
    ensures s.tick <= LoopMeaning(UNDISTURBED, u, l, left, s).1.tick
    ensures LoopMeaning(UNDISTURBED, u, l, left, s).1.tick <= n ==>
              LoopMeaning(StopsAt(n), u, l, left, s) == LoopMeaning(UNDISTURBED, u, l, left, s)
    decreases 2 * (1 + Total(l.elements)), if left < 0 then 0 else left
  {
    hide BodyMeaning;
    if left > 0 {
      BodyReached(UNDISTURBED, u, l.elements, "", s);
      BodyBefore(n, u, l.elements, "", s);
      var s1 := BodyMeaning(UNDISTURBED, u, l.elements, "", s).1;
      LoopBefore(n, u, l, left - 1, if Modes(l.condition) == 0 then s1 else Ticked(s1));
    }
  }

  lemma {:induction false} BodyBefore(n: nat, u: Setup, es: seq<Element>, last: string, s: State)
    ensures s.tick <= BodyMeaning(UNDISTURBED, u, es, last, s).1.tick
    ensures BodyMeaning(UNDISTURBED, u, es, last, s).1.tick <= n ==>
              BodyMeaning(StopsAt(n), u, es, last, s) == BodyMeaning(UNDISTURBED, u, es, last, s)
    decreases 2 * Total(es) + 1, 0
  {
    hide LoopMeaning;
    if es != [] {
      NestedSmaller(es, 0);
      TailSmaller(es);
      match es[0] {
        case LoopElement(l) =>
          BoundIsReached(UNDISTURBED, u, l, l.maxIterations, s);
          LoopBefore(n, u, l, l.maxIterations, s);
          BodyBefore(n, u, es[1..], last, LoopMeaning(UNDISTURBED, u, l, l.maxIterations, s).1);
        case StepElement(step) =>
          if step.skip == "true" {
            BodyBefore(n, u, es[1..], last, s);
          } else {
            var (f, s1) := LoopStep(UNDISTURBED, u, step, s);
            BodyBefore(n, u, es[1..], f.lastOutput, s1);
          }
      }
    }
  }

  /** A stop seen only after a run has ended does not change it. */
  lemma {:induction false} RunBefore(n: nat, fuel: nat, u: Setup, cp: Option<Checkpoint>, i: nat, completed: seq<string>, s: State)
    requires Plain(u) && i <= |u.elements| && fuel >= |u.elements| - i
    ensures s.tick <= RunFrom(fuel, UNDISTURBED, u, cp, i, completed, "", s).1.tick
    ensures RunFrom(fuel, UNDISTURBED, u, cp, i, completed, "", s).1.tick <= n ==>
              RunFrom(fuel, StopsAt(n), u, cp, i, completed, "", s) == RunFrom(fuel, UNDISTURBED, u, cp, i, completed, "", s)
    decreases fuel
  {
    hide RunFrom, StepMove, LoopMeaning, StepNames, CheckpointPath;
    var es := u.elements;
    if i == |es| {
      RunEnds(fuel, UNDISTURBED, u, cp, completed, s);
      RunEnds(fuel, StopsAt(n), u, cp, completed, s);
    } else if es[i].LoopElement? {
      var l := es[i].loop;
      RunsLoop(fuel, UNDISTURBED, u, cp, i, completed, s);
      RunsLoop(fuel, StopsAt(n), u, cp, i, completed, s);
      BoundIsReached(UNDISTURBED, u, l, l.maxIterations, s);
      LoopBefore(n, u, l, l.maxIterations, s);
      RunBefore(n, fuel - 1, u, cp, i + 1, completed, LoopMeaning(UNDISTURBED, u, l, l.maxIterations, s).1);
    } else {
      PassesOver(fuel, UNDISTURBED, u, cp, i, completed, s);
      PassesOver(fuel, StopsAt(n), u, cp, i, completed, s);
      var step := es[i].step;
      if step.skip == "true" {
        RunBefore(n, fuel - 1, u, cp, i + 1, completed, s);
      } else if step.name in ListOf(cp) {
        RunBefore(n, fuel - 1, u, cp, i + 1, completed + [step.name], s);
      } else {
        Executes(fuel, UNDISTURBED, u, cp, i, completed, s);
        Executes(fuel, StopsAt(n), u, cp, i, completed, s);
        StepGoesWell(UNDISTURBED, u, i, completed, step, s);
        StepBefore(n, u, i, completed, step, s);
        RunBefore(n, fuel - 1, u, cp, i + 1, completed + [step.name], StepMove(UNDISTURBED, u, i, completed, step, s).1);
      }
    }
  }

  lemma StepBefore(n: nat, u: Setup, i: nat, completed: seq<string>, step: Step, s: State)
    requires step.condition.None?
    ensures s.tick + 2 <= n ==>
              StepMove(StopsAt(n), u, i, completed, step, s) == StepMove(UNDISTURBED, u, i, completed, step, s)
  {
  }

  /** The stop file is seen right after wanted step number `p`: the checkpoint lists the steps up to it. */
  lemma {:induction false} StopAfter(fuel: nat, u: Setup, cp: Option<Checkpoint>, i: nat, p: nat, s: State) returns (n: nat)
    requires Plain(u) && i <= |u.elements| && fuel >= |u.elements| - i && Marks(ListOf(cp), Wanted(u.elements), 0)
    requires |Wanted(u.elements[..i])| < p <= |Wanted(u.elements)|
    ensures n > s.tick
    ensures var done, wanted := Wanted(u.elements[..i]), Wanted(u.elements);
            var (code, t) := RunFrom(fuel, StopsAt(n), u, cp, i, done, "", s);
            && code == Some(3) && OthersKept(u, s, t) && Own(u, t.disk, wanted[..p])
            && Successes(wanted, t.trace) == Successes(wanted, s.trace) + wanted[|done|..p]
    decreases fuel, 1
  {
    hide RunFrom, StepMove, LoopMeaning, Wanted, Successes, StepNames, OthersKept, Own, CheckpointPath;
    var es, wanted := u.elements, Wanted(u.elements);
    var done := Wanted(es[..i]);
    assert es[..|es|] == es;
    WantedAt(es, i);
    if es[i].LoopElement? {
      var l := es[i].loop;
      var t := LoopMeaning(UNDISTURBED, u, l, l.maxIterations, s).1;
      BoundIsReached(UNDISTURBED, u, l, l.maxIterations, s);
      LoopStepsNotWanted(es, i);
      LoopInside(UNDISTURBED, u, l, l.maxIterations, s, wanted);
      n := StopAfter(fuel - 1, u, cp, i + 1, p, t);
      LoopBefore(n, u, l, l.maxIterations, s);
      RunsLoop(fuel, StopsAt(n), u, cp, i, done, s);
      SameDisk(u, s, t);
      OthersKeptTwice(u, s, t, RunFrom(fuel - 1, StopsAt(n), u, cp, i + 1, done, "", t).1);
    } else if es[i].step.skip == "true" {
      n := StopAfter(fuel - 1, u, cp, i + 1, p, s);
      PassesOver(fuel, StopsAt(n), u, cp, i, done, s);
    } else {
      var step := es[i].step;
      assert step.name == wanted[|done|];
      if |done| + 1 == p {
        n := s.tick + 1;
        assert done + [step.name] == wanted[..p] && [step.name] == wanted[|done|..p];
        Executes(fuel, StopsAt(n), u, cp, i, done, s);
        StepAdvances(StopsAt(n), u, i, done, step, s, wanted);
        SuccessesAppend(wanted, s.trace, Exec(step.name, StopsAt(n).run(s.tick, step)));
        StopsAfterStep(StopsAt(n), u, i, done, step, s);
      } else {
        n := StopLater(fuel, u, cp, i, p, s);
      }
    }
  }

  /** The case of StopAfter in which a wanted step is executed that is not the last. */
  lemma {:induction false} StopLater(fuel: nat, u: Setup, cp: Option<Checkpoint>, i: nat, p: nat, s: State) returns (n: nat)
    requires Plain(u) && i < |u.elements| && fuel >= |u.elements| - i && Marks(ListOf(cp), Wanted(u.elements), 0)
    requires u.elements[i].StepElement? && u.elements[i].step.skip != "true"
    requires |Wanted(u.elements[..i])| + 1 < p <= |Wanted(u.elements)|
    ensures n > s.tick
    ensures var done, wanted := Wanted(u.elements[..i]), Wanted(u.elements);
            var (code, t) := RunFrom(fuel, StopsAt(n), u, cp, i, done, "", s);
            && code == Some(3) && OthersKept(u, s, t) && Own(u, t.disk, wanted[..p])
            && Successes(wanted, t.trace) == Successes(wanted, s.trace) + wanted[|done|..p]
    decreases fuel, 0
  {
    hide RunFrom, StepMove, Wanted, Successes, StepNames, OthersKept, Own, CheckpointPath, StopsAt;
    var es, wanted, step := u.elements, Wanted(u.elements), u.elements[i].step;
    var done := Wanted(es[..i]);
    WantedAt(es, i);
    assert step.name == wanted[|done|];
    var t := StepMove(UNDISTURBED, u, i, done, step, s).1;
    StepGoesWell(UNDISTURBED, u, i, done, step, s);
    StepAdvances(UNDISTURBED, u, i, done, step, s, wanted);
    n := StopAfter(fuel - 1, u, cp, i + 1, p, t);
    StepBefore(n, u, i, done, step, s);
    Executes(fuel, StopsAt(n), u, cp, i, done, s);
    var v := RunFrom(fuel - 1, StopsAt(n), u, cp, i + 1, done + [step.name], "", t).1;
    OthersKeptTwice(u, s, t, v);
    assert wanted[|done|..p] == [step.name] + wanted[|done| + 1..p];
    var before := Successes(wanted, s.trace);
    assert (before + [step.name]) + wanted[|done| + 1..p] == before + ([step.name] + wanted[|done| + 1..p]);
  }

  lemma StopsAfterStep(w: World, u: Setup, i: nat, done: seq<string>, step: Step, s: State)
    requires Succeeded(w.run(s.tick, step)) && w.stop(s.tick + 1) && u.pipelineName != ""
    ensures var (m, t) := StepMove(w, u, i, done, step, s);
            && m == End(3) && Own(u, t.disk, done + [step.name]) && t.trace == s.trace + [Exec(step.name, w.run(s.tick, step))]
  {
    hide CheckpointPath;
  }

  // ---------------------------------------------------------------------
  // Second attempt: only the wanted steps succeed
  // ---------------------------------------------------------------------

  /** The steps of the given names succeed; all others hit the rate limit. */
  function OnlySucceed(names: seq<string>): World {
    UNDISTURBED.(run := (n, step: Step) => StepResult("", if step.name in names then 0 else 1, false),
                 rateLimited := output => true)
  }

  lemma {:induction false} LimitedLoop(names: seq<string>, u: Setup, l: Loop, left: int, s: State)
    requires left > 0 && BodyCost(l.elements) > 0 && forall x :: x in StepNames(l.elements) ==> x !in names
    ensures var (x, t) := LoopMeaning(OnlySucceed(names), u, l, left, s);
            x == LoopExit(2, false) && Own(u, t.disk, [])
    decreases 2 * (1 + Total(l.elements))
  {
    hide BodyMeaning, BodyCost, StepNames, CheckpointPath;
    LimitedBody(names, u, l.elements, "", s);
  }

  /** The first step that is executed is rate-limited. */
  lemma {:induction false} LimitedBody(names: seq<string>, u: Setup, es: seq<Element>, last: string, s: State)
    requires BodyCost(es) > 0 && forall x :: x in StepNames(es) ==> x !in names
    ensures var (f, t) := BodyMeaning(OnlySucceed(names), u, es, last, s);
            f == Leave(LoopExit(2, false)) && Own(u, t.disk, [])
    decreases 2 * Total(es) + 1
  {
    hide LoopMeaning, LoopCost, StepNames, CheckpointPath;
    NestedSmaller(es, 0);
    TailSmaller(es);
    NamesStep(es);
    NamesOfOne(es[0]);
    match es[0] {
      case LoopElement(l) =>
        FreeLoop(l);
        if LoopCost(l) > 0 {
          LimitedLoop(names, u, l, l.maxIterations, s);
        } else {
          IdleLoop(OnlySucceed(names), u, l, l.maxIterations, s);
          LimitedBody(names, u, es[1..], last, LoopMeaning(OnlySucceed(names), u, l, l.maxIterations, s).1);
        }
      case StepElement(step) =>
        if step.skip == "true" {
          LimitedBody(names, u, es[1..], last, s);
        }
    }
  }

  /** With a busy loop still to come, the run ends with a rate limit and an empty checkpoint. */
  lemma {:induction false} LimitedRun(fuel: nat, u: Setup, cp: Option<Checkpoint>, i: nat, b: nat, completed: seq<string>, s: State)
    requires Plain(u) && i <= b < |u.elements| && fuel >= |u.elements| - i
    requires u.elements[b].LoopElement? && LoopCost(u.elements[b].loop) > 0
    ensures var (code, t) := RunFrom(fuel, OnlySucceed(Wanted(u.elements)), u, cp, i, completed, "", s);
            code == Some(2) && Own(u, t.disk, [])
    decreases fuel
  {
    hide RunFrom, StepMove, LoopMeaning, LoopCost, Wanted, StepNames, Own, CheckpointPath;
    var es, w := u.elements, OnlySucceed(Wanted(u.elements));
    if es[i].LoopElement? {
      var l := es[i].loop;
      RunsLoop(fuel, w, u, cp, i, completed, s);
      FreeLoop(l);
      if LoopCost(l) > 0 {
        LoopStepsNotWanted(es, i);
        LimitedLoop(Wanted(es), u, l, l.maxIterations, s);
      } else {
        IdleLoop(w, u, l, l.maxIterations, s);
        LimitedRun(fuel - 1, u, cp, i + 1, b, completed, LoopMeaning(w, u, l, l.maxIterations, s).1);
      }
    } else {
      PassesOver(fuel, w, u, cp, i, completed, s);
      var step := es[i].step;
      if step.skip == "true" {
        LimitedRun(fuel - 1, u, cp, i + 1, b, completed, s);
      } else if step.name in ListOf(cp) {
        LimitedRun(fuel - 1, u, cp, i + 1, b, completed + [step.name], s);
      } else {
        WantedAt(es, i);
        assert step.name in Wanted(es);
        Executes(fuel, w, u, cp, i, completed, s);
        StepGoesWell(w, u, i, completed, step, s);
        LimitedRun(fuel - 1, u, cp, i + 1, b, completed + [step.name], StepMove(w, u, i, completed, step, s).1);
      }
    }
  }

  lemma StepGoesWell(w: World, u: Setup, i: nat, completed: seq<string>, step: Step, s: State)
    requires Succeeded(w.run(s.tick, step)) && step.condition.None?
    ensures var (m, t) := StepMove(w, u, i, completed, step, s);
            && t.tick == s.tick + 2
            && m == if w.stop(s.tick + 1) then End(3) else Goto(i + 1, completed + [step.name], "")
  {
  }

  // ---------------------------------------------------------------------
  // Third attempt: all goes well
  // ---------------------------------------------------------------------

  /** When all goes well a run ends with 0; a step listed as completed is not executed. */
  lemma {:induction false} RunGoesWell(fuel: nat, u: Setup, cp: Option<Checkpoint>, i: nat, completed: seq<string>, s: State, x: string)
    requires Plain(u) && i <= |u.elements| && fuel >= |u.elements| - i
    ensures var (code, t) := RunFrom(fuel, UNDISTURBED, u, cp, i, completed, "", s);
            var names := Wanted(u.elements);
            && code == Some(0) && OthersKept(u, s, t) && CheckpointPath(u.pipelineName) !in t.disk
            && (x in ListOf(cp) && x !in Successes(names, s.trace) ==> x !in Successes(names, t.trace))
    decreases fuel
  {
    hide RunFrom, StepMove, LoopMeaning, Wanted, Successes, StepNames, OthersKept, Own, CheckpointPath;
    var es := u.elements;
    if i == |es| {
      RunEnds(fuel, UNDISTURBED, u, cp, completed, s);
      return;
    }
    WantedAt(es, i);
    if es[i].LoopElement? {
      var l := es[i].loop;
      var t := LoopMeaning(UNDISTURBED, u, l, l.maxIterations, s).1;
      RunsLoop(fuel, UNDISTURBED, u, cp, i, completed, s);
      BoundIsReached(UNDISTURBED, u, l, l.maxIterations, s);
      LoopStepsNotWanted(es, i);
      LoopInside(UNDISTURBED, u, l, l.maxIterations, s, Wanted(es));
      RunGoesWell(fuel - 1, u, cp, i + 1, completed, t, x);
      SameDisk(u, s, t);
      OthersKeptTwice(u, s, t, RunFrom(fuel - 1, UNDISTURBED, u, cp, i + 1, completed, "", t).1);
    } else {
      PassesOver(fuel, UNDISTURBED, u, cp, i, completed, s);
      var step := es[i].step;
      if step.skip == "true" {
        RunGoesWell(fuel - 1, u, cp, i + 1, completed, s, x);
      } else if step.name in ListOf(cp) {
        RunGoesWell(fuel - 1, u, cp, i + 1, completed + [step.name], s, x);
      } else {
        Executes(fuel, UNDISTURBED, u, cp, i, completed, s);
        StepAdvances(UNDISTURBED, u, i, completed, step, s, Wanted(es));
        StepGoesWell(UNDISTURBED, u, i, completed, step, s);
        var t := StepMove(UNDISTURBED, u, i, completed, step, s).1;
        RunGoesWell(fuel - 1, u, cp, i + 1, completed + [step.name], t, x);
        OthersKeptTwice(u, s, t, RunFrom(fuel - 1, UNDISTURBED, u, cp, i + 1, completed + [step.name], "", t).1);
      }
    }
  }

  // ---------------------------------------------------------------------
  // The pipelines that are always resumed exactly
  // ---------------------------------------------------------------------

  /** Any number of attempts, the first without a checkpoint, the last ending with 0. */
  ghost predicate Finished(ws: seq<World>, u: Setup, s: State) {
    ws != [] && Loaded(u, s) == None && s.trace == [] && TriedAgain(ws, u, s) && Attempts(ws, u, s).0 == Some(0)
  }

  /** Every wanted step has succeeded once, in order. */
  ghost predicate Exact(ws: seq<World>, u: Setup, s: State)
    requires ws != []
  {
    Successes(Wanted(u.elements), Attempts(ws, u, s).1.trace) == Wanted(u.elements)
  }

  const START := State(0, [], map[])

  /** Three attempts, of which the second forgets. */
  lemma SecondForgets(w1: World, w2: World, w3: World, u: Setup, t1: State, t2: State)
    requires Plain(u) && RunMeaning(|u.elements|, w1, u, START) == (Some(3), t1)
    requires RunMeaning(|u.elements|, w2, u, t1) == (Some(2), t2) && Forgets(u, t2)
    requires RunMeaning(|u.elements|, w3, u, t2).0 == Some(0)
    ensures Finished([w1, w2, w3], u, START) && !Exact([w1, w2, w3], u, START)
  {
    hide RunMeaning, Forgets, Plain;
    var ws := [w1, w2, w3];
    assert ws[1..] == [w2, w3] && [w2, w3][1..] == [w3];
    assert TriedAgain([w3], u, t2) && Attempts([w3], u, t2).0 == Some(0);
    assert TriedAgain([w2, w3], u, t1) && Attempts([w2, w3], u, t1).0 == Some(0) && Forgot([w2, w3], u, t1);
    var n := ResumeIsExactIffNothingForgotten(ws, u, START);
  }

  lemma NothingDoneYet(u: Setup)
    ensures Loaded(u, START) == None && u.elements[..0] == [] && Wanted([]) == [] && Successes(Wanted(u.elements), []) == []
  {
    hide CheckpointPath;
  }

  /** Stopped after its first step, rate-limited in a loop, then undisturbed: the first step succeeds again. */
  lemma BusyLoopForgets(u: Setup) returns (ws: seq<World>)
    requires Plain(u) && Wanted(u.elements) != [] && HasBusyLoop(u.elements)
    ensures Finished(ws, u, START) && !Exact(ws, u, START)
  {
    hide RunFrom, Wanted, Successes, StepNames, Own, CheckpointPath, LoopCost, Marks, StopsAt, OnlySucceed, OthersKept;
    hide Distinct, Done, Loaded, Finished, Exact;
    var es, wanted := u.elements, Wanted(u.elements);
    NothingDoneYet(u);
    WantedAreNames(es);
    NothingMarked(wanted);
    var n := StopAfter(|es|, u, None, 0, 1, START);
    var t1 := RunMeaning(|es|, StopsAt(n), u, START).1;
    OwnIsDone(u, t1, wanted[..1]);
    DistinctMarks(wanted, 1);
    var b: nat :| b < |es| && es[b].LoopElement? && LoopCost(es[b].loop) > 0;
    LimitedRun(|es|, u, Loaded(u, t1), 0, b, [], t1);
    var t2 := RunMeaning(|es|, OnlySucceed(wanted), u, t1).1;
    OwnIsDone(u, t2, []);
    var k := Attempt(OnlySucceed(wanted), u, 1, t1);
    RunGoesWell(|es|, u, Loaded(u, t2), 0, [], t2, "");
    SecondForgets(StopsAt(n), OnlySucceed(wanted), UNDISTURBED, u, t1, t2);
    ws := [StopsAt(n), OnlySucceed(wanted), UNDISTURBED];
  }

  lemma NothingMarked(wanted: seq<string>)
    ensures Marks([], wanted, 0)
  {
  }

  lemma {:induction false} NothingSucceeds(trace: seq<Exec>)
    ensures Successes([], trace) == []
  {
    if trace != [] {
      NothingSucceeds(trace[1..]);
    }
  }

  /**
   Whatever the attempts meet, every wanted top-level step succeeds once and in
   order, if and only if there is none or no top-level loop can execute a step.
   */
  lemma AlwaysExactIffNoBusyLoop(u: Setup)
    requires Plain(u)
    ensures (forall ws, s :: Finished(ws, u, s) ==> Exact(ws, u, s)) <==>
            (Wanted(u.elements) == [] || !HasBusyLoop(u.elements))
  {
    hide Plain, Wanted, HasBusyLoop, TriedAgain, Attempts, Loaded, Successes;
    if Wanted(u.elements) == [] || !HasBusyLoop(u.elements) {
      forall ws, s | Finished(ws, u, s)
        ensures Exact(ws, u, s)
      {
        if Wanted(u.elements) == [] {
          NothingSucceeds(Attempts(ws, u, s).1.trace);
        } else {
          var k := ResumeIsExact(ws, u, s);
        }
      }
    } else {
      var ws := BusyLoopForgets(u);
    }
  }
}
