/**
 Resuming a pipeline over any number of attempts: what the checkpoints of
 orchestrator/engine/checkpoint.go and the skipping in Run guarantee together.
 */
module Resume {
  import opened Common
  import opened Pipelines
  import opened Checkpoints
  import opened Executors

  /** The top-level steps that are not skipped, in order. */
  function Wanted(es: seq<Element>): seq<string> {
    if es == [] then []
    else (if es[0].StepElement? && es[0].step.skip != "true" then [es[0].step.name] else []) + Wanted(es[1..])
  }

  /** Distinct step names and no top-level conditions; loops may stand anywhere. */
  ghost predicate Gateless(es: seq<Element>) {
    && Distinct(StepNames(es))
    && forall i :: 0 <= i < |es| && es[i].StepElement? ==> es[i].step.condition.None?
  }

  /** A named pipeline, resumed, without a matching sub-pipeline checkpoint. */
  ghost predicate Plain(u: Setup) {
    Gateless(u.elements) && u.pipelineName != "" && !u.restart && u.subResume == ""
  }

  /** Some top-level loop can execute a step. */
  predicate HasBusyLoop(es: seq<Element>) {
    exists i :: 0 <= i < |es| && es[i].LoopElement? && LoopCost(es[i].loop) > 0
  }

  /** The executions among `names` that succeeded, in order. */
  function Successes(names: seq<string>, trace: seq<Exec>): seq<string> {
    if trace == [] then []
    else (if Succeeded(trace[0].result) && trace[0].step in names then [trace[0].step] else []) + Successes(names, trace[1..])
  }

  /** The steps the next attempt will skip as completed. */
  function Done(u: Setup, s: State): seq<string> {
    ListOf(Loaded(u, s))
  }

  function ListOf(cp: Option<Checkpoint>): seq<string> {
    if cp.None? then [] else cp.value.completedSteps
  }

  /** Of the wanted steps the list holds exactly the first `k`. */
  predicate Marks(list: seq<string>, wanted: seq<string>, k: nat)
    requires k <= |wanted|
  {
    forall i :: 0 <= i < |wanted| ==> (wanted[i] in list <==> i < k)
  }

  /** The pipeline's own checkpoint, with the given completed steps. */
  predicate Own(u: Setup, disk: map<string, Checkpoint>, completed: seq<string>) {
    var path := CheckpointPath(u.pipelineName);
    && path in disk
    && disk[path].pipeline == u.pipelineName && disk[path].variables == u.vars && disk[path].completedSteps == completed
  }

  // ---------------------------------------------------------------------
  // Wanted steps and successes
  // ---------------------------------------------------------------------

  lemma {:induction false} SuccessesAppend(names: seq<string>, a: seq<Exec>, x: Exec)
    ensures Successes(names, a + [x]) == Successes(names, a) + if Succeeded(x.result) && x.step in names then [x.step] else []
  {
    if a == [] {
      assert [x][1..] == [];
    } else {
      assert (a + [x])[0] == a[0] && (a + [x])[1..] == a[1..] + [x];
      SuccessesAppend(names, a[1..], x);
    }
  }

  lemma {:induction false} WantedConcat(a: seq<Element>, b: seq<Element>)
    ensures Wanted(a + b) == Wanted(a) + Wanted(b)
  {
    if a == [] {
      assert a + b == b;
    } else {
      assert (a + b)[0] == a[0] && (a + b)[1..] == a[1..] + b;
      WantedConcat(a[1..], b);
    }
  }

  /** An element that is a loop or skipped wants nothing; any other is the next wanted step. */
  lemma WantedAt(es: seq<Element>, i: nat)
    requires i < |es|
    ensures var p, e := |Wanted(es[..i])|, es[i];
            && p <= |Wanted(es)| && Wanted(es[..i]) == Wanted(es)[..p]
            && (if e.StepElement? && e.step.skip != "true" then
                  && p < |Wanted(es)| && Wanted(es)[p] == e.step.name
                  && Wanted(es[..i + 1]) == Wanted(es[..i]) + [e.step.name]
                else Wanted(es[..i + 1]) == Wanted(es[..i]))
  {
    assert es == es[..i] + es[i..] && es[i..][0] == es[i];
    WantedConcat(es[..i], es[i..]);
    assert es[..i + 1] == es[..i] + [es[i]];
    WantedConcat(es[..i], [es[i]]);
    assert [es[i]][1..] == [];
  }

  lemma DistinctParts<T>(a: seq<T>, b: seq<T>)
    requires Distinct(a + b)
    ensures Distinct(a) && Distinct(b) && forall x :: x in a ==> x !in b
  {
    var all := a + b;
    assert forall i :: 0 <= i < |a| ==> all[i] == a[i];
    forall i | 0 <= i < |b|
      ensures all[|a| + i] == b[i]
    {
    }
    forall i, j | 0 <= i < j < |b|
      ensures b[i] != b[j]
    {
      assert all[|a| + i] != all[|a| + j];
    }
  }

  lemma DistinctCons<T>(x: T, a: seq<T>)
    requires Distinct(a) && x !in a
    ensures Distinct([x] + a)
  {
  }

  lemma {:induction false} WantedAreNames(es: seq<Element>)
    ensures forall x :: x in Wanted(es) ==> x in StepNames(es)
    ensures Distinct(StepNames(es)) ==> Distinct(Wanted(es))
  {
    if es != [] {
      WantedAreNames(es[1..]);
      NamesStep(es);
      NamesOfOne(es[0]);
      hide StepNames;
      if Distinct(StepNames(es)) {
        DistinctParts(StepNames([es[0]]), StepNames(es[1..]));
        if es[0].StepElement? {
          var x := es[0].step.name;
          assert StepNames([es[0]])[0] == x;
          assert x !in Wanted(es[1..]);
          DistinctCons(x, Wanted(es[1..]));
        }
      }
    }
  }

  /** The steps of a loop are not wanted top-level steps. */
  lemma LoopStepsNotWanted(es: seq<Element>, i: nat)
    requires Distinct(StepNames(es)) && i < |es| && es[i].LoopElement?
    ensures forall x :: x in StepNames(es[i].loop.elements) ==> x !in Wanted(es)
  {
    hide StepNames, Wanted;
    var a, b := es[..i], es[i + 1..];
    assert es == a + ([es[i]] + b);
    NamesConcat(a, [es[i]] + b);
    NamesConcat([es[i]], b);
    NamesOfOne(es[i]);
    WantedConcat(a, [es[i]] + b);
    WantedConcat([es[i]], b);
    WantsNothing(es[i]);
    WantedAreNames(a);
    WantedAreNames(b);
    assert StepNames(es) == StepNames(a) + StepNames([es[i]]) + StepNames(b);
    DistinctParts(StepNames(a) + StepNames([es[i]]), StepNames(b));
    DistinctParts(StepNames(a), StepNames([es[i]]));
  }

  lemma WantsNothing(e: Element)
    requires e.LoopElement?
    ensures Wanted([e]) == []
  {
  }

  // ---------------------------------------------------------------------
  // What a loop does to the checkpoint
  // ---------------------------------------------------------------------

  /**
   From `s` to `t` no step of `names` has succeeded, and the checkpoint is as it
   was, or lists nothing because of a rate limit.
   */
  ghost predicate Inside(u: Setup, names: seq<string>, s: State, t: State, limited: bool) {
    && Successes(names, t.trace) == Successes(names, s.trace)
    && (if limited then Own(u, t.disk, []) && OthersKept(u, s, t) else t.disk == s.disk)
  }

  /** Files of other pipelines are left alone. */
  predicate OthersKept(u: Setup, s: State, t: State) {
    s.disk - {CheckpointPath(u.pipelineName)} == t.disk - {CheckpointPath(u.pipelineName)}
  }

  predicate Limited(f: Flow) {
    f == Leave(LoopExit(2, false))
  }

  predicate GoodExit(x: LoopExit) {
    x.err ==> x.code != 0
  }

  lemma LoopStepInside(w: World, u: Setup, step: Step, s: State, names: seq<string>)
    requires step.name !in names
    ensures var (f, t) := LoopStep(w, u, step, s);
            Inside(u, names, s, t, Limited(f)) && (f.Leave? ==> GoodExit(f.exit) && (f.exit.err || f.exit.code != 0))
  {
    SuccessesAppend(names, s.trace, Exec(step.name, w.run(s.tick, step)));
    hide Successes, CheckpointPath;
    assert Successes(names, s.trace) + [] == Successes(names, s.trace);
  }

  lemma InsideTwice(u: Setup, names: seq<string>, s: State, t: State, v: State, limited: bool)
    requires Inside(u, names, s, t, false) && Inside(u, names, t, v, limited)
    ensures Inside(u, names, s, v, limited)
  {
  }

  lemma {:induction false} BodyInside(w: World, u: Setup, es: seq<Element>, last: string, s: State, names: seq<string>)
    requires forall x :: x in StepNames(es) ==> x !in names
    ensures var (f, t) := BodyMeaning(w, u, es, last, s);
            Inside(u, names, s, t, Limited(f)) && (f.Leave? ==> GoodExit(f.exit) && (f.exit.err || f.exit.code != 0))
    decreases 2 * Total(es) + 1, 0
  {
    hide Inside, LoopStep, StepNames, GoodExit;
    if es == [] {
      InsideNothing(u, names, s);
    } else {
      NestedSmaller(es, 0);
      TailSmaller(es);
      NamesStep(es);
      NamesOfOne(es[0]);
      match es[0] {
        case LoopElement(l) =>
          LoopInside(w, u, l, l.maxIterations, s, names);
          var (x, s1) := LoopMeaning(w, u, l, l.maxIterations, s);
          if !(x.err || x.code != 0) {
            BodyInside(w, u, es[1..], last, s1, names);
            InsideTwice(u, names, s, s1, BodyMeaning(w, u, es[1..], last, s1).1, Limited(BodyMeaning(w, u, es[1..], last, s1).0));
          }
        case StepElement(step) =>
          if step.skip == "true" {
            BodyInside(w, u, es[1..], last, s, names);
          } else {
            LoopStepInside(w, u, step, s, names);
            var (f, s1) := LoopStep(w, u, step, s);
            if f.Next? {
              BodyInside(w, u, es[1..], f.lastOutput, s1, names);
              InsideTwice(u, names, s, s1, BodyMeaning(w, u, es[1..], f.lastOutput, s1).1,
                          Limited(BodyMeaning(w, u, es[1..], f.lastOutput, s1).0));
            }
          }
      }
    }
  }

  lemma InsideNothing(u: Setup, names: seq<string>, s: State)
    ensures Inside(u, names, s, s, false) && Inside(u, names, s, Ticked(s), false)
  {
  }

  /** A loop leaves the checkpoint alone unless a rate limit ends it. */
  lemma {:induction false} LoopInside(w: World, u: Setup, l: Loop, left: int, s: State, names: seq<string>)
    requires forall x :: x in StepNames(l.elements) ==> x !in names
    ensures var (x, t) := LoopMeaning(w, u, l, left, s);
            Inside(u, names, s, t, Limited(Leave(x))) && GoodExit(x)
    decreases 2 * (1 + Total(l.elements)), if left < 0 then 0 else left
  {
    hide Inside, BodyMeaning, StepNames;
    if left <= 0 {
      InsideNothing(u, names, s);
    } else {
      BodyInside(w, u, l.elements, "", s, names);
      var (f, s1) := BodyMeaning(w, u, l.elements, "", s);
      InsideNothing(u, names, s1);
      if f.Next? {
        var s2 := if Modes(l.condition) == 0 then s1 else Ticked(s1);
        InsideTwice(u, names, s, s1, s2, false);
        if Modes(l.condition) == 0 || w.decide(s1.tick, l.condition, f.lastOutput) == Some(true) {
          LoopInside(w, u, l, left - 1, s2, names);
          InsideTwice(u, names, s, s2, LoopMeaning(w, u, l, left - 1, s2).1, Limited(Leave(LoopMeaning(w, u, l, left - 1, s2).0)));
        }
      }
    }
  }

  // ---------------------------------------------------------------------
  // One attempt
  // ---------------------------------------------------------------------

  function Later(a: nat, b: nat): nat {
    if a < b then b else a
  }

  /**
   How an attempt that found `k` wanted steps done goes on from `s`, where `p`
   are: it does those up to `k'`, in order. It leaves no checkpoint after exit
   0. Otherwise it leaves the one it found, having done nothing; or one that
   lists what is done; or, after a rate limit in a loop, one that lists nothing.
   */
  ghost predicate Advances(u: Setup, found: map<string, Checkpoint>, k: nat, s: State, p: nat, code: Option<int>,
                           t: State, k': nat) {
    var wanted := Wanted(u.elements);
    && p <= k' <= |wanted|
    && Successes(wanted, t.trace) == Successes(wanted, s.trace) + wanted[p..k']
    && code.Some? && OthersKept(u, s, t)
    && if code == Some(0) then k' == |wanted| && CheckpointPath(u.pipelineName) !in t.disk
       else
         || (t.disk == found && k' == k && (code == Some(3) ==> HasBusyLoop(u.elements)))
         || Own(u, t.disk, wanted[..k'])
         || (Own(u, t.disk, []) && code == Some(2) && HasBusyLoop(u.elements))
  }

  /** The checkpoint while the attempt is under way: as found, or listing the `p` steps done. */
  ghost predicate Underway(u: Setup, found: map<string, Checkpoint>, k: nat, s: State, p: nat)
    requires p <= |Wanted(u.elements)|
  {
    (s.disk == found && p <= k) || (k <= p && Own(u, s.disk, Wanted(u.elements)[..p]))
  }

  lemma AdvancesMore(u: Setup, found: map<string, Checkpoint>, k: nat, s: State, t: State, v: State, p: nat,
                     code: Option<int>, k': nat)
    requires p < |Wanted(u.elements)| && OthersKept(u, s, t)
    requires Successes(Wanted(u.elements), t.trace) == Successes(Wanted(u.elements), s.trace) + [Wanted(u.elements)[p]]
    requires Advances(u, found, k, t, p + 1, code, v, k')
    ensures Advances(u, found, k, s, p, code, v, k')
  {
    hide Wanted, Successes, CheckpointPath, Own, HasBusyLoop;
    var wanted := Wanted(u.elements);
    assert wanted[p..k'] == [wanted[p]] + wanted[p + 1..k'];
    var before := Successes(wanted, s.trace);
    assert before + ([wanted[p]] + wanted[p + 1..k']) == (before + [wanted[p]]) + wanted[p + 1..k'];
  }

  /** Executing a step without a condition, after the steps `done`. */
  lemma StepAdvances(w: World, u: Setup, i: nat, done: seq<string>, step: Step, s: State, names: seq<string>)
    requires u.pipelineName != "" && step.condition.None? && step.name in names
    ensures var (m, t) := StepMove(w, u, i, done, step, s);
            && OthersKept(u, s, t)
            && (m.Goto? ==> m == Goto(i + 1, done + [step.name], "") && Own(u, t.disk, done + [step.name])
                            && Successes(names, t.trace) == Successes(names, s.trace) + [step.name])
            && (m.End? ==>
                  && m.code != 0
                  && ((m.code != 3 && t.disk == s.disk && Successes(names, t.trace) == Successes(names, s.trace))
                      || (Own(u, t.disk, done) && Successes(names, t.trace) == Successes(names, s.trace))
                      || (Own(u, t.disk, done + [step.name]) && Successes(names, t.trace) == Successes(names, s.trace) + [step.name])))
  {
    hide Successes, CheckpointPath, NextIndex;
    SuccessesAppend(names, s.trace, Exec(step.name, w.run(s.tick, step)));
    assert Successes(names, s.trace) + [] == Successes(names, s.trace);
  }

  // How RunFrom takes one step.

  lemma PassesOver(fuel: nat, w: World, u: Setup, cp: Option<Checkpoint>, i: nat, completed: seq<string>, s: State)
    requires i < |u.elements| && fuel > 0 && u.elements[i].StepElement?
    ensures u.elements[i].step.skip == "true" ==>
              RunFrom(fuel, w, u, cp, i, completed, "", s) == RunFrom(fuel - 1, w, u, cp, i + 1, completed, "", s)
    ensures u.elements[i].step.skip != "true" && u.elements[i].step.name in ListOf(cp) ==>
              RunFrom(fuel, w, u, cp, i, completed, "", s) ==
              RunFrom(fuel - 1, w, u, cp, i + 1, completed + [u.elements[i].step.name], "", s)
  {
  }

  lemma Executes(fuel: nat, w: World, u: Setup, cp: Option<Checkpoint>, i: nat, completed: seq<string>, s: State)
    requires i < |u.elements| && fuel > 0 && u.elements[i].StepElement?
    requires u.elements[i].step.skip != "true" && u.elements[i].step.name !in ListOf(cp)
    ensures var (m, t) := StepMove(w, u, i, completed, u.elements[i].step, s);
            RunFrom(fuel, w, u, cp, i, completed, "", s) ==
            if m.End? then (Some(m.code), t) else RunFrom(fuel - 1, w, u, cp, m.index, m.completed, m.skipUntil, t)
  {
    hide StepMove;
  }

  lemma RunsLoop(fuel: nat, w: World, u: Setup, cp: Option<Checkpoint>, i: nat, completed: seq<string>, s: State)
    requires i < |u.elements| && fuel > 0 && u.elements[i].LoopElement?
    ensures var l := u.elements[i].loop;
            var (x, t) := LoopMeaning(w, u, l, l.maxIterations, s);
            RunFrom(fuel, w, u, cp, i, completed, "", s) ==
            if x.err || x.code != 0 then (Some(x.code), t) else RunFrom(fuel - 1, w, u, cp, i + 1, completed, "", t)
  {
    hide LoopMeaning;
  }

  /** The attempt from element `i` on, with the wanted steps before it behind. */
  lemma {:induction false} AttemptFrom(fuel: nat, w: World, u: Setup, cp: Option<Checkpoint>, i: nat,
                                       found: map<string, Checkpoint>, k: nat, s: State) returns (k': nat)
    requires Plain(u) && i <= |u.elements| && fuel >= |u.elements| - i && k <= |Wanted(u.elements)|
    requires Marks(ListOf(cp), Wanted(u.elements), k)
    requires var p := |Wanted(u.elements[..i])|; p <= |Wanted(u.elements)| && Underway(u, found, k, s, p)
    ensures var p := |Wanted(u.elements[..i])|;
            var (code, t) := RunFrom(fuel, w, u, cp, i, Wanted(u.elements[..i]), "", s);
            Advances(u, found, k, s, Later(p, k), code, t, k')
    decreases fuel
  {
    hide Successes, Wanted, CheckpointPath, RunFrom, StepMove, Advances, OthersKept, Own, StepNames, Underway;
    var es, wanted := u.elements, Wanted(u.elements);
    var done := Wanted(es[..i]);
    var p := |done|;
    if i == |es| {
      assert es[..i] == es;
      AllDone(fuel, w, u, cp, done, found, k, s);
      k' := |wanted|;
    } else {
      WantedAt(es, i);
      WantedAreNames(es);
      if es[i].LoopElement? {
        k' := LoopAt(fuel, w, u, cp, i, found, k, s);
      } else {
        PassesOver(fuel, w, u, cp, i, done, s);
        if es[i].step.skip == "true" {
          k' := AttemptFrom(fuel - 1, w, u, cp, i + 1, found, k, s);
        } else if p < k {
          assert es[i].step.name in ListOf(cp);
          StillUnderway(u, found, k, s, p);
          k' := AttemptFrom(fuel - 1, w, u, cp, i + 1, found, k, s);
        } else {
          assert es[i].step.name !in ListOf(cp);
          k' := StepAt(fuel, w, u, cp, i, found, k, s);
        }
      }
    }
  }

  lemma StillUnderway(u: Setup, found: map<string, Checkpoint>, k: nat, s: State, p: nat)
    requires p < k <= |Wanted(u.elements)| && Underway(u, found, k, s, p)
    ensures Underway(u, found, k, s, p + 1)
  {
  }

  lemma AllDone(fuel: nat, w: World, u: Setup, cp: Option<Checkpoint>, completed: seq<string>,
                found: map<string, Checkpoint>, k: nat, s: State)
    requires k <= |Wanted(u.elements)|
    ensures var (code, t) := RunFrom(fuel, w, u, cp, |u.elements|, completed, "", s);
            Advances(u, found, k, s, |Wanted(u.elements)|, code, t, |Wanted(u.elements)|)
  {
  }

  /** The case of AttemptFrom in which a step is executed. */
  lemma {:induction false} StepAt(fuel: nat, w: World, u: Setup, cp: Option<Checkpoint>, i: nat,
                                  found: map<string, Checkpoint>, k: nat, s: State) returns (k': nat)
    requires Plain(u) && i < |u.elements| && fuel >= |u.elements| - i && k <= |Wanted(u.elements)|
    requires u.elements[i].StepElement? && u.elements[i].step.skip != "true"
    requires Marks(ListOf(cp), Wanted(u.elements), k) && u.elements[i].step.name !in ListOf(cp)
    requires var p := |Wanted(u.elements[..i])|; k <= p <= |Wanted(u.elements)| && Underway(u, found, k, s, p)
    ensures var (code, t) := RunFrom(fuel, w, u, cp, i, Wanted(u.elements[..i]), "", s);
            Advances(u, found, k, s, |Wanted(u.elements[..i])|, code, t, k')
    decreases fuel, 0
  {
    hide Successes, Wanted, CheckpointPath, RunFrom, StepMove, OthersKept, Own, StepNames, Marks;
    var es, wanted := u.elements, Wanted(u.elements);
    var done, step := Wanted(es[..i]), es[i].step;
    var p := |done|;
    WantedAt(es, i);
    Executes(fuel, w, u, cp, i, done, s);
    StepAdvances(w, u, i, done, step, s, wanted);
    var (m, t) := StepMove(w, u, i, done, step, s);
    assert wanted[..p] + [wanted[p]] == wanted[..p + 1];
    if m.Goto? {
      k' := AttemptFrom(fuel - 1, w, u, cp, i + 1, found, k, t);
      var (code, v) := RunFrom(fuel - 1, w, u, cp, i + 1, Wanted(es[..i + 1]), "", t);
      AdvancesMore(u, found, k, s, t, v, p, code, k');
    } else {
      var before := Successes(wanted, s.trace);
      assert wanted[p..p] == [] && wanted[p..p + 1] == [wanted[p]] && before + [] == before;
      k' := if Own(u, t.disk, done + [step.name]) && Successes(wanted, t.trace) == before + [step.name] then p + 1 else p;
    }
  }

  /** The case of AttemptFrom in which a loop is executed. */
  lemma {:induction false} LoopAt(fuel: nat, w: World, u: Setup, cp: Option<Checkpoint>, i: nat,
                                  found: map<string, Checkpoint>, k: nat, s: State) returns (k': nat)
    requires Plain(u) && i < |u.elements| && fuel >= |u.elements| - i && k <= |Wanted(u.elements)|
    requires u.elements[i].LoopElement? && Marks(ListOf(cp), Wanted(u.elements), k)
    requires var p := |Wanted(u.elements[..i])|; p <= |Wanted(u.elements)| && Underway(u, found, k, s, p)
    ensures var p := |Wanted(u.elements[..i])|;
            var (code, t) := RunFrom(fuel, w, u, cp, i, Wanted(u.elements[..i]), "", s);
            Advances(u, found, k, s, Later(p, k), code, t, k')
    decreases fuel, 0
  {
    hide Successes, Wanted, CheckpointPath, RunFrom, OthersKept, Own, StepNames, Marks, LoopMeaning;
    var es, wanted := u.elements, Wanted(u.elements);
    var done, l := Wanted(es[..i]), es[i].loop;
    var p := |done|;
    WantedAt(es, i);
    RunsLoop(fuel, w, u, cp, i, done, s);
    LoopStepsNotWanted(es, i);
    LoopInside(w, u, l, l.maxIterations, s, wanted);
    var (x, t) := LoopMeaning(w, u, l, l.maxIterations, s);
    SameDisk(u, s, t);
    if LoopCost(l) == 0 {
      FreeLoop(l);
      IdleLoop(w, u, l, l.maxIterations, s);
    }
    if x.err || x.code != 0 {
      k' := Later(p, k);
      var before := Successes(wanted, s.trace);
      assert wanted[k'..k'] == [] && before + [] == before;
      assert LoopCost(l) > 0 ==> HasBusyLoop(es);
    } else {
      k' := AttemptFrom(fuel - 1, w, u, cp, i + 1, found, k, t);
      OthersKeptTwice(u, s, t, RunFrom(fuel - 1, w, u, cp, i + 1, done, "", t).1);
    }
  }

  lemma SameDisk(u: Setup, s: State, t: State)
    ensures s.disk == t.disk ==> OthersKept(u, s, t)
  {
  }

  lemma OthersKeptTwice(u: Setup, s: State, t: State, v: State)
    ensures OthersKept(u, s, t) && OthersKept(u, t, v) ==> OthersKept(u, s, v)
  {
  }

  /** One attempt: it skips exactly the steps that succeeded before, and goes on in order. */
  lemma Attempt(w: World, u: Setup, k: nat, s: State) returns (k': nat)
    requires Plain(u) && k <= |Wanted(u.elements)| && Marks(Done(u, s), Wanted(u.elements), k)
    ensures var (code, t) := RunMeaning(|u.elements|, w, u, s);
            Advances(u, s.disk, k, s, k, code, t, k')
  {
    hide Advances, RunFrom;
    assert u.elements[..0] == [] && Wanted([]) == [];
    k' := AttemptFrom(|u.elements|, w, u, Loaded(u, s), 0, s.disk, k, s);
  }

  // ---------------------------------------------------------------------
  // Any number of attempts
  // ---------------------------------------------------------------------

  /** Every attempt but the last ends with a code other than 0. */
  predicate TriedAgain(ws: seq<World>, u: Setup, s: State)
    decreases |ws|
  {
    |ws| <= 1 ||
    (RunMeaning(|u.elements|, ws[0], u, s).0 != Some(0) &&
     TriedAgain(ws[1..], u, RunMeaning(|u.elements|, ws[0], u, s).1))
  }

  /** The code of the last attempt and the state after it. */
  function Attempts(ws: seq<World>, u: Setup, s: State): (Option<int>, State)
    requires ws != []
    decreases |ws|
  {
    var (code, t) := RunMeaning(|u.elements|, ws[0], u, s);
    if |ws| == 1 then (code, t) else Attempts(ws[1..], u, t)
  }

  /** An attempt has left no steps to skip, although a wanted step has succeeded. */
  predicate Forgets(u: Setup, t: State) {
    Done(u, t) == [] && Successes(Wanted(u.elements), t.trace) != []
  }

  /** Some attempt but the last has done so. */
  predicate Forgot(ws: seq<World>, u: Setup, s: State)
    decreases |ws|
  {
    |ws| > 1 &&
    var t := RunMeaning(|u.elements|, ws[0], u, s).1;
    Forgets(u, t) || Forgot(ws[1..], u, t)
  }

  /** Between attempts: `k` wanted steps will be skipped. They are all that succeeded, unless some were forgotten. */
  ghost predicate Stands(u: Setup, s: State, k: nat, forgot: bool) {
    var wanted := Wanted(u.elements);
    && k <= |wanted| && Marks(Done(u, s), wanted, k)
    && (k == 0 && !forgot ==> Done(u, s) == [])
    && if forgot then |Successes(wanted, s.trace)| > k else Successes(wanted, s.trace) == wanted[..k]
  }

  lemma OwnIsDone(u: Setup, t: State, list: seq<string>)
    ensures Own(u, t.disk, list) ==> Done(u, t) == list
  {
    hide CheckpointPath;
  }

  lemma DistinctMarks(wanted: seq<string>, k: nat)
    requires Distinct(wanted) && k <= |wanted|
    ensures Marks(wanted[..k], wanted, k)
  {
    forall i | 0 <= i < |wanted|
      ensures wanted[i] in wanted[..k] <==> i < k
    {
      if i < k {
        assert wanted[..k][i] == wanted[i];
      }
    }
  }

  /** One attempt that did not end with 0; only a rate limit in a pipeline with a loop makes it forget. */
  lemma AttemptStands(w: World, u: Setup, s: State, k: nat, forgot: bool) returns (k': nat)
    requires Plain(u) && Stands(u, s, k, forgot)
    ensures var (code, t) := RunMeaning(|u.elements|, w, u, s);
            if code == Some(0) then
              var n := |Wanted(u.elements)|;
              if forgot then |Successes(Wanted(u.elements), t.trace)| > n
              else Successes(Wanted(u.elements), t.trace) == Wanted(u.elements)
            else
              && Stands(u, t, k', forgot || Forgets(u, t))
              && (!forgot && Forgets(u, t) ==> code == Some(2) && HasBusyLoop(u.elements))
  {
    hide RunMeaning, Successes, Wanted, Done, CheckpointPath, OthersKept, HasBusyLoop, StepNames;
    var wanted := Wanted(u.elements);
    var (code, t) := RunMeaning(|u.elements|, w, u, s);
    k' := Attempt(w, u, k, s);
    assert wanted[..k] + wanted[k..k'] == wanted[..k'] && wanted[..|wanted|] == wanted;
    if code != Some(0) {
      WantedAreNames(u.elements);
      DistinctMarks(wanted, k');
      OwnIsDone(u, t, wanted[..k']);
      OwnIsDone(u, t, []);
      SameDone(u, s, t);
      assert k > 0 ==> wanted[0] in Done(u, s);
      if Done(u, t) == [] && k' > 0 {
        k' := 0;
      } else {
        assert Marks(Done(u, t), wanted, k');
        assert k' > 0 ==> wanted[0] in Done(u, t);
      }
    }
  }

  lemma SameDone(u: Setup, s: State, t: State)
    ensures s.disk == t.disk ==> Done(u, s) == Done(u, t)
  {
  }

  lemma {:induction false} AttemptsStand(ws: seq<World>, u: Setup, s: State, k: nat, forgot: bool) returns (k': nat)
    requires ws != [] && Plain(u) && Stands(u, s, k, forgot) && TriedAgain(ws, u, s)
    ensures var (code, t) := Attempts(ws, u, s);
            && (code == Some(0) ==>
                  (Successes(Wanted(u.elements), t.trace) == Wanted(u.elements) <==> !forgot && !Forgot(ws, u, s)))
            && (code != Some(0) && !forgot && !HasBusyLoop(u.elements) ==> Stands(u, t, k', false))
    decreases |ws|
  {
    hide Stands, Plain, Forgets, RunMeaning, Successes, Wanted, HasBusyLoop;
    var t := RunMeaning(|u.elements|, ws[0], u, s).1;
    k' := AttemptStands(ws[0], u, s, k, forgot);
    if |ws| > 1 {
      k' := AttemptsStand(ws[1..], u, t, k', forgot || Forgets(u, t));
    }
  }

  /** Only a rate limit in a pipeline with a loop makes an attempt forget. */
  lemma {:induction false} WhoForgot(ws: seq<World>, u: Setup, s: State, k: nat) returns (n: nat)
    requires Plain(u) && Stands(u, s, k, false) && TriedAgain(ws, u, s) && Forgot(ws, u, s)
    ensures HasBusyLoop(u.elements) && 0 < n < |ws| && Attempts(ws[..n], u, s).0 == Some(2)
    decreases |ws|
  {
    hide Stands, Plain, Forgets, RunMeaning, HasBusyLoop;
    var t := RunMeaning(|u.elements|, ws[0], u, s).1;
    var k' := AttemptStands(ws[0], u, s, k, false);
    if Forgets(u, t) {
      n := 1;
    } else {
      var m := WhoForgot(ws[1..], u, t, k');
      n := m + 1;
      assert ws[..n][1..] == ws[1..][..n - 1] && ws[..n][0] == ws[0];
    }
  }

  lemma StandsAtStart(u: Setup, s: State)
    requires Loaded(u, s) == None && s.trace == []
    ensures Stands(u, s, 0, false)
  {
  }

  /**
   Over any number of failed, rate-limited or gracefully stopped attempts at a
   pipeline, the last of which ends with 0, every wanted step has succeeded
   once, in order, if and only if no attempt left a checkpoint that lists
   nothing after a wanted step had succeeded. Only a rate limit in a loop can.
   */
  lemma ResumeIsExactIffNothingForgotten(ws: seq<World>, u: Setup, s: State) returns (n: nat)
    requires ws != [] && Plain(u) && Loaded(u, s) == None && s.trace == []
    requires TriedAgain(ws, u, s) && Attempts(ws, u, s).0 == Some(0)
    ensures Successes(Wanted(u.elements), Attempts(ws, u, s).1.trace) == Wanted(u.elements) <==> !Forgot(ws, u, s)
    ensures Forgot(ws, u, s) ==> HasBusyLoop(u.elements) && 0 < n < |ws| && Attempts(ws[..n], u, s).0 == Some(2)
  {
    hide Stands, Plain, Forgot, TriedAgain, Attempts, Successes, Wanted, HasBusyLoop, Loaded;
    StandsAtStart(u, s);
    var k := AttemptsStand(ws, u, s, 0, false);
    n := 0;
    if Forgot(ws, u, s) {
      n := WhoForgot(ws, u, s, 0);
    }
  }

  /**
   Without loops no attempt forgets: whatever the attempts end with, the steps
   that have succeeded are a prefix of the wanted steps, each once and in
   order; after an attempt that ends with 0 they are all of them.
   */
  lemma ResumeIsExact(ws: seq<World>, u: Setup, s: State) returns (k: nat)
    requires ws != [] && Plain(u) && !HasBusyLoop(u.elements) && Loaded(u, s) == None && s.trace == []
    requires TriedAgain(ws, u, s)
    ensures var (code, t) := Attempts(ws, u, s);
            && k <= |Wanted(u.elements)| && Distinct(Wanted(u.elements))
            && Successes(Wanted(u.elements), t.trace) == Wanted(u.elements)[..k]
            && (code == Some(0) ==> Successes(Wanted(u.elements), t.trace) == Wanted(u.elements))
  {
    hide Forgot, TriedAgain, Attempts, Successes, Wanted, HasBusyLoop, Loaded, StepNames;
    WantedAreNames(u.elements);
    StandsAtStart(u, s);
    k := AttemptsStand(ws, u, s, 0, false);
    if Forgot(ws, u, s) {
      var n := WhoForgot(ws, u, s, 0);
    }
    var wanted := Wanted(u.elements);
    assert wanted[..|wanted|] == wanted;
    if Attempts(ws, u, s).0 == Some(0) {
      k := |wanted|;
    }
  }

  // ---------------------------------------------------------------------
  // A pipeline that forgets
  // ---------------------------------------------------------------------

  function Command(name: string): Element {
    StepElement(Step(name, "", "", "", "", "true", "", "", false, None))
  }

  /** All goes well but for the steps of the given name, which hit the rate limit. */
  function LimitedAt(name: string): World {
    World((n, step: Step) => StepResult("", if step.name == name then 1 else 0, false),
          (n, c, input) => None, n => false, output => true)
  }

  const ONCE := Loop(1, [Command("y")], Condition("", "", "", "", "", "", ""))

  lemma LoopOnce(name: string, u: Setup, s: State)
    ensures var (x, t) := LoopMeaning(LimitedAt(name), u, ONCE, 1, s);
            && Successes(["x"], t.trace) == Successes(["x"], s.trace)
            && (if name == "y" then x == LoopExit(2, false) && Own(u, t.disk, []) else x == LoopExit(0, false))
  {
    hide CheckpointPath, Successes;
    var w := LimitedAt(name);
    var y := ONCE.elements[0].step;
    LoopStepInside(w, u, y, s, ["x"]);
    var (f, t) := LoopStep(w, u, y, s);
    assert ONCE.elements[1..] == [];
    assert BodyMeaning(w, u, ONCE.elements, "", s) == if f.Next? then BodyMeaning(w, u, [], f.lastOutput, t) else (f, t);
  }

  /** The pipeline of the step "x" and then the loop, as attempted with no steps to skip. */
  lemma StepThenLoop(name: string, u: Setup, s: State)
    requires name != "x" && u.elements == [Command("x"), LoopElement(ONCE)] && Plain(u) && Done(u, s) == []
    ensures var (code, t) := RunMeaning(2, LimitedAt(name), u, s);
            && Successes(["x"], t.trace) == Successes(["x"], s.trace) + ["x"]
            && (if name == "y" then code == Some(2) && Done(u, t) == [] else code == Some(0))
  {
    hide CheckpointPath, Successes, LoopMeaning, RunFrom, StepNames, Distinct;
    var w := LimitedAt(name);
    var cp, step := Loaded(u, s), u.elements[0].step;
    Executes(2, w, u, cp, 0, [], s);
    StepAdvances(w, u, 0, [], step, s, ["x"]);
    var (m, t) := StepMove(w, u, 0, [], step, s);
    assert m == Goto(1, ["x"], "");
    RunsLoop(1, w, u, cp, 1, ["x"], t);
    LoopOnce(name, u, t);
    var (x, v) := LoopMeaning(w, u, ONCE, 1, t);
    RunEnds(0, w, u, cp, ["x"], v);
    OwnIsDone(u, v, []);
  }

  lemma RunEnds(fuel: nat, w: World, u: Setup, cp: Option<Checkpoint>, completed: seq<string>, s: State)
    ensures RunFrom(fuel, w, u, cp, |u.elements|, completed, "", s) == (Some(0), Cleared(u, s)) && OthersKept(u, s, Cleared(u, s))
  {
  }

  /** A rate limit in a loop after a step that succeeded: the next attempt executes the step again. */
  lemma RateLimitInLoopForgets(pipelineName: string) returns (ws: seq<World>, u: Setup)
    requires pipelineName != ""
    ensures u.pipelineName == pipelineName && Plain(u) && |ws| == 2 && Wanted(u.elements) == ["x"]
    ensures var s := State(0, [], map[]);
            && TriedAgain(ws, u, s) && Attempts(ws, u, s).0 == Some(0)
            && Successes(["x"], Attempts(ws, u, s).1.trace) == ["x", "x"]
  {
    hide CheckpointPath, RunMeaning, Successes, Wanted, StepNames;
    u := Setup([Command("x"), LoopElement(ONCE)], pipelineName, map[], false, "");
    ws := [LimitedAt("y"), LimitedAt("")];
    OneWanted(u);
    var s := State(0, [], map[]);
    NothingYet(u, s);
    StepThenLoop("y", u, s);
    var t := RunMeaning(2, ws[0], u, s).1;
    StepThenLoop("", u, t);
    assert ws[1..] == [ws[1]];
    assert [] + ["x"] == ["x"] && ["x"] + ["x"] == ["x", "x"];
  }

  lemma NothingYet(u: Setup, s: State)
    requires s == State(0, [], map[])
    ensures Done(u, s) == [] && Successes(["x"], s.trace) == []
  {
  }

  lemma OneWanted(u: Setup)
    requires u.elements == [Command("x"), LoopElement(ONCE)]
    ensures Wanted(u.elements) == ["x"] && StepNames(u.elements) == ["x", "y"]
  {
    assert u.elements[1..] == [LoopElement(ONCE)] && [LoopElement(ONCE)][1..] == [];
    WantsNothing(LoopElement(ONCE));
    assert ["x"] + [] == ["x"];
    hide StepNames;
    NamesStep(u.elements);
    NamesOfOne(u.elements[0]);
    NamesOfOne(LoopElement(ONCE));
    NamesOfOne(Command("y"));
    assert StepNames(ONCE.elements) == ["y"] && ["x"] + ["y"] == ["x", "y"];
  }
}
