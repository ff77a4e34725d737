/**
 The way a run takes through the top-level elements of a valid pipeline: Run and
 evaluateStepCondition in orchestrator/engine/executor.go.
 */
module PipelineRuns {
  import opened Common
  import opened Pipelines
  import opened Checkpoints
  import opened Executors
  import opened Resume

  // ---------------------------------------------------------------------
  // Which elements are executed, and where they lead
  // ---------------------------------------------------------------------

  /**
   A run that comes to element `i` executes it: it is a loop, or a step that is
   neither skipped, nor in the list of completed steps, nor before the step sought.
   */
  predicate Active(es: seq<Element>, list: seq<string>, sought: string, i: nat) {
    i < |es| && match es[i]
                case LoopElement(_) => true
                case StepElement(step) => step.skip != "true" && step.name !in list && (sought == "" || step.name == sought)
  }

  ghost predicate NoneActive(es: seq<Element>, list: seq<string>, sought: string, a: nat, b: nat) {
    forall i :: a <= i < b ==> !Active(es, list, sought, i)
  }

  ghost predicate FirstActive(es: seq<Element>, list: seq<string>, sought: string, from: nat, e: nat) {
    from <= e && Active(es, list, sought, e) && NoneActive(es, list, sought, from, e)
  }

  /**
   Step `i`, executed at `tick`, makes the run go on at `dest`: it succeeds and
   nobody asks to stop. A goto whose condition holds leads to the step it names;
   no condition, an open gate and a goto whose condition is false lead to the
   next element.
   */
  ghost predicate Leads(w: World, es: seq<Element>, i: nat, tick: nat, dest: nat)
    requires i < |es| && es[i].StepElement?
  {
    var step := es[i].step;
    var r := w.run(tick, step);
    && Succeeded(r) && !w.stop(tick + 1)
    && match step.condition
       case None => dest == i + 1
       case Some(c) =>
         var answer := w.decide(tick + 2, c, r.output);
         if c.target != "" && answer == Some(true) then
           dest < |es| && es[dest].StepElement? && es[dest].step.name == c.target
         else dest == i + 1 && answer == Some(c.target == "")
  }

  /**
   Step `i`, executed at `tick`, ends the run with `code`: it cannot be run (1), hits
   the rate limit (2), fails, is stopped (3), its condition is undecided (1), or
   its gate is closed (0).
   */
  ghost predicate Halts(w: World, step: Step, tick: nat, code: int) {
    var r := w.run(tick, step);
    if r.failed then code == 1
    else if r.exitCode != 0 then code == if w.rateLimited(r.output) then 2 else r.exitCode
    else if w.stop(tick + 1) then code == 3
    else
      && step.condition.Some?
      && var answer := w.decide(tick + 2, step.condition.value, r.output);
         || (answer == None && code == 1)
         || (answer == Some(false) && step.condition.value.target == "" && code == 0)
  }

  /** What executing a step leaves: its execution, the questions asked, and its checkpoint. */
  function Left(w: World, u: Setup, step: Step, listed: seq<string>, s: State): State {
    var r := w.run(s.tick, step);
    var path := CheckpointPath(u.pipelineName);
    var limited := !r.failed && r.exitCode != 0 && w.rateLimited(r.output);
    State(if !Succeeded(r) then s.tick + 1 else if w.stop(s.tick + 1) || step.condition.None? then s.tick + 2 else s.tick + 3,
          s.trace + [Exec(step.name, r)],
          if r.failed || (u.pipelineName == "" && !limited) then s.disk
          else if r.exitCode != 0 then s.disk[path := Checkpoint(u.pipelineName, u.vars, listed, step.name, limited)]
          else s.disk[path := Checkpoint(u.pipelineName, u.vars, listed + [step.name], "", false)])
  }

  // ---------------------------------------------------------------------
  // From one executed element to the next
  // ---------------------------------------------------------------------

  /** Where a run stands: the next element, the names it has come past, the step sought, and the state. */
  datatype Point = Point(index: nat, completed: seq<string>, sought: string, state: State)

  /** From `a` the run executes element `e` next, and goes on at `b`. */
  ghost predicate Hop(w: World, u: Setup, list: seq<string>, a: Point, e: nat, b: Point) {
    && FirstActive(u.elements, list, a.sought, a.index, e)
    && var listed := a.completed + Wanted(u.elements[a.index..e]);
       match u.elements[e]
       case LoopElement(l) =>
         && LoopMeaning(w, u, l, l.maxIterations, a.state) == (LoopExit(0, false), b.state)
         && b.index == e + 1 && b.completed == listed && b.sought == a.sought
       case StepElement(step) =>
         && Leads(w, u.elements, e, a.state.tick, b.index)
         && b.completed == listed + [step.name] && b.sought == "" && b.state == Left(w, u, step, listed, a.state)
  }

  /** From `a` the run ends with `code` in state `t`: nothing is left to execute, or the next element ends it. */
  ghost predicate EndsFrom(w: World, u: Setup, list: seq<string>, a: Point, code: int, t: State) {
    || (NoneActive(u.elements, list, a.sought, a.index, |u.elements|) && code == 0
        && t == a.state.(disk := a.state.disk - {CheckpointPath(u.pipelineName)}))
    || exists e :: FirstActive(u.elements, list, a.sought, a.index, e) && HaltsAt(w, u, a, e, code, t)
  }

  ghost predicate HaltsAt(w: World, u: Setup, a: Point, e: nat, code: int, t: State)
    requires a.index <= e < |u.elements|
  {
    match u.elements[e]
    case LoopElement(l) =>
      var x := LoopMeaning(w, u, l, l.maxIterations, a.state).0;
      x != LoopExit(0, false) && code == x.code && t == LoopMeaning(w, u, l, l.maxIterations, a.state).1
    case StepElement(step) =>
      && Halts(w, step, a.state.tick, code)
      && t == Left(w, u, step, a.completed + Wanted(u.elements[a.index..e]), a.state)
  }

  /** A step of a valid pipeline either ends the run or leads to exactly one place. */
  lemma LeadsOrHalts(w: World, es: seq<Element>, regex: string -> bool, i: nat, tick: nat) returns (dest: nat, code: int)
    requires Good(es, regex) && i < |es| && es[i].StepElement?
    ensures Leads(w, es, i, tick, dest) <==> !Halts(w, es[i].step, tick, code)
    ensures forall d :: Leads(w, es, i, tick, d) ==> Leads(w, es, i, tick, dest) && d == dest
    ensures forall c :: Halts(w, es[i].step, tick, c) ==> Halts(w, es[i].step, tick, code) && c == code
  {
    hide Good, IndexOf;
    var step := es[i].step;
    var r := w.run(tick, step);
    dest := i + 1;
    code := if r.failed then 1 else if r.exitCode != 0 then if w.rateLimited(r.output) then 2 else r.exitCode
            else if w.stop(tick + 1) then 3
            else if step.condition.Some? && w.decide(tick + 2, step.condition.value, r.output) == Some(false) then 0 else 1;
    if step.condition.Some? && step.condition.value.target != "" {
      GotoLands(es, regex, i);
      if w.decide(tick + 2, step.condition.value, r.output) == Some(true) {
        dest := IndexOf(step.condition.value.target, es);
      }
    }
    if !Succeeded(r) || w.stop(tick + 1) {
      assert Halts(w, step, tick, code);
    } else if step.condition.None? {
      assert Leads(w, es, i, tick, dest);
    } else {
      var answer := w.decide(tick + 2, step.condition.value, r.output);
      assert answer.Some? ==> answer == if answer.value then Some(true) else Some(false);
    }
  }

  // ---------------------------------------------------------------------
  // The run takes these hops
  // ---------------------------------------------------------------------

  function From(fuel: nat, w: World, u: Setup, cp: Option<Checkpoint>, a: Point): (Option<int>, State) {
    RunFrom(fuel, w, u, cp, a.index, a.completed, a.sought, a.state)
  }

  /** A run comes past elements it does not execute, and notes the steps among them. */
  lemma {:induction false} ComesPast(fuel: nat, w: World, u: Setup, cp: Option<Checkpoint>, a: Point, e: nat)
    requires a.index <= e <= |u.elements| && NoneActive(u.elements, ListOf(cp), a.sought, a.index, e) && fuel >= e - a.index
    ensures From(fuel, w, u, cp, a) ==
            From(fuel - (e - a.index), w, u, cp, Point(e, a.completed + Wanted(u.elements[a.index..e]), a.sought, a.state))
    decreases e - a.index
  {
    hide RunFrom, Wanted;
    var es, i := u.elements, a.index;
    if i == e {
      NoneWanted();
      assert es[i..e] == [] && a.completed + [] == a.completed;
    } else {
      assert !Active(es, ListOf(cp), a.sought, i);
      OnePast(fuel, w, u, cp, a);
      var b := Point(i + 1, a.completed + Wanted([es[i]]), a.sought, a.state);
      ComesPast(fuel - 1, w, u, cp, b, e);
      assert es[i..e] == [es[i]] + es[i + 1..e];
      WantedConcat([es[i]], es[i + 1..e]);
      assert (a.completed + Wanted([es[i]])) + Wanted(es[i + 1..e]) == a.completed + Wanted(es[i..e]);
    }
  }

  lemma NoneWanted()
    ensures Wanted([]) == []
  {
  }

  lemma OnePast(fuel: nat, w: World, u: Setup, cp: Option<Checkpoint>, a: Point)
    requires a.index < |u.elements| && !Active(u.elements, ListOf(cp), a.sought, a.index) && fuel > 0
    ensures From(fuel, w, u, cp, a) ==
            From(fuel - 1, w, u, cp, Point(a.index + 1, a.completed + Wanted([u.elements[a.index]]), a.sought, a.state))
  {
    hide ElementMove, Wanted, Active;
    PassedOver(w, u, cp, a);
  }

  lemma PassedOver(w: World, u: Setup, cp: Option<Checkpoint>, a: Point)
    requires a.index < |u.elements| && !Active(u.elements, ListOf(cp), a.sought, a.index)
    ensures ElementMove(w, u, cp, a.index, a.completed, a.sought, a.state) ==
            (Goto(a.index + 1, a.completed + Wanted([u.elements[a.index]]), a.sought), a.state)
  {
    hide LoopMeaning, StepMove;
    var e := u.elements[a.index];
    assert [e][1..] == [];
    assert Wanted([e]) == if e.step.skip == "true" then [] else [e.step.name];
    assert a.completed + [] == a.completed;
  }

  /**
   A run goes on as its hops say. After a successful step whose goto condition
   holds it continues as a run from the step named, and otherwise as one from
   the next element.
   */
  lemma HopTaken(fuel: nat, w: World, u: Setup, regex: string -> bool, cp: Option<Checkpoint>, a: Point, e: nat, b: Point)
    requires Good(u.elements, regex) && Hop(w, u, ListOf(cp), a, e, b)
    ensures From(fuel + (e - a.index) + 1, w, u, cp, a) == From(fuel, w, u, cp, b)
  {
    hide RunFrom, LoopMeaning, StepMove, Leads, Left, Wanted, Good;
    ComesPast(fuel + (e - a.index) + 1, w, u, cp, a, e);
    var listed := a.completed + Wanted(u.elements[a.index..e]);
    var p := Point(e, listed, a.sought, a.state);
    match u.elements[e] {
      case LoopElement(l) => LoopTaken(fuel, w, u, cp, p);
      case StepElement(step) =>
        StepTaken(fuel, w, u, cp, p);
        StepLeads(w, u, regex, p, b.index);
    }
  }

  lemma LoopTaken(fuel: nat, w: World, u: Setup, cp: Option<Checkpoint>, p: Point)
    requires p.index < |u.elements| && u.elements[p.index].LoopElement?
    ensures var l := u.elements[p.index].loop;
            var (x, t) := LoopMeaning(w, u, l, l.maxIterations, p.state);
            From(fuel + 1, w, u, cp, p) ==
            if x != LoopExit(0, false) then (Some(x.code), t)
            else From(fuel, w, u, cp, Point(p.index + 1, p.completed, p.sought, t))
  {
    hide LoopMeaning;
  }

  lemma StepTaken(fuel: nat, w: World, u: Setup, cp: Option<Checkpoint>, p: Point)
    requires Active(u.elements, ListOf(cp), p.sought, p.index) && u.elements[p.index].StepElement?
    ensures var (m, t) := StepMove(w, u, p.index, p.completed, u.elements[p.index].step, p.state);
            From(fuel + 1, w, u, cp, p) ==
            if m.End? then (Some(m.code), t) else From(fuel, w, u, cp, Point(m.index, m.completed, m.skipUntil, t))
  {
    hide StepMove;
  }

  lemma StepLeads(w: World, u: Setup, regex: string -> bool, p: Point, dest: nat)
    requires Good(u.elements, regex) && p.index < |u.elements| && u.elements[p.index].StepElement?
    requires Leads(w, u.elements, p.index, p.state.tick, dest)
    ensures var step := u.elements[p.index].step;
            StepMove(w, u, p.index, p.completed, step, p.state) ==
            (Goto(dest, p.completed + [step.name], ""), Left(w, u, step, p.completed, p.state))
  {
    hide Good, IndexOf, CheckpointPath;
    var step := u.elements[p.index].step;
    if step.condition.Some? && step.condition.value.target != "" {
      GotoLands(u.elements, regex, p.index);
    }
  }

  lemma StepHalts(w: World, u: Setup, regex: string -> bool, p: Point, code: int)
    requires Good(u.elements, regex) && p.index < |u.elements| && u.elements[p.index].StepElement?
    requires Halts(w, u.elements[p.index].step, p.state.tick, code)
    ensures var step := u.elements[p.index].step;
            StepMove(w, u, p.index, p.completed, step, p.state) == (End(code), Left(w, u, step, p.completed, p.state))
  {
    hide Good, IndexOf, CheckpointPath;
  }

  /** A run ends as its point says. */
  lemma EndTaken(fuel: nat, w: World, u: Setup, regex: string -> bool, cp: Option<Checkpoint>, a: Point, code: int, t: State)
    requires Good(u.elements, regex) && EndsFrom(w, u, ListOf(cp), a, code, t) && fuel >= |u.elements|
    ensures From(fuel, w, u, cp, a) == (Some(code), t)
  {
    hide RunFrom, LoopMeaning, StepMove, Halts, Left, Wanted, Good;
    var es, list := u.elements, ListOf(cp);
    if e: nat :| FirstActive(es, list, a.sought, a.index, e) && HaltsAt(w, u, a, e, code, t) {
      ComesPast(fuel, w, u, cp, a, e);
      var p := Point(e, a.completed + Wanted(es[a.index..e]), a.sought, a.state);
      var rest := fuel - (e - a.index) - 1;
      match es[e] {
        case LoopElement(l) => LoopTaken(rest, w, u, cp, p);
        case StepElement(step) =>
          StepTaken(rest, w, u, cp, p);
          StepHalts(w, u, regex, p, code);
      }
    } else {
      NothingLeft(fuel, w, u, cp, a);
    }
  }

  lemma NothingLeft(fuel: nat, w: World, u: Setup, cp: Option<Checkpoint>, a: Point)
    requires NoneActive(u.elements, ListOf(cp), a.sought, a.index, |u.elements|) && fuel >= |u.elements|
    ensures From(fuel, w, u, cp, a) == (Some(0), a.state.(disk := a.state.disk - {CheckpointPath(u.pipelineName)}))
  {
    hide Wanted, Active, ElementMove;
    if a.index < |u.elements| {
      ComesPast(fuel, w, u, cp, a, |u.elements|);
    }
  }

  // ---------------------------------------------------------------------
  // Every run is such a path
  // ---------------------------------------------------------------------

  /** A run from `a` that has executed `visited` stands at the last of `ps`. */
  ghost predicate IsPath(w: World, u: Setup, list: seq<string>, a: Point, ps: seq<Point>, visited: seq<nat>) {
    && |ps| == |visited| + 1 && ps[0] == a
    && forall k :: 0 <= k < |visited| ==> Hop(w, u, list, ps[k], visited[k], ps[k + 1])
  }

  lemma {:induction false} FindActive(es: seq<Element>, list: seq<string>, sought: string, from: nat) returns (e: nat)
    ensures if e < |es| then FirstActive(es, list, sought, from, e) else NoneActive(es, list, sought, from, |es|)
    decreases if from < |es| then |es| - from else 0
  {
    hide Active;
    if from >= |es| {
      e := |es|;
    } else if Active(es, list, sought, from) {
      e := from;
    } else {
      e := FindActive(es, list, sought, from + 1);
    }
  }

  /** From every point of a valid pipeline the run ends or hops. */
  lemma EndsOrHops(w: World, u: Setup, regex: string -> bool, list: seq<string>, a: Point)
    returns (ends: bool, code: int, t: State, e: nat, b: Point)
    requires Good(u.elements, regex)
    ensures if ends then EndsFrom(w, u, list, a, code, t) else Hop(w, u, list, a, e, b)
  {
    hide Active, NoneActive, LoopMeaning, Leads, Halts, Left, Wanted, Good;
    e := FindActive(u.elements, list, a.sought, a.index);
    ends, code, t, b := true, 0, a.state.(disk := a.state.disk - {CheckpointPath(u.pipelineName)}), a;
    if e < |u.elements| {
      ActiveInside(u.elements, list, a.sought, e);
      var listed := a.completed + Wanted(u.elements[a.index..e]);
      match u.elements[e] {
        case LoopElement(l) =>
          var x, v := LoopMeaning(w, u, l, l.maxIterations, a.state).0, LoopMeaning(w, u, l, l.maxIterations, a.state).1;
          ends, code, t, b := x != LoopExit(0, false), x.code, v, Point(e + 1, listed, a.sought, v);
          assert ends ==> HaltsAt(w, u, a, e, code, t);
        case StepElement(step) =>
          var dest, c := LeadsOrHalts(w, u.elements, regex, e, a.state.tick);
          t := Left(w, u, step, listed, a.state);
          ends, code, b := !Leads(w, u.elements, e, a.state.tick, dest), c, Point(dest, listed + [step.name], "", t);
          assert ends ==> HaltsAt(w, u, a, e, code, t);
      }
    }
  }

  lemma ActiveInside(es: seq<Element>, list: seq<string>, sought: string, e: nat)
    ensures Active(es, list, sought, e) ==> e < |es|
  {
  }

  /**
   A run of a valid pipeline that ends is a path of hops: it executes one
   element after the other, each the first active one from where the one before
   led, and ends where its last point says. `HopTaken` and `EndTaken` are the
   converse.
   */
  lemma {:induction false} RunByElement(fuel: nat, w: World, u: Setup, regex: string -> bool, cp: Option<Checkpoint>, a: Point)
    returns (ps: seq<Point>, visited: seq<nat>)
    requires Good(u.elements, regex) && From(fuel, w, u, cp, a).0.Some?
    ensures IsPath(w, u, ListOf(cp), a, ps, visited)
    ensures var (code, t) := From(fuel, w, u, cp, a); EndsFrom(w, u, ListOf(cp), ps[|ps| - 1], code.value, t)
    decreases fuel
  {
    hide RunFrom, Hop, EndsFrom, Good;
    var ends, code, t, e, b := EndsOrHops(w, u, regex, ListOf(cp), a);
    ps, visited := [a], [];
    if ends {
      FuelIsEnough(fuel, fuel + |u.elements|, w, u, cp, a.index, a.completed, a.sought, a.state);
      EndTaken(fuel + |u.elements|, w, u, regex, cp, a, code, t);
    } else {
      EnoughForHop(fuel, w, u, cp, a, e, b);
      HopInside(w, u, ListOf(cp), a, e, b);
      var rest := fuel - (e - a.index) - 1;
      HopTaken(rest, w, u, regex, cp, a, e, b);
      var more, moreVisited := RunByElement(rest, w, u, regex, cp, b);
      ps, visited := [a] + more, [e] + moreVisited;
      forall k | 0 <= k < |visited|
        ensures Hop(w, u, ListOf(cp), ps[k], visited[k], ps[k + 1])
      {
        assert ps[k + 1] == more[k];
        if k > 0 {
          assert ps[k] == more[k - 1] && visited[k] == moreVisited[k - 1];
        }
      }
      assert ps[|ps| - 1] == more[|more| - 1];
    }
  }

  lemma EnoughForHop(fuel: nat, w: World, u: Setup, cp: Option<Checkpoint>, a: Point, e: nat, b: Point)
    requires From(fuel, w, u, cp, a).0.Some? && Hop(w, u, ListOf(cp), a, e, b)
    ensures fuel > e - a.index
  {
    hide Leads, Left, LoopMeaning, Wanted, ElementMove;
    if fuel <= e - a.index {
      ComesPast(fuel, w, u, cp, a, a.index + fuel);
    }
  }

  // ---------------------------------------------------------------------
  // The trace of a pipeline whose gotos go forward
  // ---------------------------------------------------------------------

  /** The names of the steps among the visited elements. */
  function StepsOf(es: seq<Element>, visited: seq<nat>): seq<string>
    requires forall k :: 0 <= k < |visited| ==> visited[k] < |es|
  {
    if visited == [] then []
    else
      var e := es[visited[|visited| - 1]];
      StepsOf(es, visited[..|visited| - 1]) + if e.StepElement? then [e.step.name] else []
  }

  /** On its way a run has executed, of the top-level steps, exactly those visited, each with success. */
  lemma {:induction false} TraceOfPath(w: World, u: Setup, regex: string -> bool, list: seq<string>, a: Point, ps: seq<Point>,
                                       visited: seq<nat>)
    requires Good(u.elements, regex) && IsPath(w, u, list, a, ps, visited)
    ensures forall k :: 0 <= k < |visited| ==> visited[k] < |u.elements|
    ensures Successes(Wanted(u.elements), ps[|ps| - 1].state.trace) ==
            Successes(Wanted(u.elements), a.state.trace) + StepsOf(u.elements, visited)
    decreases |visited|
  {
    hide Hop, Wanted, Successes, Good;
    var wanted := Wanted(u.elements);
    forall k | 0 <= k < |visited|
      ensures visited[k] < |u.elements|
    {
      HopInside(w, u, list, ps[k], visited[k], ps[k + 1]);
    }
    var before := Successes(wanted, a.state.trace);
    if visited == [] {
      assert before + [] == before;
    } else {
      var n := |visited| - 1;
      TraceOfPath(w, u, regex, list, a, ps[..n + 1], visited[..n]);
      TraceOfHop(w, u, regex, list, ps[n], visited[n], ps[n + 1]);
      var e := u.elements[visited[n]];
      var name := if e.StepElement? then [e.step.name] else [];
      assert (before + StepsOf(u.elements, visited[..n])) + name == before + (StepsOf(u.elements, visited[..n]) + name);
    }
  }

  lemma HopInside(w: World, u: Setup, list: seq<string>, a: Point, e: nat, b: Point)
    requires Hop(w, u, list, a, e, b)
    ensures a.index <= e < |u.elements|
  {
    hide Leads, Left, LoopMeaning, Wanted;
  }

  lemma TraceOfHop(w: World, u: Setup, regex: string -> bool, list: seq<string>, a: Point, e: nat, b: Point)
    requires Good(u.elements, regex) && Hop(w, u, list, a, e, b) && e < |u.elements|
    ensures Successes(Wanted(u.elements), b.state.trace) ==
            Successes(Wanted(u.elements), a.state.trace)
            + if u.elements[e].StepElement? then [u.elements[e].step.name] else []
  {
    hide Wanted, Successes, LoopMeaning, StepNames, CheckpointPath;
    var wanted := Wanted(u.elements);
    match u.elements[e] {
      case LoopElement(l) =>
        LoopStepsNotWanted(u.elements, e);
        LoopInside(w, u, l, l.maxIterations, a.state, wanted);
        var before := Successes(wanted, a.state.trace);
        assert before + [] == before;
      case StepElement(step) =>
        WantedAt(u.elements, e);
        SuccessesAppend(wanted, a.state.trace, Exec(step.name, w.run(a.state.tick, step)));
    }
  }

  lemma HopAscends(w: World, u: Setup, list: seq<string>, a: Point, e: nat, b: Point)
    requires GotosForward(u.elements) && Hop(w, u, list, a, e, b)
    ensures a.index <= e < b.index <= |u.elements|
    ensures a.sought == "" ==> b.sought == ""
  {
    hide LoopMeaning, Left, Wanted;
    if u.elements[e].StepElement? && b.index != e + 1 {
      var j := IndexOf(u.elements[e].step.condition.value.target, u.elements);
      assert j < 0 || e < j;
    }
  }

  /** From point number `k` the path goes forward. */
  ghost predicate Ascends(ps: seq<Point>, visited: seq<nat>, k: nat)
    requires k < |visited| < |ps|
  {
    ps[k].index <= visited[k] < ps[k + 1].index && (ps[k].sought == "" ==> ps[k + 1].sought == "")
  }

  lemma PathAscends(w: World, u: Setup, list: seq<string>, ps: seq<Point>, visited: seq<nat>, k: nat)
    requires GotosForward(u.elements) && k < |visited| < |ps| && Hop(w, u, list, ps[k], visited[k], ps[k + 1])
    ensures Ascends(ps, visited, k)
  {
    hide GotosForward, Hop;
    HopAscends(w, u, list, ps[k], visited[k], ps[k + 1]);
  }

  /** Every element visited from point `k` on comes after those visited before it. */
  lemma {:induction false} LaterIsHigher(ps: seq<Point>, visited: seq<nat>, j: nat, k: nat)
    requires |ps| == |visited| + 1 && j <= k < |ps| && forall m: nat :: m < |visited| ==> Ascends(ps, visited, m)
    ensures ps[j].index <= ps[k].index && (j < k ==> visited[j] < ps[k].index)
    ensures ps[j].sought == "" ==> ps[k].sought == ""
    decreases k - j
  {
    if j < k {
      LaterIsHigher(ps, visited, j, k - 1);
      assert Ascends(ps, visited, k - 1);
    }
  }

  /**
   When gotos go forward, a run visits the elements in order, and leaves out
   exactly the active ones a goto has jumped over.
   */
  lemma ForwardPath(w: World, u: Setup, list: seq<string>, a: Point, ps: seq<Point>, visited: seq<nat>)
    requires GotosForward(u.elements) && a.sought == "" && IsPath(w, u, list, a, ps, visited)
    ensures forall j, k :: 0 <= j < k < |visited| ==> visited[j] < visited[k]
    ensures forall i: nat :: a.index <= i < ps[|ps| - 1].index && Active(u.elements, list, "", i) ==>
              (i !in visited <==> exists k :: 0 <= k < |visited| && visited[k] < i < ps[k + 1].index)
  {
    hide GotosForward, Hop, Ascends, Active;
    forall k: nat | k < |visited|
      ensures Ascends(ps, visited, k)
    {
      PathAscends(w, u, list, ps, visited, k);
    }
    forall j: nat, k: nat | j < k < |visited|
      ensures visited[j] < visited[k]
    {
      LaterIsHigher(ps, visited, j, k);
      AtVisit(ps, visited, k);
    }
    forall i: nat | a.index <= i < ps[|ps| - 1].index && Active(u.elements, list, "", i)
      ensures i !in visited <==> exists k :: 0 <= k < |visited| && visited[k] < i < ps[k + 1].index
    {
      if i !in visited {
        var k := JumpedOver(w, u, list, ps, visited, i, |visited|);
        assert visited[k] < i < ps[k + 1].index;
      } else if k: nat :| k < |visited| && visited[k] < i < ps[k + 1].index {
        NotVisited(ps, visited, k, i);
        assert false;
      }
    }
  }

  lemma AtVisit(ps: seq<Point>, visited: seq<nat>, k: nat)
    requires k < |visited| < |ps| && Ascends(ps, visited, k)
    ensures ps[k].index <= visited[k] < ps[k + 1].index
  {
  }

  lemma NotVisited(ps: seq<Point>, visited: seq<nat>, k: nat, i: nat)
    requires |ps| == |visited| + 1 && forall m: nat :: m < |visited| ==> Ascends(ps, visited, m)
    requires k < |visited| && visited[k] < i < ps[k + 1].index
    ensures i !in visited
  {
    hide Ascends;
    forall m: nat | m < |visited|
      ensures visited[m] != i
    {
      AtVisit(ps, visited, m);
      if m < k {
        LaterIsHigher(ps, visited, m, k);
        AtVisit(ps, visited, k);
      } else if m > k {
        LaterIsHigher(ps, visited, k + 1, m);
      }
    }
  }

  /** An active element before point `n` that was not visited lies in a jump. */
  lemma {:induction false} JumpedOver(w: World, u: Setup, list: seq<string>, ps: seq<Point>, visited: seq<nat>, i: nat, n: nat)
    returns (k: nat)
    requires |ps| == |visited| + 1 && n <= |visited| && ps[0].sought == "" && ps[0].index <= i < ps[n].index
    requires forall m: nat :: m < |visited| ==> Ascends(ps, visited, m) && Hop(w, u, list, ps[m], visited[m], ps[m + 1])
    requires Active(u.elements, list, "", i) && i !in visited
    ensures k < n && visited[k] < i < ps[k + 1].index
    decreases n
  {
    hide Hop, Ascends, Active;
    if i < ps[n - 1].index {
      k := JumpedOver(w, u, list, ps, visited, i, n - 1);
    } else {
      k := n - 1;
      LaterIsHigher(ps, visited, 0, k);
      FirstOfHop(w, u, list, ps[k], visited[k], ps[k + 1], i);
    }
  }

  lemma FirstOfHop(w: World, u: Setup, list: seq<string>, a: Point, e: nat, b: Point, i: nat)
    requires Hop(w, u, list, a, e, b) && a.index <= i && Active(u.elements, list, a.sought, i)
    ensures e <= i
  {
    hide Active, Leads, Left, LoopMeaning, Wanted;
  }

  /**
   A whole run of a valid pipeline whose gotos go forward, from a checkpoint or
   from the start: of the top-level steps it executes, in order and with success,
   exactly the active ones it comes to that no goto jumps over; then it ends at
   the first element that ends it, or at the end.
   */
  lemma ForwardRun(w: World, u: Setup, regex: string -> bool, s: State) returns (ps: seq<Point>, visited: seq<nat>)
    requires Good(u.elements, regex) && GotosForward(u.elements)
    requires u.subResume == "" || u.restart || (u.pipelineName != "" && Loaded(u, s).Some?)
    ensures var list := if u.restart || u.pipelineName == "" then [] else Done(u, s);
            var (code, t) := RunMeaning(|u.elements|, w, u, s);
            && |ps| == |visited| + 1 && ps[0] == Point(0, [], "", s)
            && (forall k :: 0 <= k < |visited| ==> Hop(w, u, list, ps[k], visited[k], ps[k + 1]))
            && (forall k :: 0 <= k < |visited| ==> visited[k] < |u.elements|)
            && (forall j, k :: 0 <= j < k < |visited| ==> visited[j] < visited[k])
            && (forall i: nat :: i < ps[|visited|].index && Active(u.elements, list, "", i) ==>
                  (i !in visited <==> exists k :: 0 <= k < |visited| && visited[k] < i < ps[k + 1].index))
            && Successes(Wanted(u.elements), ps[|visited|].state.trace) ==
               Successes(Wanted(u.elements), s.trace) + StepsOf(u.elements, visited)
            && code.Some? && EndsFrom(w, u, list, ps[|visited|], code.value, t)
  {
    hide RunFrom, GotosForward, Hop, Active, EndsFrom, Good, Wanted, Successes, StepsOf;
    var cp := if !u.restart && u.pipelineName != "" then Loaded(u, s) else None;
    var a := Point(0, [], "", s);
    ForwardRunEnds(|u.elements|, w, u, cp, 0, [], "", s);
    ps, visited := RunByElement(|u.elements|, w, u, regex, cp, a);
    ForwardPath(w, u, ListOf(cp), a, ps, visited);
    TraceOfPath(w, u, regex, ListOf(cp), a, ps, visited);
  }

  // ---------------------------------------------------------------------
  // Resuming after a goto
  // ---------------------------------------------------------------------

  /** A run that takes the hops of a path goes on as one from its last point. */
  lemma {:induction false} PathTaken(fuel: nat, w: World, u: Setup, regex: string -> bool, cp: Option<Checkpoint>, a: Point,
                                     ps: seq<Point>, visited: seq<nat>) returns (more: nat)
    requires Good(u.elements, regex) && IsPath(w, u, ListOf(cp), a, ps, visited)
    ensures more >= fuel && From(more, w, u, cp, a) == From(fuel, w, u, cp, ps[|ps| - 1])
    decreases |visited|
  {
    hide Hop, RunFrom, Good;
    if visited == [] {
      more := fuel;
    } else {
      var n := |visited| - 1;
      HopInside(w, u, ListOf(cp), ps[n], visited[n], ps[n + 1]);
      HopTaken(fuel, w, u, regex, cp, ps[n], visited[n], ps[n + 1]);
      more := PathTaken(fuel + (visited[n] - ps[n].index) + 1, w, u, regex, cp, a, ps[..n + 1], visited[..n]);
      assert ps[..n + 1][n] == ps[n];
    }
  }

  predicate Unskipped(es: seq<Element>, i: nat) {
    i < |es| && es[i].StepElement? && es[i].step.skip != "true"
  }

  /** Without a checkpoint, what a run lists as completed are the steps it has visited. */
  lemma {:induction false} ListsWhatItVisited(w: World, u: Setup, a: Point, ps: seq<Point>, visited: seq<nat>)
    requires a.sought == "" && a.completed == [] && IsPath(w, u, [], a, ps, visited)
    ensures forall k :: 0 <= k < |visited| ==> visited[k] < |u.elements|
    ensures ps[|ps| - 1].completed == StepsOf(u.elements, visited) && ps[|ps| - 1].sought == ""
    decreases |visited|
  {
    hide Hop;
    forall k | 0 <= k < |visited|
      ensures visited[k] < |u.elements|
    {
      HopInside(w, u, [], ps[k], visited[k], ps[k + 1]);
    }
    if visited != [] {
      var n := |visited| - 1;
      ListsWhatItVisited(w, u, a, ps[..n + 1], visited[..n]);
      assert ps[..n + 1][n] == ps[n];
      HopLists(w, u, ps[n], visited[n], ps[n + 1]);
    }
  }

  lemma HopLists(w: World, u: Setup, a: Point, e: nat, b: Point)
    requires a.sought == "" && Hop(w, u, [], a, e, b) && e < |u.elements|
    ensures b.completed == a.completed + (if u.elements[e].StepElement? then [u.elements[e].step.name] else []) && b.sought == ""
  {
    hide Wanted, Leads, Left, LoopMeaning;
    GapWantsNothing(u.elements, a.index, e);
    assert a.completed + [] == a.completed;
  }

  lemma {:induction false} GapWantsNothing(es: seq<Element>, a: nat, e: nat)
    requires a <= e <= |es| && NoneActive(es, [], "", a, e)
    ensures Wanted(es[a..e]) == []
    decreases e - a
  {
    if a < e {
      assert !Active(es, [], "", a);
      GapWantsNothing(es, a + 1, e);
      assert es[a..e][0] == es[a] && es[a..e][1..] == es[a + 1..e];
    }
  }

  /** In a valid pipeline the name of a step tells whether it was visited. */
  lemma {:induction false} NamesVisited(es: seq<Element>, visited: seq<nat>, i: nat)
    requires Distinct(StepNames(es)) && i < |es| && es[i].StepElement?
    requires forall k :: 0 <= k < |visited| ==> visited[k] < |es|
    ensures es[i].step.name in StepsOf(es, visited) <==> i in visited
    decreases |visited|
  {
    hide StepNames;
    if visited != [] {
      var n := |visited| - 1;
      var e := visited[n];
      assert visited == visited[..n] + [e];
      NamesVisited(es, visited[..n], i);
      if es[e].StepElement? && es[e].step.name == es[i].step.name {
        if e < i {
          UniqueTopLevelName(es, e, i);
        } else if i < e {
          UniqueTopLevelName(es, i, e);
        }
      }
    }
  }

  /** Step `e` is the first one an attempt with the given completed steps executes. */
  ghost predicate FirstStep(es: seq<Element>, list: seq<string>, e: nat) {
    Active(es, list, "", e) && forall i: nat :: i < e && Unskipped(es, i) ==> !Active(es, list, "", i)
  }

  /** A path and the end of its last point are the whole run. */
  lemma PathIsRun(w: World, u: Setup, regex: string -> bool, s: State, ps: seq<Point>, visited: seq<nat>, code: int, t: State)
    requires Good(u.elements, regex) && GotosForward(u.elements) && u.subResume == "" && Loaded(u, s) == None
    requires IsPath(w, u, [], Point(0, [], "", s), ps, visited) && EndsFrom(w, u, [], ps[|visited|], code, t)
    ensures RunMeaning(|u.elements|, w, u, s) == (Some(code), t)
  {
    hide Good, GotosForward, Hop, RunFrom, Loaded, EndsFrom;
    EndTaken(|u.elements|, w, u, regex, None, ps[|visited|], code, t);
    var more := PathTaken(|u.elements|, w, u, regex, None, Point(0, [], "", s), ps, visited);
    ForwardPipelinesTerminate(w, u, s, more);
  }

  /** What the last step of an attempt leaves when it fails: a checkpoint that names it as the next. */
  lemma FailureLeaves(w: World, u: Setup, step: Step, listed: seq<string>, s: State)
    requires u.pipelineName != "" && !w.run(s.tick, step).failed && w.run(s.tick, step).exitCode != 0
    ensures var cp := Loaded(u, Left(w, u, step, listed, s));
            cp.Some? && cp.value.completedSteps == listed && cp.value.nextStep == step.name
  {
    hide CheckpointPath;
  }

  /** An attempt that fails at step `e` leaves a checkpoint that lists the steps visited and names `e` as the next. */
  lemma FailsAt(w: World, u: Setup, regex: string -> bool, s: State, ps: seq<Point>, visited: seq<nat>, e: nat)
    requires Good(u.elements, regex) && GotosForward(u.elements)
    requires u.pipelineName != "" && !u.restart && u.subResume == "" && Loaded(u, s) == None
    requires IsPath(w, u, [], Point(0, [], "", s), ps, visited) && FirstActive(u.elements, [], "", ps[|visited|].index, e)
    requires u.elements[e].StepElement?
    requires var r := w.run(ps[|visited|].state.tick, u.elements[e].step); !r.failed && r.exitCode != 0
    ensures forall k :: 0 <= k < |visited| ==> visited[k] < |u.elements|
    ensures Done(u, RunMeaning(|u.elements|, w, u, s).1) == StepsOf(u.elements, visited)
    ensures var cp := Loaded(u, RunMeaning(|u.elements|, w, u, s).1);
            cp.Some? && cp.value.nextStep == u.elements[e].step.name
  {
    hide Good, GotosForward, Hop, RunMeaning, Loaded, Left, Wanted, StepsOf, NoneActive;
    var es, last := u.elements, ps[|visited|];
    ListsWhatItVisited(w, u, Point(0, [], "", s), ps, visited);
    GapWantsNothing(es, last.index, e);
    var step, listed := es[e].step, StepsOf(es, visited);
    var r := w.run(last.state.tick, step);
    assert last.completed + Wanted(es[last.index..e]) == listed + [] == listed;
    FailureLeaves(w, u, step, listed, last.state);
    var code := if w.rateLimited(r.output) then 2 else r.exitCode;
    var t := Left(w, u, step, listed, last.state);
    assert FirstActive(es, [], last.sought, last.index, e) && HaltsAt(w, u, last, e, code, t);
    PathIsRun(w, u, regex, s, ps, visited, code, t);
  }

  /**
   An attempt at a pipeline with forward gotos fails, or hits the rate limit, at
   step `e`. The next attempt takes up the pipeline there if and only if no goto
   has jumped over a step: the checkpoint stores the step to resume from, but
   nothing reads it, and a completed step is passed over without its goto.
   */
  lemma ResumesWhereItFailedIffNothingJumped(w: World, u: Setup, regex: string -> bool, s: State, ps: seq<Point>,
                                             visited: seq<nat>, e: nat)
    requires Good(u.elements, regex) && GotosForward(u.elements)
    requires u.pipelineName != "" && !u.restart && u.subResume == "" && Loaded(u, s) == None
    requires IsPath(w, u, [], Point(0, [], "", s), ps, visited) && FirstActive(u.elements, [], "", ps[|visited|].index, e)
    requires u.elements[e].StepElement?
    requires var r := w.run(ps[|visited|].state.tick, u.elements[e].step); !r.failed && r.exitCode != 0
    ensures var t := RunMeaning(|u.elements|, w, u, s).1;
            && Loaded(u, t).Some? && Loaded(u, t).value.nextStep == u.elements[e].step.name
            && (FirstStep(u.elements, Done(u, t), e) <==>
                forall k, i: nat :: 0 <= k < |visited| && visited[k] < i < ps[k + 1].index ==> !Unskipped(u.elements, i))
  {
    hide Good, GotosForward, Hop, RunMeaning, CheckpointPath, StepNames, Loaded, FirstStep;
    FailsAt(w, u, regex, s, ps, visited, e);
    assert Distinct(StepNames(u.elements)) by { NamesDistinct(u.elements, regex); }
    var a := Point(0, [], "", s);
    ForwardPath(w, u, [], a, ps, visited);
    PathBounds(w, u, a, ps, visited);
    NothingJumped(u.elements, ps, visited, e);
  }

  lemma NamesDistinct(es: seq<Element>, regex: string -> bool)
    requires Good(es, regex)
    ensures Distinct(StepNames(es))
  {
  }

  lemma PathBounds(w: World, u: Setup, a: Point, ps: seq<Point>, visited: seq<nat>)
    requires GotosForward(u.elements) && IsPath(w, u, [], a, ps, visited)
    ensures forall k :: 0 <= k < |visited| ==> visited[k] < ps[|visited|].index
    ensures forall k :: 0 <= k < |ps| ==> ps[k].index <= ps[|visited|].index
  {
    hide GotosForward, Hop, Ascends;
    forall k: nat | k < |visited|
      ensures Ascends(ps, visited, k)
    {
      PathAscends(w, u, [], ps, visited, k);
    }
    forall k: nat | k < |ps|
      ensures ps[k].index <= ps[|visited|].index && (k < |visited| ==> visited[k] < ps[|visited|].index)
    {
      LaterIsHigher(ps, visited, k, |visited|);
    }
  }

  lemma NothingJumped(es: seq<Element>, ps: seq<Point>, visited: seq<nat>, e: nat)
    requires |ps| == |visited| + 1 && ps[0].index == 0 && Distinct(StepNames(es))
    requires FirstActive(es, [], "", ps[|visited|].index, e) && es[e].StepElement?
    requires forall k :: 0 <= k < |visited| ==> visited[k] < |es| && visited[k] < ps[|visited|].index
    requires forall k :: 0 <= k < |ps| ==> ps[k].index <= ps[|visited|].index
    requires forall i: nat :: i < ps[|visited|].index && Active(es, [], "", i) ==>
               (i !in visited <==> exists k :: 0 <= k < |visited| && visited[k] < i < ps[k + 1].index)
    ensures FirstStep(es, StepsOf(es, visited), e) <==>
            forall k, i: nat :: 0 <= k < |visited| && visited[k] < i < ps[k + 1].index ==> !Unskipped(es, i)
  {
    hide StepNames, StepsOf;
    var listed := StepsOf(es, visited);
    forall i: nat | i <= e && Unskipped(es, i)
      ensures Active(es, [], "", i) && (Active(es, listed, "", i) <==> i !in visited)
    {
      NamesVisited(es, visited, i);
    }
    assert e !in visited;
    forall k: nat, i: nat | k < |visited| && visited[k] < i < ps[k + 1].index && Unskipped(es, i)
      ensures i < e && i !in visited
    {
      assert Active(es, [], "", i);
    }
    if !FirstStep(es, listed, e) {
      var i: nat :| i < e && Unskipped(es, i) && Active(es, listed, "", i);
      assert i < ps[|visited|].index;
    }
  }

  // ---------------------------------------------------------------------
  // A goto that is forgotten
  // ---------------------------------------------------------------------

  /** The step "a", which jumps to "c" when its output contains "GO"; then "b" and "c". */
  const JUMPING := [StepElement(Step("a", "", "", "", "", "true", "", "", false, Some(Condition("", "", "c", "GO", "", "", "")))),
                    Command("b"), Command("c")]

  /** All goes well but for the step "c", which fails. */
  const FAILS_AT_C := UNDISTURBED.(run := (n, step: Step) => StepResult("", if step.name == "c" then 1 else 0, false))

  lemma JumpingIsGood(regex: string -> bool)
    ensures Good(JUMPING, regex) && IndexOf("c", JUMPING) == 2
  {
    var es := JUMPING;
    assert es[1..] == [es[1], es[2]] && es[1..][1..] == [es[2]] && [es[2]][1..] == [];
    NamesOfOne(es[0]);
    NamesOfOne(es[1]);
    NamesOfOne(es[2]);
    NamesConcat([es[0]], [es[1], es[2]]);
    NamesConcat([es[1]], [es[2]]);
    assert [es[1]] + [es[2]] == [es[1], es[2]] && [es[0]] + [es[1], es[2]] == es;
    hide StepNames;
    assert ["b"] + ["c"] == ["b", "c"] && ["a"] + ["b", "c"] == ["a", "b", "c"];
    assert StepNames(es) == ["a", "b", "c"];
    assert TopLevelStepNames([es[2]]) == ["c"];
    assert TopLevelStepNames(es[1..]) == ["b", "c"];
    assert TopLevelStepNames(es) == ["a", "b", "c"];
  }

  lemma JumpsThenFails(u: Setup)
    requires u.elements == JUMPING && u.pipelineName != "" && !u.restart && u.subResume == ""
    ensures var (code, t) := RunMeaning(3, FAILS_AT_C, u, State(0, [], map[]));
            && code == Some(1) && Done(u, t) == ["a"]
            && |t.trace| == 2 && t.trace[0].step == "a" && t.trace[1].step == "c"
  {
    hide RunFrom, CheckpointPath, IndexOf;
    JumpingIsGood(s => true);
    var w, s := FAILS_AT_C, State(0, [], map[]);
    Executes(3, w, u, None, 0, [], s);
    var (m, t) := StepMove(w, u, 0, [], JUMPING[0].step, s);
    assert m == Goto(2, ["a"], "");
    Executes(2, w, u, None, 2, ["a"], t);
  }

  /** One step without a condition when all goes well. */
  lemma CommandRuns(fuel: nat, u: Setup, cp: Option<Checkpoint>, i: nat, completed: seq<string>, s: State, name: string)
    returns (t: State)
    requires i < |u.elements| && u.elements[i] == Command(name) && name !in ListOf(cp)
    ensures RunFrom(fuel + 1, UNDISTURBED, u, cp, i, completed, "", s) ==
            RunFrom(fuel, UNDISTURBED, u, cp, i + 1, completed + [name], "", t)
    ensures t.trace == s.trace + [Exec(name, StepResult("", 0, false))]
  {
    hide RunFrom, CheckpointPath, ListOf;
    Executes(fuel + 1, UNDISTURBED, u, cp, i, completed, s);
    var r := StepMove(UNDISTURBED, u, i, completed, u.elements[i].step, s);
    assert r.0 == Goto(i + 1, completed + [name], "");
    t := r.1;
  }

  lemma GoesOnWithB(u: Setup, s: State)
    requires u.elements == JUMPING && u.pipelineName != "" && !u.restart && u.subResume == "" && Done(u, s) == ["a"]
    ensures var (code, t) := RunMeaning(3, UNDISTURBED, u, s);
            code == Some(0) && |t.trace| == |s.trace| + 2 && t.trace[|s.trace|].step == "b" && t.trace[|s.trace| + 1].step == "c"
  {
    hide RunFrom, CheckpointPath, Loaded;
    var w, cp := UNDISTURBED, Loaded(u, s);
    PassesOver(3, w, u, cp, 0, [], s);
    assert [] + ["a"] == ["a"];
    var t := CommandRuns(1, u, cp, 1, ["a"], s, "b");
    var v := CommandRuns(0, u, cp, 2, ["a"] + ["b"], t, "c");
    RunEnds(0, w, u, cp, ["a"] + ["b"] + ["c"], v);
  }

  /** The first attempt jumps over "b" and fails at "c"; the second, when all goes well, executes "b" before "c". */
  lemma GotoIsForgotten(pipelineName: string, regex: string -> bool) returns (u: Setup)
    requires pipelineName != ""
    ensures u == Setup(JUMPING, pipelineName, map[], false, "") && Good(u.elements, regex)
    ensures var (code, t) := RunMeaning(3, FAILS_AT_C, u, State(0, [], map[]));
            var (again, v) := RunMeaning(3, UNDISTURBED, u, t);
            && code == Some(1) && |t.trace| == 2 && t.trace[0].step == "a" && t.trace[1].step == "c"
            && again == Some(0) && |v.trace| == 4 && v.trace[2].step == "b" && v.trace[3].step == "c"
  {
    hide RunMeaning, Good;
    u := Setup(JUMPING, pipelineName, map[], false, "");
    JumpingIsGood(regex);
    JumpsThenFails(u);
    GoesOnWithB(u, RunMeaning(3, FAILS_AT_C, u, State(0, [], map[])).1);
  }
}
