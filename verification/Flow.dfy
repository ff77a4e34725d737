/** Flows of pipelines and their resumption: executeFlow in orchestrator/engine/flow.go. */
module Flows {
  import opened Common
  import opened Pipelines
  import opened Checkpoints
  import opened Executors
  import opened Resume

  /** A segment once parsed, substituted and validated; `vars` are its own, `resolved` the merged ones. */
  datatype Segment = Segment(path: string, vars: Vars, resolved: Vars, elements: seq<Element>, subResume: string)

  /** A step of a segment that succeeded. */
  datatype Tagged = Tagged(segment: nat, step: string)

  /**
   The machine between segment runs. The last four fields record what has
   happened: the steps that succeeded; whether a segment run returned 3;
   whether one did so with wanted steps of the segment still to do; and whether
   a run of a segment with a busy loop returned 2.
   */
  datatype FlowState = FlowState(
    tick: nat, disk: map<string, Checkpoint>, flow: Option<FlowCheckpoint>,
    history: seq<Tagged>, three: bool, cut: bool, limited: bool)

  function SetupOf(seg: Segment, restart: bool): Setup {
    Setup(seg.elements, seg.path, seg.resolved, restart, seg.subResume)
  }

  function States(segs: seq<Segment>): (r: seq<SegmentState>)
    ensures |r| == |segs|
  {
    seq(|segs|, i requires 0 <= i < |segs| => SegmentState(segs[i].path, segs[i].vars))
  }

  function Tag(i: nat, steps: seq<string>): (r: seq<Tagged>)
    ensures |r| == |steps|
  {
    seq(|steps|, k requires 0 <= k < |steps| => Tagged(i, steps[k]))
  }

  /** The steps of segment `i` in a history. */
  function Of(history: seq<Tagged>, i: nat): seq<string> {
    if history == [] then []
    else (if history[0].segment == i then [history[0].step] else []) + Of(history[1..], i)
  }

  // ---------------------------------------------------------------------
  // executeFlow
  // ---------------------------------------------------------------------

  /** The state after the run of segment `i`, which ended in `t` with `code`. */
  function AfterSegment(segs: seq<Segment>, i: nat, code: Option<int>, t: State, f: FlowState): FlowState
    requires i < |segs|
  {
    var history := f.history + Tag(i, Successes(Wanted(segs[i].elements), t.trace));
    FlowState(t.tick, t.disk, f.flow, history,
              f.three || code == Some(3),
              f.cut || (code == Some(3) && Of(history, i) != Wanted(segs[i].elements)),
              f.limited || (code == Some(2) && HasBusyLoop(segs[i].elements)))
  }

  function SavedFlow(segs: seq<Segment>, completed: nat, f: FlowState): FlowState {
    f.(flow := Some(FlowCheckpoint(States(segs), completed)))
  }

  /** The segments from `i` on. */
  function FlowFrom(fuel: nat, w: World, segs: seq<Segment>, i: nat, restart: bool, f: FlowState): (Option<int>, FlowState)
    decreases |segs| - i
  {
    if i >= |segs| then (Some(0), f.(flow := None))
    else
      var (code, t) := RunMeaning(fuel, w, SetupOf(segs[i], restart), State(f.tick, [], f.disk));
      var f1 := AfterSegment(segs, i, code, t, f);
      if code.None? then (None, f1)
      else if code.value == 3 then (code, SavedFlow(segs, i + 1, f1))
      else if code.value != 0 then (code, SavedFlow(segs, i, f1))
      else
        var f2 := SavedFlow(segs, i + 1, f1).(tick := f1.tick + 1);
        if w.stop(f1.tick) then (Some(3), f2) else FlowFrom(fuel, w, segs, i + 1, false, f2)
  }

  /** Where a flow resumes. */
  function StartIndex(segs: seq<Segment>, f: FlowState): nat {
    if f.flow.Some? && FlowMatches(f.flow.value, States(segs)) then f.flow.value.completedSegments else 0
  }

  function FlowMeaning(fuel: nat, w: World, segs: seq<Segment>, restart: bool, f: FlowState): (Option<int>, FlowState) {
    if restart then FlowFrom(fuel, w, segs, 0, true, f.(flow := None, disk := map[]))
    else FlowFrom(fuel, w, segs, StartIndex(segs, f), false, f)
  }

  class FlowRunner {
    const world: World
    const segments: seq<Segment>
    var tick: nat
    var disk: map<string, Checkpoint>
    var flow: Option<FlowCheckpoint>
    ghost var history: seq<Tagged>
    ghost var three: bool
    ghost var cut: bool
    ghost var limited: bool

    constructor (world: World, segments: seq<Segment>, disk: map<string, Checkpoint>, flow: Option<FlowCheckpoint>)
      ensures this.world == world && this.segments == segments
      ensures View() == FlowState(0, disk, flow, [], false, false, false)
    {
      this.world, this.segments, this.disk, this.flow := world, segments, disk, flow;
      tick, history, three, cut, limited := 0, [], false, false, false;
    }

    ghost function View(): FlowState
      reads this
    {
      FlowState(tick, disk, flow, history, three, cut, limited)
    }

    method SaveFlowCheckpoint(completed: nat)
      modifies this`flow
      ensures View() == SavedFlow(segments, completed, old(View()))
    {
      var states: seq<SegmentState> := [];
      for i := 0 to |segments|
        invariant states == States(segments)[..i]
      {
        states := states + [SegmentState(segments[i].path, segments[i].vars)];
      }
      assert States(segments)[..|segments|] == States(segments);
      flow := Some(FlowCheckpoint(states, completed));
    }

    /** LoadFlowCheckpoint: the index to resume from. */
    method LoadFlowCheckpoint() returns (start: nat)
      ensures start == StartIndex(segments, View())
    {
      if flow.None? || |flow.value.segments| != |segments| {
        return 0;
      }
      for i := 0 to |segments|
        invariant forall j :: 0 <= j < i ==>
                    flow.value.segments[j].pipelinePath == segments[j].path
                    && SameVars(flow.value.segments[j].vars, segments[j].vars)
      {
        if flow.value.segments[i].pipelinePath != segments[i].path {
          return 0;
        }
        var same := CompareVars(flow.value.segments[i].vars, segments[i].vars);
        if !same {
          return 0;
        }
      }
      return flow.value.completedSegments;
    }

    /** executeSinglePipeline. */
    method ExecuteSinglePipeline(fuel: nat, i: nat, restart: bool) returns (code: Option<int>)
      requires i < |segments|
      modifies this
      ensures var (c, t) := RunMeaning(fuel, world, SetupOf(segments[i], restart), State(old(tick), [], old(disk)));
              code == c && View() == AfterSegment(segments, i, c, t, old(View()))
    {
      hide RunMeaning, Successes, Tag, Of, Wanted, HasBusyLoop;
      var executor := new Executor(world, SetupOf(segments[i], restart), tick, disk);
      code := executor.Run(fuel);
      tick, disk := executor.tick, executor.disk;
      history := history + Tag(i, Successes(Wanted(segments[i].elements), executor.trace));
      three := three || code == Some(3);
      cut := cut || (code == Some(3) && Of(history, i) != Wanted(segments[i].elements));
      limited := limited || (code == Some(2) && HasBusyLoop(segments[i].elements));
    }

    method ExecuteFlow(fuel: nat, restart: bool) returns (code: Option<int>)
      modifies this
      ensures (code, View()) == FlowMeaning(fuel, world, segments, restart, old(View()))
    {
      hide RunMeaning, AfterSegment, States, FlowMatches, SavedFlow;
      var startIdx: nat, first := 0, restart;
      if !restart {
        startIdx := LoadFlowCheckpoint();
      } else {
        flow, disk := None, map[];
      }
      ghost var goal := FlowFrom(fuel, world, segments, startIdx, restart, View());
      var i := startIdx;
      while i < |segments|
        invariant startIdx <= i && (i > startIdx ==> !first)
        invariant FlowFrom(fuel, world, segments, i, first, View()) == goal
        decreases |segments| - i
      {
        code := ExecuteSinglePipeline(fuel, i, first);
        if code.None? {
          return;
        }
        if code.value == 3 {
          SaveFlowCheckpoint(i + 1);
          return;
        }
        if code.value != 0 {
          SaveFlowCheckpoint(i);
          return;
        }
        SaveFlowCheckpoint(i + 1);
        if i == startIdx {
          first := false;
        }
        var stop := world.stop(tick);
        tick := tick + 1;
        if stop {
          return Some(3);
        }
        i := i + 1;
      }
      flow := None;
      return Some(0);
    }
  }

  // ---------------------------------------------------------------------
  // What a flow has to do
  // ---------------------------------------------------------------------

  /** Every non-skipped step of the first `n` segments, in order. */
  function AllWanted(segs: seq<Segment>, n: nat): seq<Tagged>
    requires n <= |segs|
  {
    if n == 0 then [] else AllWanted(segs, n - 1) + Tag(n - 1, Wanted(segs[n - 1].elements))
  }

  /** Segments without top-level conditions, and enough fuel to visit all their elements. */
  ghost predicate PlainFlow(segs: seq<Segment>, fuel: nat) {
    forall i :: 0 <= i < |segs| ==>
      && Gateless(segs[i].elements) && segs[i].path != "" && segs[i].subResume == "" && |segs[i].elements| <= fuel
  }

  function File(seg: Segment): string {
    CheckpointPath(seg.path)
  }

  /** A stop inside its loops can complete the segment without its having touched the checkpoint file. */
  predicate Silent(seg: Segment) {
    Wanted(seg.elements) == [] && HasBusyLoop(seg.elements)
  }

  /** A checkpoint can stay in the file from segment `i` to segment `j`. */
  predicate Passes(segs: seq<Segment>, i: nat, j: nat, file: string)
    requires j <= |segs|
  {
    forall m :: i < m < j && File(segs[m]) == file ==> Silent(segs[m])
  }

  /**
   A checkpoint that segment `i` leaves can stay until segment `j`, which
   takes it for its own and wants one of the steps.
   */
  ghost predicate TakesOver(segs: seq<Segment>, i: nat, j: nat) {
    && i < j < |segs| && Passes(segs, i, j, File(segs[j]))
    && segs[i].path == segs[j].path && SameVars(segs[i].resolved, segs[j].resolved)
    && exists x :: x in Wanted(segs[i].elements) && x in Wanted(segs[j].elements)
  }

  ghost predicate NoTakeover(segs: seq<Segment>) {
    forall i, j :: !TakesOver(segs, i, j)
  }

  /** The file still holds what segment `o` left when it was complete. */
  ghost predicate Leftover(segs: seq<Segment>, o: nat, i: nat, file: string, disk: map<string, Checkpoint>) {
    && o < i <= |segs| && File(segs[o]) == file && Passes(segs, o, i, file)
    && Own(SetupOf(segs[o], false), disk, Wanted(segs[o].elements))
  }

  /** Why a file is on the disk when `k` wanted steps of segment `i` are done. */
  ghost predicate Explained(segs: seq<Segment>, i: nat, k: nat, f: FlowState, file: string) {
    || (i < |segs| && k <= |Wanted(segs[i].elements)| && File(segs[i]) == file
        && Own(SetupOf(segs[i], false), f.disk, Wanted(segs[i].elements)[..k]))
    || (f.three && exists o :: Leftover(segs, o, i, file, f.disk))
  }

  /** After `k` wanted steps of segment `i`; checkpoints on the disk are its own or left by completed segments. */
  ghost predicate Tracks(segs: seq<Segment>, i: nat, k: nat, f: FlowState) {
    && i <= |segs|
    && (i == |segs| ==> k == 0)
    && (i < |segs| ==>
          && k <= |Wanted(segs[i].elements)|
          && (k > 0 ==> Own(SetupOf(segs[i], false), f.disk, Wanted(segs[i].elements)[..k])))
    && f.history == AllWanted(segs, i) + (if i < |segs| then Tag(i, Wanted(segs[i].elements)[..k]) else [])
    && forall l :: i <= l < |segs| && File(segs[l]) in f.disk ==> Explained(segs, i, k, f, File(segs[l]))
  }

  lemma NoSuccesses(names: seq<string>)
    ensures Successes(names, []) == []
  {
  }

  lemma {:induction false} OfConcat(a: seq<Tagged>, b: seq<Tagged>, i: nat)
    ensures Of(a + b, i) == Of(a, i) + Of(b, i)
  {
    if a == [] {
      assert a + b == b;
    } else {
      assert (a + b)[0] == a[0] && (a + b)[1..] == a[1..] + b;
      OfConcat(a[1..], b, i);
    }
  }

  lemma {:induction false} OfTag(i: nat, j: nat, steps: seq<string>)
    ensures Of(Tag(i, steps), j) == if i == j then steps else []
  {
    if steps != [] {
      OfTag(i, j, steps[1..]);
      assert Tag(i, steps)[1..] == Tag(i, steps[1..]);
      assert steps == [steps[0]] + steps[1..];
    }
  }

  lemma {:induction false} OfAllWanted(segs: seq<Segment>, n: nat, i: nat)
    requires n <= |segs|
    ensures i < n ==> Of(AllWanted(segs, n), i) == Wanted(segs[i].elements)
    ensures i >= n ==> Of(AllWanted(segs, n), i) == []
    decreases n
  {
    hide Wanted, Tag;
    if n > 0 {
      OfAllWanted(segs, n - 1, i);
      OfConcat(AllWanted(segs, n - 1), Tag(n - 1, Wanted(segs[n - 1].elements)), i);
      OfTag(n - 1, i, Wanted(segs[n - 1].elements));
    }
  }

  lemma NoDone(seg: Segment, s: State)
    requires File(seg) !in s.disk
    ensures Done(SetupOf(seg, false), s) == []
  {
  }

  /** What another segment left: it matches, or nothing is done. */
  lemma DoneByOther(seg: Segment, other: Segment, list: seq<string>, s: State)
    requires File(seg) == File(other) && Own(SetupOf(other, false), s.disk, list)
    ensures var done := Done(SetupOf(seg, false), s);
            if other.path == seg.path && SameVars(other.resolved, seg.resolved) then done == list else done == []
  {
    hide CheckpointPath, SameVars;
  }

  /** The steps of segment `i` that its next run skips are those it has done. */
  lemma SkipsItsOwn(segs: seq<Segment>, i: nat, k: nat, f: FlowState, fuel: nat)
    requires PlainFlow(segs, fuel) && i < |segs| && Tracks(segs, i, k, f) && (NoTakeover(segs) || !f.three)
    ensures Marks(Done(SetupOf(segs[i], false), State(f.tick, [], f.disk)), Wanted(segs[i].elements), k)
  {
    hide Done, File, Wanted, AllWanted, StepNames, HasBusyLoop, Own, SameVars;
    var u, s, wanted := SetupOf(segs[i], false), State(f.tick, [], f.disk), Wanted(segs[i].elements);
    WantedAreNames(segs[i].elements);
    DistinctMarks(wanted, k);
    OwnIsDone(u, s, wanted[..k]);
    if File(segs[i]) !in f.disk {
      NoDone(segs[i], s);
    } else if !Own(u, f.disk, wanted[..k]) {
      var o: nat :| Leftover(segs, o, i, File(segs[i]), f.disk);
      assert !TakesOver(segs, o, i);
      DoneByOther(segs[i], segs[o], Wanted(segs[o].elements), s);
    }
  }

  /** A run of segment `i` from a tracked state. */
  lemma SegmentAdvances(fuel: nat, w: World, segs: seq<Segment>, i: nat, k: nat, f: FlowState) returns (k': nat)
    requires PlainFlow(segs, fuel) && i < |segs| && Tracks(segs, i, k, f) && (NoTakeover(segs) || !f.three)
    ensures var u, wanted := SetupOf(segs[i], false), Wanted(segs[i].elements);
            var (code, t) := RunMeaning(fuel, w, u, State(f.tick, [], f.disk));
            var f1 := AfterSegment(segs, i, code, t, f);
            && code.Some? && k <= k' <= |wanted|
            && f1.history == AllWanted(segs, i) + Tag(i, wanted[..k'])
            && (f1.cut <==> f.cut || (code == Some(3) && k' < |wanted|))
            && (f1.limited <==> f.limited || (code == Some(2) && HasBusyLoop(segs[i].elements)))
            && OthersKept(u, State(f.tick, [], f.disk), t)
            && if code == Some(0) then k' == |wanted| && File(segs[i]) !in t.disk
               else
                 || Own(u, t.disk, wanted[..k'])
                 || (t.disk == f.disk && k' == k && (code == Some(3) ==> HasBusyLoop(segs[i].elements)))
                 || (code == Some(2) && HasBusyLoop(segs[i].elements))
  {
    hide RunMeaning, Done, CheckpointPath, Wanted, AllWanted, StepNames, OthersKept, Own, HasBusyLoop, NoTakeover, Explained;
    hide Successes, Marks, Of, SameVars, Tag, Distinct;
    var u, s := SetupOf(segs[i], false), State(f.tick, [], f.disk);
    var wanted := Wanted(segs[i].elements);
    EnoughFuel(fuel, w, u, s);
    SkipsItsOwn(segs, i, k, f, fuel);
    k' := Attempt(w, u, k, s);
    var (code, t) := RunMeaning(fuel, w, u, s);
    NoSuccesses(wanted);
    assert Successes(wanted, t.trace) == wanted[k..k'];
    TagSplit(i, wanted, k, k');
    assert f.history + Tag(i, wanted[k..k']) == AllWanted(segs, i) + Tag(i, wanted[..k']);
    HistoryOf(segs, i, wanted[..k']);
  }

  lemma TagSplit(i: nat, steps: seq<string>, k: nat, k': nat)
    requires k <= k' <= |steps|
    ensures Tag(i, steps[..k]) + Tag(i, steps[k..k']) == Tag(i, steps[..k'])
  {
  }

  lemma EnoughFuel(fuel: nat, w: World, u: Setup, s: State)
    requires Gateless(u.elements) && |u.elements| <= fuel
    ensures RunMeaning(fuel, w, u, s) == RunMeaning(|u.elements|, w, u, s)
  {
    hide StepNames;
    ForwardPipelinesTerminate(w, u, s, fuel);
  }

  lemma HistoryOf(segs: seq<Segment>, i: nat, steps: seq<string>)
    requires i < |segs|
    ensures Of(AllWanted(segs, i) + Tag(i, steps), i) == steps
  {
    OfConcat(AllWanted(segs, i), Tag(i, steps), i);
    OfAllWanted(segs, i, i);
    OfTag(i, i, steps);
  }

  predicate SameFile(a: map<string, Checkpoint>, b: map<string, Checkpoint>, file: string) {
    (file in a <==> file in b) && (file in a ==> a[file] == b[file])
  }

  /** Files of other pipelines stay as they were. */
  lemma OthersKeptFile(u: Setup, s: State, t: State, file: string)
    requires OthersKept(u, s, t) && file != CheckpointPath(u.pipelineName)
    ensures SameFile(s.disk, t.disk, file)
  {
    hide CheckpointPath;
    var own := CheckpointPath(u.pipelineName);
    assert file in s.disk <==> file in s.disk - {own};
    assert file in t.disk <==> file in t.disk - {own};
    assert file in s.disk ==> s.disk[file] == (s.disk - {own})[file] == (t.disk - {own})[file] == t.disk[file];
  }

  /** So does who left them. */
  lemma LeftoverKept(segs: seq<Segment>, o: nat, i: nat, u: Setup, s: State, t: State, file: string)
    requires OthersKept(u, s, t) && file != CheckpointPath(u.pipelineName)
    ensures file in s.disk <==> file in t.disk
    ensures Leftover(segs, o, i, file, s.disk) <==> Leftover(segs, o, i, file, t.disk)
  {
    hide CheckpointPath, Wanted, Passes;
    OthersKeptFile(u, s, t, file);
  }

  /** Segment `i` is complete: its file is gone, or it is what a stop has left. */
  lemma NextSegment(segs: seq<Segment>, i: nat, k: nat, f: FlowState, t: State, g: FlowState)
    requires i < |segs| && Tracks(segs, i, k, f) && OthersKept(SetupOf(segs[i], false), State(f.tick, [], f.disk), t)
    requires g.disk == t.disk && (f.three ==> g.three)
    requires g.history == AllWanted(segs, i) + Tag(i, Wanted(segs[i].elements))
    requires
      || File(segs[i]) !in g.disk
      || (g.three && Own(SetupOf(segs[i], false), g.disk, Wanted(segs[i].elements)))
      || (g.three && g.disk == f.disk && k == |Wanted(segs[i].elements)| && HasBusyLoop(segs[i].elements))
    ensures Tracks(segs, i + 1, 0, g)
  {
    hide Wanted, CheckpointPath, OthersKept, Own, HasBusyLoop, Explained;
    assert AllWanted(segs, i + 1) == g.history;
    assert g.history + [] == g.history;
    assert i + 1 < |segs| ==> Tag(i + 1, Wanted(segs[i + 1].elements)[..0]) == [];
    forall l | i + 1 <= l < |segs| && File(segs[l]) in g.disk
      ensures Explained(segs, i + 1, 0, g, File(segs[l]))
    {
      LeftBehind(segs, i, k, f, t, g, l);
    }
  }

  /** What is in a file after segment `i`. */
  lemma LeftBehind(segs: seq<Segment>, i: nat, k: nat, f: FlowState, t: State, g: FlowState, l: nat)
    requires i < l < |segs| && Tracks(segs, i, k, f) && OthersKept(SetupOf(segs[i], false), State(f.tick, [], f.disk), t)
    requires g.disk == t.disk && (f.three ==> g.three) && File(segs[l]) in g.disk
    requires
      || File(segs[i]) !in g.disk
      || (g.three && Own(SetupOf(segs[i], false), g.disk, Wanted(segs[i].elements)))
      || (g.three && g.disk == f.disk && k == |Wanted(segs[i].elements)| && HasBusyLoop(segs[i].elements))
    ensures Explained(segs, i + 1, 0, g, File(segs[l]))
  {
    hide Wanted, CheckpointPath, OthersKept, Own, HasBusyLoop, AllWanted, Tag, Passes;
    var u, s, file := SetupOf(segs[i], false), State(f.tick, [], f.disk), File(segs[l]);
    PassesNone(segs, i, file);
    if file == File(segs[i]) && Own(u, g.disk, Wanted(segs[i].elements)) {
      assert Leftover(segs, i, i + 1, file, g.disk);
    } else {
      if file == File(segs[i]) {
        assert Wanted(segs[i].elements)[..k] == Wanted(segs[i].elements);
      } else {
        LeftoverKept(segs, i, i, u, s, t, file);
      }
      assert Explained(segs, i, k, f, file);
      var o: nat :| Leftover(segs, o, i, file, f.disk);
      if file != File(segs[i]) {
        LeftoverKept(segs, o, i, u, s, t, file);
      }
      PassesOn(segs, o, i, file);
      assert Leftover(segs, o, i + 1, file, g.disk);
    }
  }

  lemma PassesNone(segs: seq<Segment>, i: nat, file: string)
    requires i < |segs|
    ensures Passes(segs, i, i + 1, file)
  {
    hide File, Silent;
  }

  lemma PassesOn(segs: seq<Segment>, o: nat, i: nat, file: string)
    requires o < i < |segs| && Passes(segs, o, i, file) && (File(segs[i]) == file ==> Silent(segs[i]))
    ensures Passes(segs, o, i + 1, file)
  {
    hide File, Silent;
  }

  /** Segment `i` has to be run again. */
  lemma SameSegment(segs: seq<Segment>, i: nat, k: nat, f: FlowState, t: State, k': nat, g: FlowState)
    requires i < |segs| && Tracks(segs, i, k, f) && OthersKept(SetupOf(segs[i], false), State(f.tick, [], f.disk), t)
    requires g.disk == t.disk && (f.three ==> g.three) && k' <= |Wanted(segs[i].elements)|
    requires g.history == AllWanted(segs, i) + Tag(i, Wanted(segs[i].elements)[..k'])
    requires Own(SetupOf(segs[i], false), t.disk, Wanted(segs[i].elements)[..k']) || (t.disk == f.disk && k' == k)
    ensures Tracks(segs, i, k', g)
  {
    hide Wanted, CheckpointPath, OthersKept, Own, AllWanted;
    var u, s := SetupOf(segs[i], false), State(f.tick, [], f.disk);
    forall l | i <= l < |segs| && File(segs[l]) in g.disk
      ensures Explained(segs, i, k', g, File(segs[l]))
    {
      var file := File(segs[l]);
      if file != File(segs[i]) {
        LeftoverKept(segs, i, i, u, s, t, file);
        assert Explained(segs, i, k, f, file);
        var o: nat :| Leftover(segs, o, i, file, f.disk);
        LeftoverKept(segs, o, i, u, s, t, file);
      }
    }
  }

  // ---------------------------------------------------------------------
  // One attempt
  // ---------------------------------------------------------------------

  /** A segment was left with steps to do: no later attempt will come back to it. */
  ghost predicate Lost(segs: seq<Segment>, f: FlowState, i: nat, k: nat) {
    && i < |segs| && k < |Wanted(segs[i].elements)|
    && |f.history| >= |AllWanted(segs, i)| + k
    && f.history[..|AllWanted(segs, i)| + k] == AllWanted(segs, i) + Tag(i, Wanted(segs[i].elements)[..k])
    && forall n :: |AllWanted(segs, i)| + k <= n < |f.history| ==> f.history[n].segment > i
  }

  lemma {:induction false} AllWantedPrefix(segs: seq<Segment>, i: nat, n: nat)
    requires i <= n <= |segs|
    ensures |AllWanted(segs, i)| <= |AllWanted(segs, n)| && AllWanted(segs, n)[..|AllWanted(segs, i)|] == AllWanted(segs, i)
    decreases n
  {
    if i < n {
      AllWantedPrefix(segs, i, n - 1);
    }
  }

  /** After a loss the history is never the wanted one. */
  lemma LostIsNotExact(segs: seq<Segment>, f: FlowState, i: nat, k: nat)
    requires Lost(segs, f, i, k)
    ensures f.history != AllWanted(segs, |segs|)
  {
    AllWantedPrefix(segs, i + 1, |segs|);
    var all, before, n := AllWanted(segs, |segs|), AllWanted(segs, i), |AllWanted(segs, i)| + k;
    assert AllWanted(segs, i + 1)[n] == Tagged(i, Wanted(segs[i].elements)[k]);
    assert all[..|AllWanted(segs, i + 1)|][n] == all[n];
  }

  /** The next attempt starts at the segment the last one left off. */
  ghost predicate StartsAt(segs: seq<Segment>, f: FlowState, i: nat) {
    f.flow == Some(FlowCheckpoint(States(segs), i)) || (f.flow == None && i == 0)
  }

  lemma StartIndexIs(segs: seq<Segment>, f: FlowState, i: nat)
    requires StartsAt(segs, f, i)
    ensures StartIndex(segs, f) == i
  {
  }

  /** What an attempt leaves behind when nothing has been lost in it. */
  ghost predicate OnTrack(segs: seq<Segment>, code: Option<int>, f: FlowState, i: nat, k: nat) {
    if code == Some(0) then f.history == AllWanted(segs, |segs|)
    else Tracks(segs, i, k, f) && StartsAt(segs, f, i)
  }

  lemma {:induction false} FlowAttempt(fuel: nat, w: World, segs: seq<Segment>, i: nat, k: nat, f: FlowState)
    returns (i': nat, k': nat)
    requires PlainFlow(segs, fuel) && Tracks(segs, i, k, f) && !f.cut && !f.limited && (NoTakeover(segs) || !f.three)
    ensures var (code, g) := FlowFrom(fuel, w, segs, i, false, f);
            && code.Some? && (f.three ==> g.three) && (g.cut ==> g.three)
            && (g.cut ==> Lost(segs, g, i', k') && StartsAt(segs, g, i' + 1) && code == Some(3))
            && (!g.cut && !g.limited ==> OnTrack(segs, code, g, i', k'))
    decreases |segs| - i
  {
    hide RunMeaning, Done, File, Wanted, HasBusyLoop, StepNames, AllWanted, AfterSegment, OthersKept, Own, Explained, NoTakeover;
    if i == |segs| {
      i', k' := i, 0;
      assert AllWanted(segs, i) + [] == AllWanted(segs, i);
      return;
    }
    var (code, t) := RunMeaning(fuel, w, SetupOf(segs[i], false), State(f.tick, [], f.disk));
    var f1 := AfterSegment(segs, i, code, t, f);
    var wanted := Wanted(segs[i].elements);
    k' := SegmentAdvances(fuel, w, segs, i, k, f);
    AfterIs(segs, i, code, t, f);
    assert wanted[..|wanted|] == wanted;
    i' := i;
    if code == Some(3) && k' < |wanted| {
      StoppedEarly(segs, i, k', f1);
    } else if code == Some(3) {
      NextSegment(segs, i, k, f, t, SavedFlow(segs, i + 1, f1));
      i', k' := i + 1, 0;
    } else if code == Some(0) {
      var f2 := SavedFlow(segs, i + 1, f1).(tick := f1.tick + 1);
      NextSegment(segs, i, k, f, t, f2);
      i', k' := i + 1, 0;
      if !w.stop(f1.tick) {
        i', k' := FlowAttempt(fuel, w, segs, i + 1, 0, f2);
      }
    } else if !f1.limited {
      SameSegment(segs, i, k, f, t, k', SavedFlow(segs, i, f1));
    }
  }

  lemma AfterIs(segs: seq<Segment>, i: nat, code: Option<int>, t: State, f: FlowState)
    requires i < |segs|
    ensures var f1 := AfterSegment(segs, i, code, t, f);
            && f1.tick == t.tick && f1.disk == t.disk && f1.flow == f.flow && (f1.three <==> f.three || code == Some(3))
  {
  }

  /** A segment run that returned 3 with steps to do: they are lost. */
  lemma StoppedEarly(segs: seq<Segment>, i: nat, done: nat, f1: FlowState)
    requires i < |segs| && done < |Wanted(segs[i].elements)|
    requires f1.history == AllWanted(segs, i) + Tag(i, Wanted(segs[i].elements)[..done])
    ensures var g := SavedFlow(segs, i + 1, f1);
            StartsAt(segs, g, i + 1) && Lost(segs, g, i, done)
  {
  }

  /** Attempts after a loss only add steps of later segments. */
  lemma {:induction false} LostStaysLost(fuel: nat, w: World, segs: seq<Segment>, n: nat, f: FlowState, i: nat, k: nat)
    returns (m: nat)
    requires Lost(segs, f, i, k) && i < n && StartsAt(segs, f, n)
    ensures var (code, g) := FlowFrom(fuel, w, segs, n, false, f);
            && Lost(segs, g, i, k)
            && (code != Some(0) ==> i < m && StartsAt(segs, g, m))
    decreases |segs| - n
  {
    hide RunMeaning, Successes, Wanted, AllWanted;
    m := n;
    if n < |segs| {
      var (code, t) := RunMeaning(fuel, w, SetupOf(segs[n], false), State(f.tick, [], f.disk));
      var f1 := AfterSegment(segs, n, code, t, f);
      assert Lost(segs, f1, i, k);
      if code == Some(0) {
        var f2 := SavedFlow(segs, n + 1, f1).(tick := f1.tick + 1);
        m := n + 1;
        if !w.stop(f1.tick) {
          m := LostStaysLost(fuel, w, segs, n + 1, f2, i, k);
        }
      } else if code == Some(3) {
        m := n + 1;
      }
    }
  }

  /** What has happened is not forgotten, and a cut is always one by a run that returned 3. */
  lemma {:induction false} FlagsOnlyRise(fuel: nat, w: World, segs: seq<Segment>, i: nat, f: FlowState)
    ensures var g := FlowFrom(fuel, w, segs, i, false, f).1;
            && (f.three ==> g.three) && (f.cut ==> g.cut) && (f.limited ==> g.limited)
            && ((f.cut ==> f.three) ==> (g.cut ==> g.three))
    decreases |segs| - i
  {
    hide RunMeaning, Successes, Wanted, HasBusyLoop;
    if i < |segs| {
      var (code, t) := RunMeaning(fuel, w, SetupOf(segs[i], false), State(f.tick, [], f.disk));
      var f1 := AfterSegment(segs, i, code, t, f);
      if code == Some(0) && !w.stop(f1.tick) {
        FlagsOnlyRise(fuel, w, segs, i + 1, SavedFlow(segs, i + 1, f1).(tick := f1.tick + 1));
      }
    }
  }

  // ---------------------------------------------------------------------
  // Any number of attempts
  // ---------------------------------------------------------------------

  /** Attempts without --restart; every one but the last ends with a code other than 0. */
  predicate TriedAgain(ws: seq<World>, fuel: nat, segs: seq<Segment>, f: FlowState)
    decreases |ws|
  {
    |ws| <= 1 ||
    (FlowMeaning(fuel, ws[0], segs, false, f).0 != Some(0) &&
     TriedAgain(ws[1..], fuel, segs, FlowMeaning(fuel, ws[0], segs, false, f).1))
  }

  function Attempts(ws: seq<World>, fuel: nat, segs: seq<Segment>, f: FlowState): (Option<int>, FlowState)
    requires ws != []
    decreases |ws|
  {
    var (code, g) := FlowMeaning(fuel, ws[0], segs, false, f);
    if |ws| == 1 then (code, g) else Attempts(ws[1..], fuel, segs, g)
  }

  /** A first attempt: no flow checkpoint and no checkpoint file of any segment. */
  predicate Fresh(segs: seq<Segment>, f: FlowState) {
    && f.flow == None && f.history == [] && !f.three && !f.cut && !f.limited
    && forall i :: 0 <= i < |segs| ==> File(segs[i]) !in f.disk
  }

  lemma FreshTracks(segs: seq<Segment>, f: FlowState)
    requires Fresh(segs, f)
    ensures Tracks(segs, 0, 0, f) && StartsAt(segs, f, 0)
  {
  }

  lemma {:induction false} FlagsOnlyRiseOverAttempts(ws: seq<World>, fuel: nat, segs: seq<Segment>, f: FlowState)
    requires ws != [] && (f.cut ==> f.three)
    ensures var g := Attempts(ws, fuel, segs, f).1;
            (f.three ==> g.three) && (f.cut ==> g.cut) && (f.limited ==> g.limited) && (g.cut ==> g.three)
    decreases |ws|
  {
    hide FlowFrom, StartIndex;
    FlagsOnlyRise(fuel, ws[0], segs, StartIndex(segs, f), f);
    if |ws| > 1 {
      FlagsOnlyRiseOverAttempts(ws[1..], fuel, segs, FlowMeaning(fuel, ws[0], segs, false, f).1);
    }
  }

  /** Without busy loops no segment run counts as limited. */
  lemma {:induction false} OnlyBusyLoopsAreLimited(ws: seq<World>, fuel: nat, segs: seq<Segment>, f: FlowState)
    requires ws != [] && !f.limited && forall i :: 0 <= i < |segs| ==> !HasBusyLoop(segs[i].elements)
    ensures !Attempts(ws, fuel, segs, f).1.limited
    decreases |ws|
  {
    hide FlowFrom, StartIndex, HasBusyLoop;
    AttemptNotLimited(fuel, ws[0], segs, StartIndex(segs, f), f);
    if |ws| > 1 {
      OnlyBusyLoopsAreLimited(ws[1..], fuel, segs, FlowMeaning(fuel, ws[0], segs, false, f).1);
    }
  }

  lemma {:induction false} AttemptNotLimited(fuel: nat, w: World, segs: seq<Segment>, i: nat, f: FlowState)
    requires !f.limited && forall i :: 0 <= i < |segs| ==> !HasBusyLoop(segs[i].elements)
    ensures !FlowFrom(fuel, w, segs, i, false, f).1.limited
    decreases |segs| - i
  {
    hide RunMeaning, Successes, Wanted, HasBusyLoop;
    if i < |segs| {
      var (code, t) := RunMeaning(fuel, w, SetupOf(segs[i], false), State(f.tick, [], f.disk));
      var f1 := AfterSegment(segs, i, code, t, f);
      if code == Some(0) && !w.stop(f1.tick) {
        AttemptNotLimited(fuel, w, segs, i + 1, SavedFlow(segs, i + 1, f1).(tick := f1.tick + 1));
      }
    }
  }

  lemma {:induction false} LostForGood(ws: seq<World>, fuel: nat, segs: seq<Segment>, n: nat, f: FlowState, i: nat, k: nat)
    requires ws != [] && Lost(segs, f, i, k) && i < n && StartsAt(segs, f, n) && TriedAgain(ws, fuel, segs, f)
    ensures Lost(segs, Attempts(ws, fuel, segs, f).1, i, k)
    decreases |ws|
  {
    hide FlowFrom, Lost, StartIndex, StartsAt;
    StartIndexIs(segs, f, n);
    var m := LostStaysLost(fuel, ws[0], segs, n, f, i, k);
    if |ws| > 1 {
      LostForGood(ws[1..], fuel, segs, m, FlowMeaning(fuel, ws[0], segs, false, f).1, i, k);
    }
  }

  lemma {:induction false} AttemptsTrack(ws: seq<World>, fuel: nat, segs: seq<Segment>, i: nat, k: nat, f: FlowState)
    returns (i': nat, k': nat)
    requires ws != [] && PlainFlow(segs, fuel) && TriedAgain(ws, fuel, segs, f)
    requires Tracks(segs, i, k, f) && StartsAt(segs, f, i) && !f.cut && !Attempts(ws, fuel, segs, f).1.limited
    requires NoTakeover(segs) || !Attempts(ws, fuel, segs, f).1.three
    ensures var (code, g) := Attempts(ws, fuel, segs, f);
            if g.cut then Lost(segs, g, i', k') else OnTrack(segs, code, g, i', k')
    decreases |ws|
  {
    hide FlowFrom, Lost, Tracks, StartsAt, StartIndex, PlainFlow, NoTakeover, AllWanted;
    StartIndexIs(segs, f, i);
    FlagsOnlyRiseOverAttempts(ws, fuel, segs, f);
    i', k' := FlowAttempt(fuel, ws[0], segs, i, k, f);
    var (code, g) := FlowMeaning(fuel, ws[0], segs, false, f);
    if |ws| > 1 {
      FlagsOnlyRiseOverAttempts(ws[1..], fuel, segs, g);
      if g.cut {
        LostForGood(ws[1..], fuel, segs, i' + 1, g, i', k');
      } else {
        i', k' := AttemptsTrack(ws[1..], fuel, segs, i', k', g);
      }
    }
  }

  /**
   A flow of plain pipelines, over any number of attempts ending in 0: as long
   as no segment run returns 3 and none with a busy loop is rate-limited, each
   non-skipped step of every segment has succeeded exactly once, in order.
   */
  lemma FlowResumeIsExact(ws: seq<World>, fuel: nat, segs: seq<Segment>, f: FlowState)
    requires ws != [] && PlainFlow(segs, fuel) && Fresh(segs, f) && TriedAgain(ws, fuel, segs, f)
    requires var (code, g) := Attempts(ws, fuel, segs, f); code == Some(0) && !g.three && !g.limited
    ensures Attempts(ws, fuel, segs, f).1.history == AllWanted(segs, |segs|)
  {
    FreshTracks(segs, f);
    FlagsOnlyRiseOverAttempts(ws, fuel, segs, f);
    var i, k := AttemptsTrack(ws, fuel, segs, 0, 0, f);
  }

  /**
   When no segment takes over the leftover of another and none with a busy
   loop is rate-limited, a flow that ends in 0 has done exactly its steps if
   and only if no segment run returned 3 with steps of the segment still to do.
   */
  lemma FlowIsExactIffNothingCut(ws: seq<World>, fuel: nat, segs: seq<Segment>, f: FlowState)
    requires ws != [] && PlainFlow(segs, fuel) && Fresh(segs, f) && TriedAgain(ws, fuel, segs, f)
    requires NoTakeover(segs)
    requires var (code, g) := Attempts(ws, fuel, segs, f); code == Some(0) && !g.limited
    ensures var g := Attempts(ws, fuel, segs, f).1;
            g.history == AllWanted(segs, |segs|) <==> !g.cut
  {
    FreshTracks(segs, f);
    var i, k := AttemptsTrack(ws, fuel, segs, 0, 0, f);
    var g := Attempts(ws, fuel, segs, f).1;
    if g.cut {
      LostIsNotExact(segs, g, i, k);
    }
  }

  // ---------------------------------------------------------------------
  // Where a flow loses steps
  // ---------------------------------------------------------------------

  const FRESH := FlowState(0, map[], None, [], false, false, false)

  function Pipeline(path: string, steps: seq<Element>): Segment {
    Segment(path, map[], map[], steps, "")
  }

  /** A run whose first step ends it with code 3, either by failing or by a graceful stop after it. */
  lemma EndsWithThree(fuel: nat, w: World, u: Setup, s: State, names: seq<string>) returns (t: State)
    requires fuel > 0 && u.elements != [] && u.elements[0] == Command("x") && u.pipelineName != ""
    requires !u.restart && u.subResume == "" && CheckpointPath(u.pipelineName) !in s.disk && s.trace == [] && "x" in names
    requires var r := w.run(s.tick, u.elements[0].step);
             !r.failed && ((r.exitCode == 3 && !w.rateLimited(r.output)) || (r.exitCode == 0 && w.stop(s.tick + 1)))
    ensures RunMeaning(fuel, w, u, s) == (Some(3), t)
    ensures var ok := w.run(s.tick, u.elements[0].step).exitCode == 0;
            && Successes(names, t.trace) == (if ok then ["x"] else [])
            && (ok ==> t.tick == s.tick + 2 && Own(u, t.disk, ["x"]))
  {
    hide CheckpointPath, Successes;
    var step := u.elements[0].step;
    t := StepMove(w, u, 0, [], step, s).1;
    Executes(fuel, w, u, None, 0, [], s);
    SuccessesAppend(names, [], Exec("x", w.run(s.tick, step)));
    NoSuccesses(names);
    assert [] + [Exec("x", w.run(s.tick, step))] == t.trace;
    assert [] + ["x"] == ["x"];
  }

  lemma TwoAttempts(w1: World, w2: World, fuel: nat, segs: seq<Segment>, f1: FlowState, n: nat, f2: FlowState)
    requires FlowFrom(fuel, w1, segs, 0, false, FRESH) == (Some(3), f1)
    requires StartIndex(segs, f1) == n && FlowFrom(fuel, w2, segs, n, false, f1) == (Some(0), f2)
    ensures TriedAgain([w1, w2], fuel, segs, FRESH) && Attempts([w1, w2], fuel, segs, FRESH) == (Some(0), f2)
  {
  }

  /** A step that fails with exit code 3 is taken for a graceful stop: the flow then ends in 0 with nothing done. */
  lemma FailureWithCodeThreeLosesSteps(path: string) returns (ws: seq<World>, segs: seq<Segment>)
    requires path != ""
    ensures |segs| == 1 && |ws| == 2 && PlainFlow(segs, 2) && NoTakeover(segs) && Fresh(segs, FRESH)
    ensures TriedAgain(ws, 2, segs, FRESH) && Attempts(ws, 2, segs, FRESH).0 == Some(0)
    ensures Attempts(ws, 2, segs, FRESH).1.history == [] && |AllWanted(segs, 1)| == 2
    ensures forall n :: !ws[0].stop(n)
  {
    hide CheckpointPath, RunMeaning, Successes, AllWanted, Wanted, Of, Own, StartIndex, HasBusyLoop, Distinct, StepNames;
    var w := World((n, step) => StepResult("", 3, false), (n, c, input) => None, n => false, output => false);
    var es := [Command("x"), Command("y")];
    ws, segs := [w, w], [Pipeline(path, es)];
    TwoStepsWanted(segs);
    TwoStepsPlain(es);
    var t := EndsWithThree(2, w, SetupOf(segs[0], false), State(0, [], map[]), ["x", "y"]);
    assert Tag(0, []) == [];
    var f1 := SavedFlow(segs, 1, AfterSegment(segs, 0, Some(3), t, FRESH));
    assert FlowFrom(2, w, segs, 0, false, FRESH) == (Some(3), f1);
    StartIndexIs(segs, f1, 1);
    TwoAttempts(w, w, 2, segs, f1, 1, f1.(flow := None));
  }

  lemma TwoStepsPlain(es: seq<Element>)
    requires es == [Command("x"), Command("y")]
    ensures Gateless(es) && !HasBusyLoop(es)
  {
    NamesStep(es);
    NamesOfOne(es[0]);
    NamesOfOne(es[1]);
    assert es[1..] == [es[1]];
  }

  lemma {:induction false} TwoStepsWanted(segs: seq<Segment>)
    requires |segs| == 1 && segs[0].elements == [Command("x"), Command("y")]
    ensures Wanted(segs[0].elements) == ["x", "y"] && |AllWanted(segs, 1)| == 2
  {
    var es := segs[0].elements;
    assert es[1..] == [Command("y")] && Wanted([Command("y")]) == ["y"] && Wanted(es) == ["x", "y"];
    assert AllWanted(segs, 0) == [];
  }

  /** A graceful stop after the last step leaves the checkpoint behind: the same pipeline, met again, is skipped. */
  lemma RepeatedPipelineIsSkipped(path: string) returns (ws: seq<World>, segs: seq<Segment>)
    requires path != ""
    ensures |segs| == 2 && |ws| == 2 && PlainFlow(segs, 1) && Fresh(segs, FRESH)
    ensures TriedAgain(ws, 1, segs, FRESH) && Attempts(ws, 1, segs, FRESH).0 == Some(0)
    ensures var g := Attempts(ws, 1, segs, FRESH).1;
            !g.cut && g.history == [Tagged(0, "x")] && AllWanted(segs, 2) == [Tagged(0, "x"), Tagged(1, "x")]
  {
    hide CheckpointPath, RunMeaning, Successes;
    var w := World((n, step) => StepResult("", 0, false), (n, c, input) => None, n => n == 1, output => false);
    var seg := Pipeline(path, [Command("x")]);
    ws, segs := [w, w], [seg, seg];
    OneStepWanted(segs, seg);
    var t := EndsWithThree(1, w, SetupOf(seg, false), State(0, [], map[]), ["x"]);
    var f1 := SavedFlow(segs, 1, AfterSegment(segs, 0, Some(3), t, FRESH));
    hide Wanted, Of, AllWanted;
    assert [] + Tag(0, ["x"]) == [Tagged(0, "x")];
    assert FlowFrom(1, w, segs, 0, false, FRESH) == (Some(3), f1);
    StartIndexIs(segs, f1, 1);
    OwnIsDone(SetupOf(seg, false), State(2, [], f1.disk), ["x"]);
    SecondIsSkipped(w, segs, seg, f1);
    TwoAttempts(w, w, 1, segs, f1, 1, FlowFrom(1, w, segs, 1, false, f1).1);
  }

  lemma {:induction false} OneStepWanted(segs: seq<Segment>, seg: Segment)
    requires seg.elements == [Command("x")] && segs == [seg, seg]
    ensures Wanted(seg.elements) == ["x"] && Of([Tagged(0, "x")], 0) == ["x"]
    ensures AllWanted(segs, 2) == [Tagged(0, "x"), Tagged(1, "x")]
  {
    assert [Command("x")][1..] == [] && [Tagged(0, "x")][1..] == [];
    assert Wanted(seg.elements) == ["x"];
    assert AllWanted(segs, 0) == [] && AllWanted(segs, 1) == [] + Tag(0, ["x"]);
  }

  lemma SecondIsSkipped(w: World, segs: seq<Segment>, seg: Segment, f: FlowState)
    requires segs == [seg, seg] && seg.elements == [Command("x")] && seg.path != "" && seg.subResume == ""
    requires f.history == [Tagged(0, "x")] && !f.cut && (forall n :: n > 1 ==> !w.stop(n)) && f.tick >= 2
    requires Done(SetupOf(seg, false), State(f.tick, [], f.disk)) == ["x"]
    ensures var (code, g) := FlowFrom(1, w, segs, 1, false, f);
            code == Some(0) && g.history == f.history && !g.cut
  {
    hide RunFrom, Wanted, Successes, CheckpointPath, Of, Done;
    var u, s := SetupOf(seg, false), State(f.tick, [], f.disk);
    FoundDone(w, u, s);
    NoSuccesses(Wanted(seg.elements));
    assert Tag(1, []) == [] && f.history + [] == f.history;
    var f1 := AfterSegment(segs, 1, Some(0), Cleared(u, s), f);
    assert FlowFrom(1, w, segs, 1, false, f) ==
           FlowFrom(1, w, segs, 2, false, SavedFlow(segs, 2, f1).(tick := f1.tick + 1));
  }

  lemma FoundDone(w: World, u: Setup, s: State)
    requires u.elements == [Command("x")] && u.pipelineName != "" && !u.restart && u.subResume == "" && Done(u, s) == ["x"]
    ensures RunMeaning(1, w, u, s) == (Some(0), Cleared(u, s))
  {
    hide RunFrom, CheckpointPath;
    PassesOver(1, w, u, Loaded(u, s), 0, [], s);
    RunEnds(0, w, u, Loaded(u, s), [] + ["x"], s);
  }

  // ---------------------------------------------------------------------
  // Restarting a flow
  // ---------------------------------------------------------------------

  /** What is executed does not depend on how the run was started. */
  lemma {:induction false} BodyOfEither(w: World, u: Setup, restart: bool, es: seq<Element>, last: string, s: State)
    ensures BodyMeaning(w, u.(restart := restart), es, last, s) == BodyMeaning(w, u, es, last, s)
    decreases 2 * Total(es) + 1, 0
  {
    hide LoopMeaning;
    if es != [] {
      NestedSmaller(es, 0);
      TailSmaller(es);
      match es[0] {
        case LoopElement(l) =>
          LoopOfEither(w, u, restart, l, l.maxIterations, s);
          BodyOfEither(w, u, restart, es[1..], last, LoopMeaning(w, u, l, l.maxIterations, s).1);
        case StepElement(step) =>
          BodyOfEither(w, u, restart, es[1..], last, s);
          var (f, t) := LoopStep(w, u, step, s);
          assert LoopStep(w, u.(restart := restart), step, s) == (f, t);
          if f.Next? {
            BodyOfEither(w, u, restart, es[1..], f.lastOutput, t);
          }
      }
    }
  }

  lemma {:induction false} LoopOfEither(w: World, u: Setup, restart: bool, l: Loop, left: int, s: State)
    ensures LoopMeaning(w, u.(restart := restart), l, left, s) == LoopMeaning(w, u, l, left, s)
    decreases 2 * (1 + Total(l.elements)), if left < 0 then 0 else left
  {
    hide BodyMeaning;
    if left > 0 {
      BodyOfEither(w, u, restart, l.elements, "", s);
      var (f, t) := BodyMeaning(w, u, l.elements, "", s);
      LoopOfEither(w, u, restart, l, left - 1, t);
      LoopOfEither(w, u, restart, l, left - 1, Ticked(t));
    }
  }

  lemma {:induction false} RunOfEither(fuel: nat, w: World, u: Setup, restart: bool, cp: Option<Checkpoint>, i: nat,
                                       completed: seq<string>, skipUntil: string, s: State)
    ensures RunFrom(fuel, w, u.(restart := restart), cp, i, completed, skipUntil, s) ==
            RunFrom(fuel, w, u, cp, i, completed, skipUntil, s)
    decreases fuel
  {
    hide ElementMove;
    if i < |u.elements| && fuel > 0 {
      MoveOfEither(w, u, restart, cp, i, completed, skipUntil, s);
      var (m, t) := ElementMove(w, u, cp, i, completed, skipUntil, s);
      if m.Goto? {
        RunOfEither(fuel - 1, w, u, restart, cp, m.index, m.completed, m.skipUntil, t);
      }
    }
  }

  lemma MoveOfEither(w: World, u: Setup, restart: bool, cp: Option<Checkpoint>, i: nat, completed: seq<string>,
                     skipUntil: string, s: State)
    requires i < |u.elements|
    ensures ElementMove(w, u.(restart := restart), cp, i, completed, skipUntil, s) == ElementMove(w, u, cp, i, completed, skipUntil, s)
  {
    hide LoopMeaning, NextIndex;
    if u.elements[i].LoopElement? {
      LoopOfEither(w, u, restart, u.elements[i].loop, u.elements[i].loop.maxIterations, s);
    }
  }

  /**
   A restarted flow begins at its first segment, at the first element, and uses
   no stored checkpoint, whatever `f.disk` and `f.flow` hold: it is the flow of
   an empty directory.
   */
  lemma RestartIsFresh(fuel: nat, w: World, segs: seq<Segment>, f: FlowState)
    ensures var empty := f.(flow := None, disk := map[]);
            && FlowMeaning(fuel, w, segs, true, f) == FlowMeaning(fuel, w, segs, true, empty)
            && (segs == [] || segs[0].subResume == "" ==>
                  FlowMeaning(fuel, w, segs, true, f) == FlowMeaning(fuel, w, segs, false, empty))
    ensures segs != [] ==>
              var code := RunFrom(fuel, w, SetupOf(segs[0], false), None, 0, [], "", State(f.tick, [], map[])).0;
              code != Some(0) ==> FlowMeaning(fuel, w, segs, true, f).0 == code
  {
    hide RunFrom, CheckpointPath;
    if segs != [] {
      var u := SetupOf(segs[0], false);
      RunOfEither(fuel, w, u, true, None, 0, [], "", State(f.tick, [], map[]));
      assert SetupOf(segs[0], true) == u.(restart := true);
    }
  }

  /** What comes of a flow that is restarted with `ws[0]`, and resumed with the others. */
  function Restarted(ws: seq<World>, fuel: nat, segs: seq<Segment>, f: FlowState): (Option<int>, FlowState)
    requires ws != []
  {
    var (code, g) := FlowMeaning(fuel, ws[0], segs, true, f);
    if |ws| == 1 then (code, g) else Attempts(ws[1..], fuel, segs, g)
  }

  /**
   After a restart every step of every segment is executed again, exactly once
   and in order, however far the flow had come before, under the proviso of
   `FlowResumeIsExact`.
   */
  lemma RestartedFlowIsExact(ws: seq<World>, fuel: nat, segs: seq<Segment>, f: FlowState)
    requires ws != [] && PlainFlow(segs, fuel)
    requires f.history == [] && !f.three && !f.cut && !f.limited
    requires |ws| > 1 ==>
               var (code, g) := FlowMeaning(fuel, ws[0], segs, true, f);
               code != Some(0) && TriedAgain(ws[1..], fuel, segs, g)
    requires var (code, g) := Restarted(ws, fuel, segs, f); code == Some(0) && !g.three && !g.limited
    ensures Restarted(ws, fuel, segs, f).1.history == AllWanted(segs, |segs|)
  {
    hide FlowMeaning, PlainFlow;
    var empty := f.(flow := None, disk := map[]);
    NoSubResume(segs, fuel);
    RestartIsFresh(fuel, ws[0], segs, f);
    FlowResumeIsExact(ws, fuel, segs, empty);
  }

  lemma NoSubResume(segs: seq<Segment>, fuel: nat)
    requires PlainFlow(segs, fuel)
    ensures segs == [] || segs[0].subResume == ""
  {
  }
}
