/** What a flow does, segment by segment: executeFlow in orchestrator/engine/flow.go. */
module FlowRuns {
  import opened Common
  import opened Checkpoints
  import opened Executors
  import opened Flows

  /** What the run of segment `i` from `f` returns, and the state it leaves. */
  function SegmentRun(fuel: nat, w: World, segs: seq<Segment>, i: nat, restart: bool, f: FlowState): (Option<int>, FlowState)
    requires i < |segs|
  {
    var (code, t) := RunMeaning(fuel, w, SetupOf(segs[i], restart), State(f.tick, [], f.disk));
    (code, AfterSegment(segs, i, code, t, f))
  }

  /** The checkpoint of a flow that has completed `n` segments. */
  ghost predicate Records(g: FlowState, segs: seq<Segment>, n: nat) {
    && g.flow.Some? && g.flow.value.completedSegments == n && |g.flow.value.segments| == |segs|
    && forall i :: 0 <= i < |segs| ==> g.flow.value.segments[i] == SegmentState(segs[i].path, segs[i].vars)
  }

  /** The same but for the flow's checkpoint. */
  predicate SameButFlow(g: FlowState, h: FlowState) {
    g.(flow := h.flow) == h
  }

  /** Segment `i` ends with 0, the flow records it and is not asked to stop: it goes on in state `g`. */
  ghost predicate Completes(fuel: nat, w: World, segs: seq<Segment>, i: nat, restart: bool, f: FlowState, g: FlowState)
    requires i < |segs|
  {
    var (code, h) := SegmentRun(fuel, w, segs, i, restart, f);
    code == Some(0) && !w.stop(h.tick) && Records(g, segs, i + 1) && SameButFlow(g, h.(tick := h.tick + 1))
  }

  /**
   Segment `i` ends the flow: after a failure or a rate limit the segment is to
   be run again; after a graceful stop, inside it or behind it, the flow is to go
   on with the next one and returns 3.
   */
  ghost predicate EndsFlow(fuel: nat, w: World, segs: seq<Segment>, i: nat, restart: bool, f: FlowState,
                           code: Option<int>, g: FlowState)
    requires i < |segs|
  {
    var (c, h) := SegmentRun(fuel, w, segs, i, restart, f);
    if c == None then code == None && g == h
    else if c == Some(0) then
      w.stop(h.tick) && code == Some(3) && Records(g, segs, i + 1) && SameButFlow(g, h.(tick := h.tick + 1))
    else code == c && Records(g, segs, if c == Some(3) then i + 1 else i) && SameButFlow(g, h)
  }

  /**
   A flow runs its segments in order from where it starts, each after the one
   before has ended with 0, up to the first that ends it; only the first can be
   restarted. When all are done its checkpoint is removed and it returns 0.
   */
  lemma {:induction false} FlowBySegment(fuel: nat, w: World, segs: seq<Segment>, i: nat, restart: bool, f: FlowState)
    returns (fs: seq<FlowState>)
    requires i <= |segs|
    ensures 0 < |fs| <= |segs| - i + 1 && fs[0] == f
    ensures forall k :: 0 <= k < |fs| - 1 ==> Completes(fuel, w, segs, i + k, restart && k == 0, fs[k], fs[k + 1])
    ensures var (code, g) := FlowFrom(fuel, w, segs, i, restart, f);
            var n, last := |fs| - 1, fs[|fs| - 1];
            if i + n == |segs| then code == Some(0) && g == last.(flow := None)
            else EndsFlow(fuel, w, segs, i + n, restart && n == 0, last, code, g)
    decreases |segs| - i
  {
    hide FlowFrom, SegmentRun, EndsFlow, Completes;
    fs := [f];
    if i == |segs| {
      NoSegmentLeft(fuel, w, segs, restart, f);
    } else {
      var next := SegmentTaken(fuel, w, segs, i, restart, f);
      if next.Some? {
        var rest := FlowBySegment(fuel, w, segs, i + 1, false, next.value);
        fs := [f] + rest;
        forall k | 0 <= k < |fs| - 1
          ensures Completes(fuel, w, segs, i + k, restart && k == 0, fs[k], fs[k + 1])
        {
          if k > 0 {
            assert fs[k] == rest[k - 1] && fs[k + 1] == rest[k];
          }
        }
        assert fs[|fs| - 1] == rest[|rest| - 1];
      }
    }
  }

  lemma NoSegmentLeft(fuel: nat, w: World, segs: seq<Segment>, restart: bool, f: FlowState)
    ensures FlowFrom(fuel, w, segs, |segs|, restart, f) == (Some(0), f.(flow := None))
  {
  }

  lemma SegmentTaken(fuel: nat, w: World, segs: seq<Segment>, i: nat, restart: bool, f: FlowState)
    returns (next: Option<FlowState>)
    requires i < |segs|
    ensures next.Some? ==>
              && Completes(fuel, w, segs, i, restart, f, next.value)
              && FlowFrom(fuel, w, segs, i, restart, f) == FlowFrom(fuel, w, segs, i + 1, false, next.value)
    ensures next.None? ==>
              var (code, g) := FlowFrom(fuel, w, segs, i, restart, f); EndsFlow(fuel, w, segs, i, restart, f, code, g)
  {
    hide RunMeaning, AfterSegment;
    next := None;
    var (code, h) := SegmentRun(fuel, w, segs, i, restart, f);
    if code == Some(0) && !w.stop(h.tick) {
      next := Some(SavedFlow(segs, i + 1, h).(tick := h.tick + 1));
    }
  }

  /**
   Where a flow begins: after the segments its checkpoint counts as completed, if
   the checkpoint is one of the same pipelines with matching variables, and at
   the first segment otherwise.
   */
  lemma FlowBegins(fuel: nat, w: World, segs: seq<Segment>, f: FlowState)
    ensures var same := f.flow.Some? && |f.flow.value.segments| == |segs|
                        && forall i :: 0 <= i < |segs| ==>
                             f.flow.value.segments[i].pipelinePath == segs[i].path
                             && SameVars(f.flow.value.segments[i].vars, segs[i].vars);
            FlowMeaning(fuel, w, segs, false, f) ==
            FlowFrom(fuel, w, segs, if same then f.flow.value.completedSegments else 0, false, f)
  {
    hide FlowFrom, SameVars;
  }
}
