/**
 When one segment of a flow takes over the checkpoint that another left behind
 (executeFlow in orchestrator/engine/flow.go).
 */
module FlowTakeovers {
  import opened Common
  import opened Pipelines
  import opened Checkpoints
  import opened Executors
  import opened Flows
  import opened Resume
  import opened ResumeLoops

  // ---------------------------------------------------------------------
  // Stopping inside a loop
  // ---------------------------------------------------------------------

  /** The stop file is seen after the first step that a loop executes. */
  lemma {:induction false} LoopStops(u: Setup, l: Loop, left: int, s: State) returns (n: nat)
    requires left > 0 && BodyCost(l.elements) > 0
    ensures n > s.tick
    ensures var (x, t) := LoopMeaning(StopsAt(n), u, l, left, s);
            x == LoopExit(3, false) && t.disk == s.disk
    decreases 2 * (1 + Total(l.elements))
  {
    hide BodyMeaning, BodyCost;
    n := BodyStops(u, l.elements, "", s);
  }

  lemma {:induction false} BodyStops(u: Setup, es: seq<Element>, last: string, s: State) returns (n: nat)
    requires BodyCost(es) > 0
    ensures n > s.tick
    ensures var (f, t) := BodyMeaning(StopsAt(n), u, es, last, s);
            f == Leave(LoopExit(3, false)) && t.disk == s.disk
    decreases 2 * Total(es) + 1
  {
    hide LoopMeaning, LoopCost;
    NestedSmaller(es, 0);
    TailSmaller(es);
    match es[0] {
      case LoopElement(l) =>
        FreeLoop(l);
        if LoopCost(l) > 0 {
          n := LoopStops(u, l, l.maxIterations, s);
        } else {
          var t := LoopMeaning(UNDISTURBED, u, l, l.maxIterations, s).1;
          IdleLoop(UNDISTURBED, u, l, l.maxIterations, s);
          n := BodyStops(u, es[1..], last, t);
          LoopBefore(n, u, l, l.maxIterations, s);
        }
      case StepElement(step) =>
        if step.skip == "true" {
          n := BodyStops(u, es[1..], last, s);
        } else {
          n := s.tick + 1;
        }
    }
  }

  /** A run that wants no step, stopped in its first busy loop. */
  lemma {:induction false} SilentStops(fuel: nat, u: Setup, cp: Option<Checkpoint>, i: nat, b: nat, completed: seq<string>, s: State)
    returns (n: nat)
    requires Plain(u) && Wanted(u.elements) == [] && i <= b < |u.elements| && fuel >= |u.elements| - i
    requires u.elements[b].LoopElement? && LoopCost(u.elements[b].loop) > 0
    ensures n > s.tick
    ensures var (code, t) := RunFrom(fuel, StopsAt(n), u, cp, i, completed, "", s);
            code == Some(3) && t.disk == s.disk
    decreases fuel
  {
    hide RunFrom, LoopMeaning, LoopCost, Wanted, StepNames, CheckpointPath;
    var es := u.elements;
    WantedAt(es, i);
    if es[i].LoopElement? {
      var l := es[i].loop;
      FreeLoop(l);
      if LoopCost(l) > 0 {
        n := LoopStops(u, l, l.maxIterations, s);
      } else {
        var t := LoopMeaning(UNDISTURBED, u, l, l.maxIterations, s).1;
        IdleLoop(UNDISTURBED, u, l, l.maxIterations, s);
        n := SilentStops(fuel - 1, u, cp, i + 1, b, completed, t);
        LoopBefore(n, u, l, l.maxIterations, s);
      }
      RunsLoop(fuel, StopsAt(n), u, cp, i, completed, s);
    } else {
      n := SilentStops(fuel - 1, u, cp, i + 1, b, completed, s);
      PassesOver(fuel, StopsAt(n), u, cp, i, completed, s);
    }
  }

  // ---------------------------------------------------------------------
  // Segments in which all goes well
  // ---------------------------------------------------------------------

  /** A run of a segment when all goes well. */
  lemma GoodSegment(fuel: nat, segs: seq<Segment>, i: nat, f: FlowState, x: string)
    requires PlainFlow(segs, fuel) && i < |segs|
    ensures var u, s := SetupOf(segs[i], false), State(f.tick, [], f.disk);
            var (code, t) := RunMeaning(fuel, UNDISTURBED, u, s);
            var f1 := AfterSegment(segs, i, code, t, f);
            && code == Some(0) && OthersKept(u, s, t) && File(segs[i]) !in t.disk
            && (f1.cut <==> f.cut) && (f1.limited <==> f.limited)
            && (forall l: nat :: l != i ==> Of(f1.history, l) == Of(f.history, l))
            && (x in Done(u, s) ==> Of(f1.history, i) == Of(f.history, i) + Successes(Wanted(segs[i].elements), t.trace)
                                    && x !in Successes(Wanted(segs[i].elements), t.trace))
  {
    hide RunFrom, Wanted, Successes, StepNames, OthersKept, Own, CheckpointPath, HasBusyLoop;
    var u, s := SetupOf(segs[i], false), State(f.tick, [], f.disk);
    RunGoesWell(fuel, u, Loaded(u, s), 0, [], s, x);
    NoSuccesses(Wanted(segs[i].elements));
    var t := RunMeaning(fuel, UNDISTURBED, u, s).1;
    HistoryGrows(f.history, i, Successes(Wanted(segs[i].elements), t.trace));
  }

  lemma HistoryGrows(history: seq<Tagged>, i: nat, steps: seq<string>)
    ensures forall l: nat :: Of(history + Tag(i, steps), l) == Of(history, l) + if l == i then steps else []
    ensures forall l: nat :: l != i ==> Of(history + Tag(i, steps), l) == Of(history, l)
  {
    forall l: nat
      ensures Of(history + Tag(i, steps), l) == Of(history, l) + if l == i then steps else []
    {
      OfConcat(history, Tag(i, steps), l);
      OfTag(i, l, steps);
    }
  }

  /** A stop seen only after a segment has ended does not change its run. */
  lemma SegmentBefore(n: nat, fuel: nat, segs: seq<Segment>, i: nat, f: FlowState)
    requires PlainFlow(segs, fuel) && i < |segs|
    ensures var u, s := SetupOf(segs[i], false), State(f.tick, [], f.disk);
            var t := RunMeaning(fuel, UNDISTURBED, u, s).1;
            f.tick <= t.tick && (t.tick <= n ==> RunMeaning(fuel, StopsAt(n), u, s) == RunMeaning(fuel, UNDISTURBED, u, s))
  {
    hide RunFrom, StopsAt, StepNames, CheckpointPath;
    var u, s := SetupOf(segs[i], false), State(f.tick, [], f.disk);
    RunBefore(n, fuel, u, Loaded(u, s), 0, [], s);
  }

  /** The state after segment `n`, when all goes well. */
  function AfterGood(fuel: nat, segs: seq<Segment>, n: nat, f: FlowState): FlowState
    requires n < |segs|
  {
    var (code, t) := RunMeaning(fuel, UNDISTURBED, SetupOf(segs[n], false), State(f.tick, [], f.disk));
    SavedFlow(segs, n + 1, AfterSegment(segs, n, code, t, f)).(tick := t.tick + 1)
  }

  /** The state before segment `m`, when all has gone well from segment `n` on. */
  function GoodTo(fuel: nat, segs: seq<Segment>, n: nat, m: nat, f: FlowState): FlowState
    requires n <= m <= |segs|
    decreases m - n
  {
    if n == m then f else GoodTo(fuel, segs, n + 1, m, AfterGood(fuel, segs, n, f))
  }

  /** What segments in which all goes well do to the records and to a file. */
  lemma {:induction false} GoodToKeeps(fuel: nat, segs: seq<Segment>, n: nat, m: nat, f: FlowState, file: string)
    requires PlainFlow(segs, fuel) && n <= m <= |segs|
    ensures var g := GoodTo(fuel, segs, n, m, f);
            && (g.cut <==> f.cut) && (g.limited <==> f.limited) && f.tick <= g.tick
            && (forall l: nat :: l < n || m <= l ==> Of(g.history, l) == Of(f.history, l))
            && (file !in f.disk ==> file !in g.disk)
            && ((forall l :: n <= l < m ==> File(segs[l]) != file) ==> SameFile(f.disk, g.disk, file))
    decreases m - n
  {
    hide RunMeaning, Of, AfterSegment, OthersKept, PlainFlow, Done, File, Wanted, Successes, States;
    if n < m {
      GoodSegment(fuel, segs, n, f, "");
      SegmentBefore(0, fuel, segs, n, f);
      var u, s := SetupOf(segs[n], false), State(f.tick, [], f.disk);
      var (code, t) := RunMeaning(fuel, UNDISTURBED, u, s);
      AfterIs(segs, n, code, t, f);
      if file != File(segs[n]) {
        FileIs(segs[n]);
        OthersKeptFile(u, s, t, file);
      }
      GoodToKeeps(fuel, segs, n + 1, m, AfterGood(fuel, segs, n, f), file);
    }
  }

  lemma FileIs(seg: Segment)
    ensures File(seg) == CheckpointPath(SetupOf(seg, false).pipelineName)
  {
  }

  /** The flow gets to segment `m`, with no stop or one seen later. */
  lemma {:induction false} GoodToFlow(stop: nat, fuel: nat, segs: seq<Segment>, n: nat, m: nat, f: FlowState)
    requires PlainFlow(segs, fuel) && n <= m <= |segs|
    ensures var g := GoodTo(fuel, segs, n, m, f);
            && FlowFrom(fuel, UNDISTURBED, segs, n, false, f) == FlowFrom(fuel, UNDISTURBED, segs, m, false, g)
            && (g.tick <= stop ==>
                  FlowFrom(fuel, StopsAt(stop), segs, n, false, f) == FlowFrom(fuel, StopsAt(stop), segs, m, false, g))
    decreases m - n
  {
    hide RunMeaning, Of, AfterSegment, OthersKept, PlainFlow, Done, File, Wanted, Successes, States;
    if n < m {
      GoodSegment(fuel, segs, n, f, "");
      SegmentBefore(stop, fuel, segs, n, f);
      var (code, t) := RunMeaning(fuel, UNDISTURBED, SetupOf(segs[n], false), State(f.tick, [], f.disk));
      AfterIs(segs, n, code, t, f);
      var f2 := AfterGood(fuel, segs, n, f);
      GoodToFlow(stop, fuel, segs, n + 1, m, f2);
      GoodToKeeps(fuel, segs, n + 1, m, f2, "");
    }
  }

  // ---------------------------------------------------------------------
  // Attempts that end in a stop
  // ---------------------------------------------------------------------

  /** An attempt that stops in segment `m`, without a cut. */
  ghost predicate StopsIn(fuel: nat, w: World, segs: seq<Segment>, n: nat, m: nat, f: FlowState, g: FlowState) {
    && FlowFrom(fuel, w, segs, n, false, f) == (Some(3), g)
    && StartsAt(segs, g, m + 1) && (g.cut <==> f.cut) && (g.limited <==> f.limited)
    && forall l: nat :: l > m ==> Of(g.history, l) == Of(f.history, l)
  }

  /** Segment `i` is stopped right after its last wanted step, and its checkpoint stays. */
  lemma StopsComplete(fuel: nat, segs: seq<Segment>, i: nat) returns (w: World, g: FlowState)
    requires PlainFlow(segs, fuel) && i < |segs| && Wanted(segs[i].elements) != []
    ensures StopsIn(fuel, w, segs, 0, i, FRESH, g) && Own(SetupOf(segs[i], false), g.disk, Wanted(segs[i].elements))
  {
    hide RunFrom, Wanted, Successes, StepNames, OthersKept, Own, CheckpointPath, HasBusyLoop, Done, StopsAt, Of, GoodTo, Marks;
    var u, wanted := SetupOf(segs[i], false), Wanted(segs[i].elements);
    GoodToKeeps(fuel, segs, 0, i, FRESH, File(segs[i]));
    var f := GoodTo(fuel, segs, 0, i, FRESH);
    var s := State(f.tick, [], f.disk);
    NothingFound(u, s);
    NothingMarked(wanted);
    NoSuccesses(wanted);
    var n := StopAfter(fuel, u, None, 0, |wanted|, s);
    w := StopsAt(n);
    var t := RunMeaning(fuel, w, u, s).1;
    assert wanted[0..|wanted|] == wanted && wanted[..|wanted|] == wanted && [] + wanted == wanted;
    g := SavedFlow(segs, i + 1, AfterSegment(segs, i, Some(3), t, f));
    HistoryGrows(f.history, i, wanted);
    assert Of(FRESH.history, i) == [] by { NothingOf(i); }
    GoodToFlow(n, fuel, segs, 0, i, FRESH);
  }

  lemma NothingOf(i: nat)
    ensures Of([], i) == []
  {
  }

  lemma NothingFound(u: Setup, s: State)
    requires CheckpointPath(u.pipelineName) !in s.disk
    ensures Loaded(u, s) == None && u.elements[..0] == [] && Wanted([]) == []
  {
  }

  /** A segment that wants nothing is stopped in a busy loop: its file is left as it was. */
  lemma StopsSilently(fuel: nat, segs: seq<Segment>, n: nat, m: nat, f: FlowState) returns (w: World, g: FlowState)
    requires PlainFlow(segs, fuel) && n <= m < |segs| && Silent(segs[m]) && Of(f.history, m) == []
    ensures StopsIn(fuel, w, segs, n, m, f, g) && g.disk == GoodTo(fuel, segs, n, m, f).disk
  {
    hide RunFrom, Wanted, Successes, StepNames, Own, CheckpointPath, LoopCost, Done, StopsAt, Of, GoodTo;
    var u := SetupOf(segs[m], false);
    GoodToKeeps(fuel, segs, n, m, f, "");
    var h := GoodTo(fuel, segs, n, m, f);
    var s := State(h.tick, [], h.disk);
    var es := segs[m].elements;
    var b: nat :| b < |es| && es[b].LoopElement? && LoopCost(es[b].loop) > 0;
    var stop := SilentStops(fuel, u, Loaded(u, s), 0, b, [], s);
    w := StopsAt(stop);
    var t := RunMeaning(fuel, w, u, s).1;
    NothingSucceeds(t.trace);
    g := SavedFlow(segs, m + 1, AfterSegment(segs, m, Some(3), t, h));
    HistoryGrows(h.history, m, []);
    GoodToFlow(stop, fuel, segs, n, m, f);
  }

  // ---------------------------------------------------------------------
  // The leftover reaches the segment that takes it over
  // ---------------------------------------------------------------------

  /** Segment `j` finds what segment `i` left and skips a step that it wants; then all goes well to the end. */
  lemma LeftoverIsSkipped(fuel: nat, segs: seq<Segment>, n: nat, f: FlowState, i: nat, j: nat, x: string)
    requires PlainFlow(segs, fuel) && i < n <= j && TakesOver(segs, i, j) && x in Wanted(segs[i].elements)
    requires Leftover(segs, i, n, File(segs[j]), f.disk) && Of(f.history, j) == []
    requires forall m :: n <= m < j ==> File(segs[m]) != File(segs[j])
    ensures var (code, g) := FlowFrom(fuel, UNDISTURBED, segs, n, false, f);
            code == Some(0) && (g.cut <==> f.cut) && (g.limited <==> f.limited) && x !in Of(g.history, j)
  {
    hide RunMeaning, Of, AfterSegment, OthersKept, PlainFlow, Done, Wanted, Successes, CheckpointPath, SameVars, Passes, GoodTo;
    GoodToFlow(0, fuel, segs, n, j, f);
    GoodToKeeps(fuel, segs, n, j, f, File(segs[j]));
    var g := GoodTo(fuel, segs, n, j, f);
    var u, s := SetupOf(segs[j], false), State(g.tick, [], g.disk);
    DoneByOther(segs[j], segs[i], Wanted(segs[i].elements), s);
    GoodSegment(fuel, segs, j, g, x);
    var (code, t) := RunMeaning(fuel, UNDISTURBED, u, s);
    AfterIs(segs, j, code, t, g);
    var h := AfterGood(fuel, segs, j, g);
    assert [] + Successes(Wanted(segs[j].elements), t.trace) == Successes(Wanted(segs[j].elements), t.trace);
    GoodToFlow(0, fuel, segs, j + 1, |segs|, h);
    GoodToKeeps(fuel, segs, j + 1, |segs|, h, "");
  }

  /** The first segment from `n` on that uses the file of segment `j`. */
  lemma {:induction false} NextUse(segs: seq<Segment>, n: nat, j: nat) returns (m: nat)
    requires n <= j < |segs|
    ensures n <= m <= j && File(segs[m]) == File(segs[j])
    ensures forall l :: n <= l < m ==> File(segs[l]) != File(segs[j])
    decreases j - n
  {
    hide File;
    m := n;
    if File(segs[n]) != File(segs[j]) {
      m := NextUse(segs, n + 1, j);
    }
  }

  /** From segment `n` on: every user of the file before segment `j` is stopped silently. */
  lemma {:induction false} TakenOver(fuel: nat, segs: seq<Segment>, n: nat, f: FlowState, i: nat, j: nat, x: string)
    returns (ws: seq<World>)
    requires PlainFlow(segs, fuel) && i < n <= j && TakesOver(segs, i, j) && x in Wanted(segs[i].elements)
    requires Leftover(segs, i, n, File(segs[j]), f.disk) && StartsAt(segs, f, n)
    requires forall l: nat :: n <= l ==> Of(f.history, l) == []
    ensures ws != [] && Flows.TriedAgain(ws, fuel, segs, f)
    ensures var (code, g) := Flows.Attempts(ws, fuel, segs, f);
            code == Some(0) && (g.cut <==> f.cut) && (g.limited <==> f.limited) && x !in Of(g.history, j)
    decreases j - n
  {
    hide FlowFrom, Of, PlainFlow, Wanted, CheckpointPath, SameVars, Passes, Own, GoodTo, StartsAt, Silent, StartIndex;
    StartIndexIs(segs, f, n);
    var file := File(segs[j]);
    var m := NextUse(segs, n, j);
    if m == j {
      LeftoverIsSkipped(fuel, segs, n, f, i, j, x);
      ws := [UNDISTURBED];
    } else {
      SilentBetween(segs, i, m, j);
      var w, g := StopsSilently(fuel, segs, n, m, f);
      GoodToKeeps(fuel, segs, n, m, f, file);
      PassesPart(segs, i, m + 1, j);
      OwnKept(segs[i], f.disk, g.disk, Wanted(segs[i].elements));
      var rest := TakenOver(fuel, segs, m + 1, g, i, j, x);
      ws := [w] + rest;
      OneMoreAttempt(w, rest, fuel, segs, f, g);
    }
  }

  lemma OwnKept(seg: Segment, a: map<string, Checkpoint>, b: map<string, Checkpoint>, list: seq<string>)
    requires SameFile(a, b, File(seg))
    ensures Own(SetupOf(seg, false), a, list) ==> Own(SetupOf(seg, false), b, list)
  {
    hide CheckpointPath;
  }

  lemma SilentBetween(segs: seq<Segment>, i: nat, m: nat, j: nat)
    requires i < m < j < |segs| && Passes(segs, i, j, File(segs[j])) && File(segs[m]) == File(segs[j])
    ensures Silent(segs[m])
  {
    hide File, Silent;
  }

  lemma PassesPart(segs: seq<Segment>, i: nat, n: nat, j: nat)
    requires i < n <= j < |segs| && Passes(segs, i, j, File(segs[j]))
    ensures Passes(segs, i, n, File(segs[j]))
  {
    hide File, Silent;
  }

  lemma OneMoreAttempt(w: World, rest: seq<World>, fuel: nat, segs: seq<Segment>, f: FlowState, g: FlowState)
    requires rest != [] && FlowMeaning(fuel, w, segs, false, f) == (Some(3), g) && Flows.TriedAgain(rest, fuel, segs, g)
    ensures Flows.TriedAgain([w] + rest, fuel, segs, f)
    ensures Flows.Attempts([w] + rest, fuel, segs, f) == Flows.Attempts(rest, fuel, segs, g)
  {
    hide FlowMeaning;
    assert ([w] + rest)[1..] == rest;
  }

  // ---------------------------------------------------------------------
  // The flows that are exact unless cut
  // ---------------------------------------------------------------------

  /**
   A flow over any number of attempts, from a fresh start to an attempt that
   ends with 0, in which no segment with a busy loop was rate-limited.
   */
  ghost predicate FinishedFlow(ws: seq<World>, fuel: nat, segs: seq<Segment>, f: FlowState) {
    && ws != [] && Fresh(segs, f) && Flows.TriedAgain(ws, fuel, segs, f)
    && var (code, g) := Flows.Attempts(ws, fuel, segs, f); code == Some(0) && !g.limited
  }

  /** The flow has done its steps, in order, exactly when nothing was cut. */
  ghost predicate ExactUnlessCut(ws: seq<World>, fuel: nat, segs: seq<Segment>, f: FlowState)
    requires ws != []
  {
    var g := Flows.Attempts(ws, fuel, segs, f).1;
    g.history == AllWanted(segs, |segs|) <==> !g.cut
  }

  /** A segment that takes over what another left when it was stopped makes the flow lose a step. */
  lemma TakeoverLosesStep(fuel: nat, segs: seq<Segment>, i: nat, j: nat) returns (ws: seq<World>)
    requires PlainFlow(segs, fuel) && TakesOver(segs, i, j)
    ensures FinishedFlow(ws, fuel, segs, FRESH) && !ExactUnlessCut(ws, fuel, segs, FRESH)
  {
    hide Wanted, FlowFrom, Own, CheckpointPath, AllWanted, PlainFlow, StartsAt, StartIndex, Of, SameVars, Passes;
    var x :| x in Wanted(segs[i].elements) && x in Wanted(segs[j].elements);
    var w, g := StopsComplete(fuel, segs, i);
    forall l: nat
      ensures Of(FRESH.history, l) == []
    {
      NothingOf(l);
    }
    PassesPart(segs, i, i + 1, j);
    FreshStart(segs);
    StartIndexIs(segs, FRESH, 0);
    var rest := TakenOver(fuel, segs, i + 1, g, i, j, x);
    ws := [w] + rest;
    OneMoreAttempt(w, rest, fuel, segs, FRESH, g);
    OfAllWanted(segs, |segs|, j);
  }

  lemma FreshStart(segs: seq<Segment>)
    ensures StartsAt(segs, FRESH, 0)
  {
  }

  /**
   Whatever happens but a rate limit in a segment with a busy loop, a flow
   that ends with 0 has done exactly its steps unless it was cut, if and only
   if no segment takes over from another.
   */
  lemma ExactUnlessCutIffNoTakeover(fuel: nat, segs: seq<Segment>)
    requires PlainFlow(segs, fuel)
    ensures (forall ws, f :: FinishedFlow(ws, fuel, segs, f) ==> ExactUnlessCut(ws, fuel, segs, f)) <==> NoTakeover(segs)
  {
    hide TakesOver, PlainFlow, Fresh, Flows.TriedAgain, Flows.Attempts, AllWanted;
    if NoTakeover(segs) {
      forall ws, f | FinishedFlow(ws, fuel, segs, f)
        ensures ExactUnlessCut(ws, fuel, segs, f)
      {
        FlowIsExactIffNothingCut(ws, fuel, segs, f);
      }
    } else {
      var i: nat, j: nat :| TakesOver(segs, i, j);
      var ws := TakeoverLosesStep(fuel, segs, i, j);
    }
  }
}
