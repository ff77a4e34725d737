/**
 What the calls and processors of remote/api/workflow_handler.go and
 workflow_queue.go do to a workflow, and how a run of one ends.
 */
module WorkflowOutcomes {
  import opened Common
  import opened WorkflowStores
  import opened WorkflowQueue

  /** Nothing but how far a workflow has come differs. */
  predicate SameJob(a: Workflow, b: Workflow) {
    && a.id == b.id && a.project == b.project && a.createdAt == b.createdAt
    && a.pipeline == b.pipeline && a.variables == b.variables
  }

  /** From list `ws` to list `r`, only workflows with the given ID have changed. */
  predicate OthersStay(ws: seq<Workflow>, r: seq<Workflow>, id: string) {
    |r| == |ws| && forall i :: 0 <= i < |ws| && ws[i].id != id ==> r[i] == ws[i]
  }

  // ---------------------------------------------------------------------
  // How a run ends
  // ---------------------------------------------------------------------

  /** Every processor but the last is gone, and what the last one executes is running. */
  lemma ExecutedRuns(s0: Sys, es: seq<Event>)
    requires Init(s0) && Possible(s0, es)
    ensures var s := After(s0, es);
            && Safe(s)
            && ((Current(s).Executing? || Current(s).Ended?) ==>
                  s.procs != [] && forall i :: 0 <= i < |s.ws| && s.ws[i].id == Current(s).id ==> s.ws[i].status == Running)
  {
    HoldsInRuns(s0, es);
  }

  /**
   The status a run leaves its workflow with. Failed: it never started, or was
   not cancelled and exited with neither 0 nor 2. Cancelled: it started and a
   cancel was requested. Queued again, for half an hour not eligible: it exited
   with 2. Completed: it exited with 0.
   */
  predicate EndsAs(w: Workflow, r: Workflow, cancelled: bool, outcome: Outcome, now: int) {
    && SameJob(w, r)
    && match outcome
       case NotStarted => r.status == Failed && r.exitCode == None && r.completedAt == Some(now)
       case Exit(code) =>
         if cancelled then r.status == Cancelled && r.exitCode == Some(code) && r.completedAt == Some(now)
         else if code == 0 then r.status == Completed && r.exitCode == Some(0) && r.completedAt == Some(now)
         else if code == 2 then
           r.status == Queued && r.notBefore == Some(now + 1800) && r.exitCode == None && r.startedAt == None
         else r.status == Failed && r.exitCode == Some(code) && r.completedAt == Some(now)
  }

  /**
   In every reachable state in which a container run has ended, the processor's
   next step gives the workflow the status of how it ended and changes no
   other; then it looks for failed workflows and halts if and only if there is
   one.
   */
  lemma RunEndsAs(s0: Sys, es: seq<Event>)
    requires Init(s0) && Possible(s0, es) && Current(After(s0, es)).Ended?
    ensures var s := After(s0, es);
            var Ended(id, cancelled, outcome) := Current(s);
            s.procs != [] &&
            var e := Step(|s.procs| - 1);
            && Enabled(s, e)
            && var t := Apply(s, e);
               && OthersStay(s.ws, t.ws, id)
               && (forall i :: 0 <= i < |s.ws| && s.ws[i].id == id ==> EndsAs(s.ws[i], t.ws[i], cancelled, outcome, s.clock))
               && t.clock == s.clock && t.due == s.due && t.removals == s.removals
               && Enabled(t, e)
               && Current(Apply(t, e)) ==
                  if exists i :: 0 <= i < |t.ws| && t.ws[i].status == Failed then Waiting else CheckRunning
  {
    ExecutedRuns(s0, es);
    hide Possible, After, Init, Safe, EndsAs;
    var s := After(s0, es);
    EndedStep(s);
    NextLook(Apply(s, Step(|s.procs| - 1)));
  }

  lemma EndedStep(s: Sys)
    requires s.procs != [] && Current(s).Ended?
    requires forall i :: 0 <= i < |s.ws| && s.ws[i].id == Current(s).id ==> s.ws[i].status == Running
    ensures var Ended(id, cancelled, outcome) := Current(s);
            var t := Apply(s, Step(|s.procs| - 1));
            && t == s.(ws := t.ws, procs := t.procs) && t.procs != [] && Current(t) == CheckFailed && |t.procs| == |s.procs|
            && OthersStay(s.ws, t.ws, id)
            && forall i :: 0 <= i < |s.ws| && s.ws[i].id == id ==> EndsAs(s.ws[i], t.ws[i], cancelled, outcome, s.clock)
  {
  }

  lemma NextLook(t: Sys)
    requires t.procs != [] && Current(t) == CheckFailed
    ensures var e := Step(|t.procs| - 1);
            Enabled(t, e) && Current(Apply(t, e)) == if HasStatus(t.ws, Failed) then Waiting else CheckRunning
  {
  }

  /** When a container run ends, the processor takes its outcome and whether a cancel was requested by then. */
  lemma EndIsCollected(s0: Sys, es: seq<Event>, outcome: Outcome)
    requires Init(s0) && Possible(s0, es) && Current(After(s0, es)).Executing?
    ensures var s := After(s0, es);
            s.procs != [] &&
            var e := End(|s.procs| - 1, outcome);
            && Enabled(s, e)
            && var t := Apply(s, e);
               && t.ws == s.ws && t.clock == s.clock
               && Current(t).Ended? && Current(t).id == Current(s).id && Current(t).outcome == outcome
               && (HasID(s.ws, Current(s).id) ==>
                     (Current(t).cancelRequested <==>
                      forall i :: 0 <= i < |s.ws| && s.ws[i].id == Current(s).id ==> s.ws[i].cancelRequested))
  {
    ExecutedRuns(s0, es);
    hide Possible, After, Init, UniqueIDs, Known, RunningIsCurrent, HasStatus;
    var s := After(s0, es);
    if HasID(s.ws, Current(s).id) {
      var i :| 0 <= i < |s.ws| && s.ws[i].id == Current(s).id;
    }
  }

  /** The current processor executes `id`, and a cancel of it was requested. */
  ghost predicate CancelPending(s: Sys, id: string) {
    && Safe(s) && Current(s) == Executing(id)
    && forall i :: 0 <= i < |s.ws| && s.ws[i].id == id ==> s.ws[i].cancelRequested
  }

  lemma PendingStays(s: Sys, e: Event, id: string, readings: seq<int>)
    requires Holds(s, readings) && Enabled(s, e) && CancelPending(s, id) && id in s.used
    ensures CancelPending(Apply(s, e), id) || e.End?
  {
    hide Next, HasStatus, HasQueuedWaiting, Fed, Last, RunningIsCurrent;
    StepKeeps(s, e, readings);
    if IsUpdate(e) {
      UpdateKeepsRequests(s, e);
    } else if e.Evict? {
      EvictWithin(s.ws);
      hide Evicted;
    } else if e.RemoveFailed? {
      RemoveWithin(s.ws, s.removals[e.k]);
      hide WithoutID;
    }
  }

  /** No handler takes the request of a running workflow back. */
  lemma UpdateKeepsRequests(s: Sys, e: Event)
    requires Enabled(s, e) && IsUpdate(e)
    ensures var t := Apply(s, e);
            && t == s.(ws := t.ws, due := t.due, removals := t.removals) && |t.ws| == |s.ws|
            && forall i :: 0 <= i < |s.ws| ==>
                 t.ws[i].id == s.ws[i].id &&
                 (s.ws[i].status.Running? && s.ws[i].cancelRequested ==> t.ws[i].cancelRequested)
  {
    var t := Apply(s, e);
    assert t.ws == Put(s.ws, e.id, UpdateOf(e, s.clock));
    forall i | 0 <= i < |s.ws|
      ensures t.ws[i].id == s.ws[i].id
      ensures s.ws[i].status.Running? && s.ws[i].cancelRequested ==> t.ws[i].cancelRequested
    {
      UpdateOne(e, s.clock, s.ws[i]);
    }
  }

  lemma UpdateOne(e: Event, now: int, w: Workflow)
    requires IsUpdate(e)
    ensures var r := UpdateOf(e, now)(w);
            r.id == w.id && (w.status.Running? && w.cancelRequested ==> r.cancelRequested)
  {
    match e
    case Edit(_, _, _) =>
    case Retry(_) =>
    case Cancel(_) =>
    case CancelRunning(_) =>
  }

  /** No container run ends in these events. */
  predicate NoneEnds(es: seq<Event>) {
    forall i :: 0 <= i < |es| ==> !es[i].End?
  }

  lemma {:induction false} PendingInRun(s: Sys, es: seq<Event>, id: string, readings: seq<int>)
    requires Holds(s, readings) && Possible(s, es) && CancelPending(s, id) && id in s.used && NoneEnds(es)
    ensures CancelPending(After(s, es), id)
    decreases |es|
  {
    hide Holds, CancelPending;
    if es != [] {
      PendingStays(s, es[0], id, readings);
      UsedGrows(s, es[0]);
      StepKeeps(s, es[0], readings);
      PendingInRun(Apply(s, es[0]), es[1..], id, Read(readings, es[0]));
    }
  }

  lemma UsedGrows(s: Sys, e: Event)
    requires Enabled(s, e)
    ensures s.used <= Apply(s, e).used
  {
  }

  /**
   A cancel of the workflow being executed is kept, whatever other events
   follow: when the container run ends, and had started, the workflow becomes
   cancelled with its exit code, if the store still holds it.
   */
  lemma CancelOfRunningEndsIt(s0: Sys, es: seq<Event>, id: string, fs: seq<Event>, code: int)
    requires Init(s0) && Possible(s0, es) && Current(After(s0, es)) == Executing(id)
    requires var s1 := Apply(After(s0, es), CancelRunning(id)); Possible(s1, fs) && NoneEnds(fs)
    ensures var s := After(Apply(After(s0, es), CancelRunning(id)), fs);
            s.procs != [] &&
            var n := |s.procs| - 1;
            && Enabled(s, End(n, Exit(code))) && Enabled(Apply(s, End(n, Exit(code))), Step(n))
            && var t := Apply(Apply(s, End(n, Exit(code))), Step(n));
               && |t.ws| == |s.ws|
               && forall i :: 0 <= i < |s.ws| && s.ws[i].id == id ==>
                    t.ws[i].id == id && t.ws[i].status == Cancelled && t.ws[i].exitCode == Some(code)
  {
    hide Possible, After, Init, EndsAs, OthersStay;
    HoldsInRuns(s0, es);
    var s := After(s0, es);
    var s1 := Apply(s, CancelRunning(id));
    var readings := Readings([s0.clock], es);
    StepKeeps(s, CancelRunning(id), readings);
    CancelRequests(s, id);
    PendingInRun(s1, fs, id, Read(readings, CancelRunning(id)));
    PendingEnds(After(s1, fs), id, code);
  }

  lemma CancelRequests(s: Sys, id: string)
    requires Safe(s) && Safe(Apply(s, CancelRunning(id))) && Current(s) == Executing(id)
    ensures var t := Apply(s, CancelRunning(id)); CancelPending(t, id) && id in t.used
  {
    var t := Apply(s, CancelRunning(id));
    assert forall i :: 0 <= i < |s.ws| && s.ws[i].id == id ==> t.ws[i] == CancelMarked(s.ws[i]);
    assert forall i :: 0 <= i < |s.ws| && s.ws[i].id != id ==> t.ws[i] == s.ws[i];
  }

  lemma PendingEnds(s: Sys, id: string, code: int)
    requires CancelPending(s, id)
    ensures s.procs != [] &&
            var n := |s.procs| - 1;
            && Enabled(s, End(n, Exit(code))) && Enabled(Apply(s, End(n, Exit(code))), Step(n))
            && var t := Apply(Apply(s, End(n, Exit(code))), Step(n));
               && |t.ws| == |s.ws|
               && forall i :: 0 <= i < |s.ws| && s.ws[i].id == id ==>
                    t.ws[i].id == id && t.ws[i].status == Cancelled && t.ws[i].exitCode == Some(code)
  {
    hide Put, Conclude, UniqueIDs, Known, RunningIsCurrent, HasStatus, Next, HasQueuedWaiting;
    if exists i :: 0 <= i < |s.ws| && s.ws[i].id == id {
      var t := Apply(s, End(|s.procs| - 1, Exit(code)));
      assert Current(t) == Ended(id, true, Exit(code));
      EndedStep(t);
    }
  }

  // ---------------------------------------------------------------------
  // What the handlers do
  // ---------------------------------------------------------------------

  /** A retry queues the failed workflow of that ID: the same job, as if never run, eligible at once. */
  lemma RetryQueues(s: Sys, id: string)
    ensures var t := Apply(s, Retry(id));
            && OthersStay(s.ws, t.ws, id)
            && (forall i :: 0 <= i < |s.ws| && s.ws[i].id == id && s.ws[i].status != Failed ==> t.ws[i] == s.ws[i])
            && (forall i :: 0 <= i < |s.ws| && s.ws[i].id == id && s.ws[i].status == Failed ==>
                  && SameJob(s.ws[i], t.ws[i]) && t.ws[i].status == Queued && (forall now :: Eligible(t.ws[i], now))
                  && t.ws[i].exitCode == None && t.ws[i].startedAt == None && !t.ws[i].cancelRequested)
            && t.due == s.due + (if HasFailedID(s.ws, id) then 1 else 0)
            && t == s.(ws := t.ws, due := t.due)
  {
    var t := Apply(s, Retry(id));
    assert forall i :: 0 <= i < |s.ws| && s.ws[i].id == id ==> t.ws[i] == Retried(s.ws[i]);
  }

  /** A cancel takes a queued workflow out of the queue; a failed one is to be removed; others stay. */
  lemma CancelTakesOut(s: Sys, id: string)
    ensures var t := Apply(s, Cancel(id));
            && OthersStay(s.ws, t.ws, id)
            && (forall i :: 0 <= i < |s.ws| && s.ws[i].id == id && s.ws[i].status != Queued ==> t.ws[i] == s.ws[i])
            && (forall i :: 0 <= i < |s.ws| && s.ws[i].id == id && s.ws[i].status == Queued ==>
                  && SameJob(s.ws[i], t.ws[i]) && t.ws[i].status == Cancelled && t.ws[i].completedAt == Some(s.clock)
                  && forall now :: !Eligible(t.ws[i], now))
            && t.removals == s.removals + (if HasFailedID(s.ws, id) then [id] else [])
            && t == s.(ws := t.ws, removals := t.removals)
  {
    assert s.removals + [] == s.removals;
  }

  /** The removal that follows takes out the workflow of that ID and no other, and owes an Enqueue. */
  lemma RemovalTakesOut(s: Sys, k: nat)
    requires k < |s.removals| && UniqueIDs(s.ws)
    ensures var t := Apply(s, RemoveFailed(k));
            && (forall w :: w in t.ws <==> w in s.ws && w.id != s.removals[k])
            && t.due == s.due + 1 && t.removals == s.removals[..k] + s.removals[k + 1..]
            && t == s.(ws := t.ws, due := t.due, removals := t.removals)
  {
    WithoutIs(s.ws, s.removals[k]);
  }

  lemma {:induction false} WithoutIs(ws: seq<Workflow>, id: string)
    requires UniqueIDs(ws)
    ensures forall w :: w in WithoutID(ws, id) <==> w in ws && w.id != id
  {
    if ws != [] {
      WithoutIs(ws[1..], id);
      assert ws == [ws[0]] + ws[1..];
    }
  }

  /** An edit changes pipeline and variables of a queued workflow and nothing else. */
  lemma EditChanges(s: Sys, id: string, pipeline: string, variables: map<string, string>)
    ensures var t := Apply(s, Edit(id, pipeline, variables));
            && OthersStay(s.ws, t.ws, id) && t == s.(ws := t.ws)
            && (forall i :: 0 <= i < |s.ws| && s.ws[i].id == id && s.ws[i].status != Queued ==> t.ws[i] == s.ws[i])
            && (forall i :: 0 <= i < |s.ws| && s.ws[i].id == id && s.ws[i].status == Queued ==>
                  && t.ws[i].pipeline == pipeline && t.ws[i].variables == variables
                  && t.ws[i].(pipeline := "", variables := map[]) == s.ws[i].(pipeline := "", variables := map[]))
  {
  }

  /** The step after a pick makes the workflow running from now on and changes no other. */
  lemma StartRuns(s: Sys, n: nat)
    requires n < |s.procs| && s.procs[n].Starting?
    ensures Enabled(s, Step(n))
    ensures var id, t := s.procs[n].id, Apply(s, Step(n));
            && OthersStay(s.ws, t.ws, id) && t.procs == s.procs[n := Executing(id)] && t == s.(ws := t.ws, procs := t.procs)
            && forall i :: 0 <= i < |s.ws| && s.ws[i].id == id ==>
                 SameJob(s.ws[i], t.ws[i]) && t.ws[i].status == Running && t.ws[i].startedAt == Some(s.clock)
  {
  }

  // ---------------------------------------------------------------------
  // A processor makes progress by itself
  // ---------------------------------------------------------------------

  /** The state after `k` steps of processor `n`. */
  function Steps(s: Sys, n: nat, k: nat): Option<Sys>
    decreases k
  {
    if k == 0 then Some(s)
    else if Enabled(s, Step(n)) then Steps(Apply(s, Step(n)), n, k - 1)
    else None
  }

  /**
   In every reachable state without a failed workflow, a processor that waits
   or looks starts the oldest eligible workflow within five steps of its own.
   */
  lemma WaitingProcessorStarts(s0: Sys, es: seq<Event>, i: nat)
    requires Init(s0) && Possible(s0, es)
    requires var s := After(s0, es);
             && (Current(s) == Waiting || Current(s) == CheckFailed) && s.procs != [] && !HasStatus(s.ws, Failed)
             && i < |s.ws| && Eligible(s.ws[i], s.clock) && forall j :: 0 <= j < i ==> !Eligible(s.ws[j], s.clock)
    ensures var s := After(s0, es);
            var r := Steps(s, |s.procs| - 1, if Current(s) == Waiting then 5 else 4);
            && r.Some? && Current(r.value) == Executing(s.ws[i].id)
            && |r.value.ws| == |s.ws| && r.value.ws[i].status == Running
  {
    HoldsInRuns(s0, es);
    NoneRuns(After(s0, es));
    hide Possible, After, Init, Eligible, Steps, HasStatus;
    var s := After(s0, es);
    var n := |s.procs| - 1;
    if Current(s) == Waiting {
      var t := Moved(s, n, CheckFailed);
      OneStep(s, n, 4);
      FromCheckFailed(t, i);
    } else {
      FromCheckFailed(s, i);
    }
  }

  lemma NoneRuns(s: Sys)
    requires Safe(s) && !Current(s).Executing? && !Current(s).Ended?
    ensures !HasStatus(s.ws, Running)
  {
  }

  lemma OneStep(s: Sys, n: nat, k: nat)
    requires Enabled(s, Step(n))
    ensures Steps(s, n, k + 1) == Steps(Apply(s, Step(n)), n, k)
  {
  }

  function Moved(s: Sys, n: nat, at: At): Sys
    requires n < |s.procs|
  {
    s.(procs := s.procs[n := at])
  }

  lemma FromCheckFailed(s: Sys, i: nat)
    requires s.procs != [] && Current(s) == CheckFailed && !HasStatus(s.ws, Failed) && !HasStatus(s.ws, Running)
    requires UniqueIDs(s.ws)
    requires i < |s.ws| && Eligible(s.ws[i], s.clock) && forall j :: 0 <= j < i ==> !Eligible(s.ws[j], s.clock)
    ensures var r := Steps(s, |s.procs| - 1, 4);
            && r.Some? && Current(r.value) == Executing(s.ws[i].id)
            && |r.value.ws| == |s.ws| && r.value.ws[i].status == Running
  {
    hide Steps, HasStatus, Eligible, Next, Put;
    var n := |s.procs| - 1;
    var s1, s2, s3 := Moved(s, n, CheckRunning), Moved(s, n, Pick), Moved(s, n, Starting(s.ws[i].id));
    NextIs(s.ws, s.clock, i);
    assert Apply(s, Step(n)) == s1;
    assert Apply(s1, Step(n)) == s2;
    assert Apply(s2, Step(n)) == s3;
    StartRuns(s3, n);
    OneStep(s, n, 3);
    OneStep(s1, n, 2);
    OneStep(s2, n, 1);
    OneStep(s3, n, 0);
    NoStep(Apply(s3, Step(n)), n);
  }

  lemma NoStep(s: Sys, n: nat)
    ensures Steps(s, n, 0) == Some(s)
  {
  }

  lemma {:induction false} NextIs(ws: seq<Workflow>, now: int, i: nat)
    requires i < |ws| && Eligible(ws[i], now) && forall j :: 0 <= j < i ==> !Eligible(ws[j], now)
    ensures Next(ws, now) == Some(ws[i])
  {
    hide Eligible;
    if i > 0 {
      NextIs(ws[1..], now, i - 1);
    }
  }
}
