/** When a cancel is final: HandleCancel of remote/api/workflow_handler.go against the processors of workflow_queue.go. */
module WorkflowCancels {
  import opened Common
  import opened WorkflowStores
  import opened WorkflowOrders
  import opened WorkflowQueue

  ghost predicate OnlyCancelled(ws: seq<Workflow>, id: string) {
    forall i :: 0 <= i < |ws| && ws[i].id == id ==> ws[i].status.Cancelled?
  }

  /** Nobody has anything more to do with `id`. */
  ghost predicate Finalized(s: Sys, id: string) {
    && Safe(s) && OnlyCancelled(s.ws, id) && id in s.used
    && (Current(s).Starting? || Current(s).Executing? || Current(s).Ended? ==> Current(s).id != id)
  }

  lemma FinalizedStays(s: Sys, e: Event, id: string, readings: seq<int>)
    requires Holds(s, readings) && Enabled(s, e) && Finalized(s, id)
    ensures Finalized(Apply(s, e), id)
  {
    hide Evicted, WithoutID, Next, HasStatus, HasQueuedWaiting, Fed, Put, OnlyCancelled;
    hide UniqueIDs, Known, RunningIsCurrent, ExecutedIsRunning, Last;
    StepKeeps(s, e, readings);
    CancelledStays(s, e, id);
    NextIsNot(s.ws, s.clock, id);
    assert e.Step? || e.End? ==> e.n == |s.procs| - 1;
  }

  lemma NextIsNot(ws: seq<Workflow>, now: int, id: string)
    requires OnlyCancelled(ws, id)
    ensures Next(ws, now).Some? ==> Next(ws, now).value.id != id
  {
  }

  lemma UpdateKeepsCancelled(s: Sys, e: Event)
    requires Enabled(s, e) && IsUpdate(e)
    ensures forall id :: OnlyCancelled(s.ws, id) ==> OnlyCancelled(Apply(s, e).ws, id)
  {
    assert Apply(s, e).ws == Put(s.ws, e.id, UpdateOf(e, s.clock));
  }

  lemma CancelledStays(s: Sys, e: Event, id: string)
    requires Enabled(s, e) && Finalized(s, id)
    ensures OnlyCancelled(Apply(s, e).ws, id)
  {
    hide Next, UniqueIDs, RunningIsCurrent, ExecutedIsRunning, Known, HasStatus, HasQueuedWaiting;
    if IsUpdate(e) {
      UpdateKeepsCancelled(s, e);
    } else if e.Evict? {
      EvictWithin(s.ws);
      hide Evicted;
    } else if e.RemoveFailed? {
      RemoveWithin(s.ws, s.removals[e.k]);
      hide WithoutID;
    }
  }

  lemma {:induction false} FinalizedForGood(s: Sys, fs: seq<Event>, id: string, readings: seq<int>)
    requires Holds(s, readings) && Possible(s, fs) && Finalized(s, id)
    ensures Finalized(After(s, fs), id)
    decreases |fs|
  {
    hide Holds, Finalized;
    if fs != [] {
      FinalizedStays(s, fs[0], id, readings);
      StepKeeps(s, fs[0], readings);
      FinalizedForGood(Apply(s, fs[0]), fs[1..], id, Read(readings, fs[0]));
    }
  }

  /**
   A cancelled workflow stays cancelled, or leaves the store, whatever happens
   afterwards, if and only if no processor had picked it before the cancel.
   */
  lemma CancelIsFinalUnlessPicked(s0: Sys, es: seq<Event>, id: string)
    requires Init(s0) && Possible(s0, es)
    requires HasID(After(s0, es).ws, id) && OnlyCancelled(After(s0, es).ws, id)
    ensures var s := After(s0, es);
            (forall fs :: Possible(s, fs) ==> OnlyCancelled(After(s, fs).ws, id)) <==> Current(s) != Starting(id)
  {
    HoldsInRuns(s0, es);
    var s := After(s0, es);
    if Current(s) == Starting(id) {
      PickedIsRevived(s, id);
    } else {
      assert Finalized(s, id);
      forall fs | Possible(s, fs)
        ensures OnlyCancelled(After(s, fs).ws, id)
      {
        FinalizedForGood(s, fs, id, Readings([s0.clock], es));
      }
    }
  }

  lemma PickedIsRevived(s: Sys, id: string)
    requires Safe(s) && HasID(s.ws, id) && Current(s) == Starting(id)
    ensures exists fs :: Possible(s, fs) && !OnlyCancelled(After(s, fs).ws, id)
  {
    var e := Step(|s.procs| - 1);
    StartsPicked(s, e.n, id);
    var i :| 0 <= i < |Apply(s, e).ws| && Apply(s, e).ws[i].id == id && Apply(s, e).ws[i].status.Running?;
    First(s, e, Apply(s, e), []);
    assert [e] + [] == [e];
    assert Possible(s, [e]) && !OnlyCancelled(After(s, [e]).ws, id);
  }

  function Fresh(): Workflow {
    Workflow("w", "p", "tasks/t", map[], Queued, 0, None, None, "", None, None, "", false)
  }

  /** One workflow and one processor, and nobody due to call Enqueue. */
  function Alone(w: Workflow, clock: int, at: At): Sys {
    Sys([w], clock, !at.Gone?, if HoldsLock(at) then Some(0) else None, [at], 0, [], {w.id})
  }

  /** A run that goes on from the state after its first event. */
  lemma First(s: Sys, e: Event, s': Sys, rest: seq<Event>)
    requires Enabled(s, e) && Apply(s, e) == s' && Possible(s', rest)
    ensures Possible(s, [e] + rest) && After(s, [e] + rest) == After(s', rest)
    ensures forall before :: Readings(before, [e] + rest) == Readings(Read(before, e), rest)
  {
    assert ([e] + rest)[1..] == rest;
  }

  /** From a restart to the moment the processor picks. */
  lemma ToPick(w: Workflow, clock: int, rest: seq<Event>) returns (s0: Sys, es: seq<Event>)
    requires w.status.Queued? && Possible(Alone(w, clock, Pick), rest)
    ensures Init(s0) && s0.clock == clock && Possible(s0, es) && After(s0, es) == After(Alone(w, clock, Pick), rest)
    ensures forall before :: Readings(before, es) == Readings(before, rest)
  {
    hide Next, Readings, Possible, After;
    s0 := Sys([w], clock, false, None, [], 1, [], {w.id});
    assert s0.ws[0].status == Queued && s0.used == set x | x in s0.ws :: x.id;
    First(Alone(w, clock, CheckRunning), Step(0), Alone(w, clock, Pick), rest);
    es := [Step(0)] + rest;
    First(Alone(w, clock, CheckFailed), Step(0), Alone(w, clock, CheckRunning), es);
    es := [Step(0)] + es;
    First(s0, Enqueue, Alone(w, clock, CheckFailed), es);
    es := [Enqueue] + es;
  }

  /** A workflow cancelled after a processor has picked it runs all the same. */
  lemma CancelledMayRun() returns (s0: Sys, es: seq<Event>)
    ensures Init(s0) && Possible(s0, es)
    ensures After(s0, es).ws == [Started(CancelledIfQueued(Fresh(), 0), 0)]
  {
    var w, c := Fresh(), CancelledIfQueued(Fresh(), 0);
    assert Next([w], 0) == Some(w);
    First(Alone(c, 0, Starting("w")), Step(0), Alone(Started(c, 0), 0, Executing("w")), []);
    var r := [Step(0)] + [];
    First(Alone(w, 0, Starting("w")), Cancel("w"), Alone(c, 0, Starting("w")), r);
    r := [Cancel("w")] + r;
    First(Alone(w, 0, Pick), Step(0), Alone(w, 0, Starting("w")), r);
    s0, es := ToPick(w, 0, [Step(0)] + r);
  }
}
