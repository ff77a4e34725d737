/** When workflows enter running, and in which order the processors of remote/api/workflow_queue.go take them up. */
module WorkflowOrders {
  import opened Common
  import opened WorkflowStores
  import opened WorkflowQueue

  /** In every reachable state there is at most one processor and at most one running workflow. */
  lemma AtMostOneRuns(s0: Sys, es: seq<Event>)
    requires Init(s0) && Possible(s0, es)
    ensures var s := After(s0, es);
            && (forall m, n :: 0 <= m < |s.procs| && 0 <= n < |s.procs| && !s.procs[m].Gone? && !s.procs[n].Gone? ==> m == n)
            && (forall i, j :: 0 <= i < |s.ws| && 0 <= j < |s.ws| && s.ws[i].status.Running? && s.ws[j].status.Running? ==> i == j)
  {
    HoldsInRuns(s0, es);
    var s := After(s0, es);
    forall i, j | 0 <= i < |s.ws| && 0 <= j < |s.ws| && s.ws[i].status.Running? && s.ws[j].status.Running?
      ensures i == j
    {
      assert s.ws[i].id == s.ws[j].id;
    }
  }

  ghost predicate EntersRunning(s: Sys, e: Event, id: string)
    requires Enabled(s, e)
  {
    var ws' := Apply(s, e).ws;
    && (exists i :: 0 <= i < |ws'| && ws'[i].id == id && ws'[i].status.Running?)
    && !(exists i :: 0 <= i < |s.ws| && s.ws[i].id == id && s.ws[i].status.Running?)
  }

  /**
   A workflow enters running exactly when a processor starts the one it has
   picked and the store still holds it. At that moment the store holds no
   failed and no other running workflow of the project.
   */
  lemma EntersRunningOnlyWhenClear(s0: Sys, es: seq<Event>, e: Event, id: string)
    requires Init(s0) && Possible(s0, es) && Enabled(After(s0, es), e)
    ensures var s := After(s0, es);
            && (EntersRunning(s, e, id) <==> e.Step? && s.procs[e.n] == Starting(id) && HasID(s.ws, id))
            && (EntersRunning(s, e, id) ==> !HasStatus(s.ws, Failed) && !HasStatus(s.ws, Running))
  {
    HoldsInRuns(s0, es);
    var s := After(s0, es);
    if e.Step? && s.procs[e.n].Starting? {
      StartsPicked(s, e.n, id);
    } else {
      OthersStartNothing(s, e);
    }
  }

  lemma StartsPicked(s: Sys, n: nat, id: string)
    requires Safe(s) && Enabled(s, Step(n)) && s.procs[n].Starting?
    ensures EntersRunning(s, Step(n), id) <==> s.procs[n].id == id && HasID(s.ws, id)
    ensures !HasStatus(s.ws, Failed) && !HasStatus(s.ws, Running)
  {
    var ws' := Apply(s, Step(n)).ws;
    assert n == |s.procs| - 1 && forall i :: 0 <= i < |s.ws| ==> !s.ws[i].status.Running?;
    if s.procs[n].id == id && HasID(s.ws, id) {
      var i :| 0 <= i < |s.ws| && s.ws[i].id == id;
      assert ws'[i].id == id && ws'[i].status.Running?;
    }
    if EntersRunning(s, Step(n), id) {
      var i :| 0 <= i < |ws'| && ws'[i].id == id && ws'[i].status.Running?;
      assert s.ws[i].id == id;
    }
  }

  lemma OthersStartNothing(s: Sys, e: Event)
    requires Safe(s) && Enabled(s, e) && !(e.Step? && s.procs[e.n].Starting?)
    ensures forall id :: !EntersRunning(s, e, id)
  {
    var ws' := Apply(s, e).ws;
    if e.Evict? {
      EvictWithin(s.ws);
      hide Evicted;
    } else if e.RemoveFailed? {
      RemoveWithin(s.ws, s.removals[e.k]);
      hide WithoutID;
    } else if e.Step? && s.procs[e.n].Ended? {
      ConcludeStartsNothing(s, e.n);
    } else if IsUpdate(e) {
      UpdatesAreMild(e, s.clock);
      assert ws' == Put(s.ws, e.id, UpdateOf(e, s.clock));
      MildPut(s.ws, e.id, UpdateOf(e, s.clock));
      hide Put;
    } else {
      assert e.Schedule? || ws' == s.ws;
    }
  }

  lemma ConcludeStartsNothing(s: Sys, n: nat)
    requires Safe(s) && Enabled(s, Step(n)) && s.procs[n].Ended?
    ensures !HasStatus(Apply(s, Step(n)).ws, Running)
  {
  }

  // ---------------------------------------------------------------------
  // The order of processing
  // ---------------------------------------------------------------------

  lemma {:induction false} OneMoreEvent(s: Sys, es: seq<Event>, e: Event)
    ensures Possible(s, es + [e]) <==> Possible(s, es) && Enabled(After(s, es), e)
    ensures Possible(s, es + [e]) ==> After(s, es + [e]) == Apply(After(s, es), e)
    decreases |es|
  {
    if es == [] {
      assert [] + [e] == [e] && [e][1..] == [];
    } else {
      assert (es + [e])[0] == es[0] && (es + [e])[1..] == es[1..] + [e];
      if Enabled(s, es[0]) {
        OneMoreEvent(Apply(s, es[0]), es[1..], e);
      }
    }
  }

  /** At step `k` a processor picked `id`: it was eligible, and no workflow created before it was. */
  ghost predicate PickedAt(s0: Sys, es: seq<Event>, k: nat, id: string) {
    && k < |es| && es[k].Step? && Possible(s0, es[..k])
    && var s := After(s0, es[..k]);
       && es[k].n < |s.procs| && s.procs[es[k].n].Pick?
       && exists i :: 0 <= i < |s.ws| && s.ws[i].id == id && Eligible(s.ws[i], s.clock)
                      && forall j :: 0 <= j < i ==> !Eligible(s.ws[j], s.clock)
  }

  lemma StartingIsPicked(s: Sys, e: Event, id: string)
    requires Safe(s) && Enabled(s, e) && Current(Apply(s, e)) == Starting(id) && Current(s) != Starting(id)
    ensures e.Step? && s.procs[e.n].Pick? && Next(s.ws, s.clock).Some? && Next(s.ws, s.clock).value.id == id
  {
    hide Next, UniqueIDs, RunningIsCurrent, ExecutedIsRunning, HasQueuedWaiting, Known, HasStatus;
  }

  lemma {:induction false} StartingWasPicked(s0: Sys, es: seq<Event>, id: string) returns (k: nat)
    requires Init(s0) && Possible(s0, es) && Current(After(s0, es)) == Starting(id)
    ensures PickedAt(s0, es, k, id)
    ensures forall m :: k < m <= |es| ==> Possible(s0, es[..m]) && Current(After(s0, es[..m])) == Starting(id)
    decreases |es|
  {
    assert es != [];
    var before, e := es[..|es| - 1], es[|es| - 1];
    assert es == before + [e] && es[..|es|] == es;
    OneMoreEvent(s0, before, e);
    HoldsInRuns(s0, before);
    var s := After(s0, before);
    hide After, Possible, Apply, Init, Safe, Fed;
    if Current(s) == Starting(id) {
      k := StartingWasPicked(s0, before, id);
      assert es[..k] == before[..k];
      assert forall m :: k < m <= |before| ==> es[..m] == before[..m];
    } else {
      StartingIsPicked(s, e, id);
      k := |before|;
    }
  }

  /**
   Workflows are processed in creation order: when one enters running, a
   processor had picked it, at that moment no workflow created before it was
   eligible, and the processor has done nothing else since.
   */
  lemma ProcessedInCreationOrder(s0: Sys, es: seq<Event>, e: Event, id: string) returns (k: nat)
    requires Init(s0) && Possible(s0, es) && Enabled(After(s0, es), e) && EntersRunning(After(s0, es), e, id)
    ensures PickedAt(s0, es, k, id)
    ensures forall m :: k < m <= |es| ==> Possible(s0, es[..m]) && Current(After(s0, es[..m])) == Starting(id)
  {
    EntersRunningOnlyWhenClear(s0, es, e, id);
    HoldsInRuns(s0, es);
    var s := After(s0, es);
    assert s.procs[e.n] == Starting(id) && e.n == |s.procs| - 1;
    k := StartingWasPicked(s0, es, id);
  }
}
