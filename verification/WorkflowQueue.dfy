/**
 The workflow queue of one project, shared by its HTTP handlers, the Enqueue
 calls they still owe and its processor goroutines (remote/api/workflow_queue.go
 and workflow_handler.go). Each event is one critical section, so a run is an
 arbitrary interleaving. The 1 s poll of waitForNotify makes a waiting
 processor's next look possible at any time, whatever was signalled.
 */
module WorkflowQueue {
  import opened Common
  import opened WorkflowStores

  const RATE_LIMIT_BACKOFF := 1800  // seconds

  /** How a container run ended: it never started, or its exit code. */
  datatype Outcome = NotStarted | Exit(code: int)

  /** Where a processor goroutine stands. */
  datatype At =
    | CheckFailed
    | CheckRunning
    | Pick
    | Starting(id: string)   // picked; the status is set to running next, unconditionally
    | Executing(id: string)
    | Ended(id: string, cancelRequested: bool, outcome: Outcome)
    | CheckWaiting
    | Locking                // about to take q.mu
    | LockedNext             // the checks made while holding q.mu
    | LockedWaiting
    | LockedExit
    | Waiting                // in waitForNotify
    | Gone

  datatype Sys = Sys(
    ws: seq<Workflow>,       // the project's workflows in creation order
    clock: int,
    active: bool,            // q.active[project]
    lock: Option<nat>,       // the processor holding q.mu
    procs: seq<At>,          // every processor goroutine ever started
    due: nat,                // callers that changed the store and have still to call Enqueue
    removals: seq<string>,   // cancels that saw a failed workflow and have still to remove it
    used: set<string>)       // every ID ever given out; a UUID comes once

  datatype Event =
    | Clock(now: int)
    | Schedule(w: Workflow)
    | Edit(id: string, pipeline: string, variables: map<string, string>)
    | Retry(id: string)
    | Cancel(id: string)
    | RemoveFailed(k: nat)
    | CancelRunning(id: string)
    | Evict
    | Enqueue
    | End(n: nat, outcome: Outcome)  // the container run of processor n ends
    | Step(n: nat)                   // any other step of processor n

  function Put(ws: seq<Workflow>, id: string, f: Workflow -> Workflow): (r: seq<Workflow>)
    ensures |r| == |ws|
  {
    seq(|ws|, i requires 0 <= i < |ws| => if ws[i].id == id then f(ws[i]) else ws[i])
  }

  predicate HasID(ws: seq<Workflow>, id: string) {
    exists i :: 0 <= i < |ws| && ws[i].id == id
  }

  function Next(ws: seq<Workflow>, now: int): (r: Option<Workflow>)
    ensures IsNext(ws, now, r)
  {
    if ws == [] then None
    else if Eligible(ws[0], now) then Some(ws[0])
    else
      var r := Next(ws[1..], now);
      NextInTail(ws, now, r);
      r
  }

  lemma NextInTail(ws: seq<Workflow>, now: int, r: Option<Workflow>)
    requires ws != [] && !Eligible(ws[0], now) && IsNext(ws[1..], now, r)
    ensures IsNext(ws, now, r)
  {
  }

  // ---------------------------------------------------------------------
  // What each call does to a workflow
  // ---------------------------------------------------------------------

  function Edited(w: Workflow, pipeline: string, variables: map<string, string>): Workflow {
    if w.status.Queued? then w.(pipeline := pipeline, variables := variables) else w
  }

  function Retried(w: Workflow): Workflow {
    if w.status.Failed? then
      w.(status := Queued, startedAt := None, completedAt := None, exitCode := None, error := "",
         containerID := "", cancelRequested := false, notBefore := None)
    else w
  }

  function CancelledIfQueued(w: Workflow, now: int): Workflow {
    if w.status.Queued? then w.(status := Cancelled, completedAt := Some(now)) else w
  }

  function CancelMarked(w: Workflow): Workflow {
    if w.status.Running? then w.(cancelRequested := true) else w
  }

  function Started(w: Workflow, now: int): Workflow {
    w.(status := Running, startedAt := Some(now))
  }

  /** The switch at the end of runWorkflow; a failed start is a failure even after a cancel. */
  function Conclude(w: Workflow, cancelRequested: bool, outcome: Outcome, now: int): Workflow {
    if outcome.NotStarted? then Finished(w, Failed, None, now)
    else if cancelRequested then Finished(w, Cancelled, Some(outcome.code), now)
    else if outcome.code == 2 then
      w.(status := Queued, startedAt := None, notBefore := Some(now + RATE_LIMIT_BACKOFF), error := "rate limited",
         exitCode := None, containerID := "")
    else if outcome.code != 0 then Finished(w, Failed, Some(outcome.code), now)
    else Finished(w, Completed, Some(0), now)
  }

  /** finishWorkflow's update: a workflow already in a terminal status stays as it is. */
  function Finished(w: Workflow, status: Status, exitCode: Option<int>, now: int): Workflow {
    if IsTerminal(w.status) then w
    else w.(status := status, exitCode := exitCode, completedAt := Some(now))
  }

  // ---------------------------------------------------------------------
  // Steps
  // ---------------------------------------------------------------------

  predicate Enabled(s: Sys, e: Event) {
    match e
    case Schedule(w) => w.id !in s.used && w.status.Queued? && w.notBefore.None?
    case RemoveFailed(k) => k < |s.removals|
    case Enqueue => s.due > 0 && s.lock.None?
    case End(n, _) => n < |s.procs| && s.procs[n].Executing?
    case Step(n) =>
      && n < |s.procs| && !s.procs[n].Executing? && !s.procs[n].Gone?
      && (s.procs[n].Locking? ==> s.lock.None?)
    case _ => true
  }

  function Move(s: Sys, n: nat, at: At): Sys
    requires n < |s.procs|
  {
    s.(procs := s.procs[n := at])
  }

  function ProcStep(s: Sys, n: nat): Sys
    requires Enabled(s, Step(n))
  {
    match s.procs[n]
    case CheckFailed => Move(s, n, if HasStatus(s.ws, Failed) then Waiting else CheckRunning)
    case CheckRunning => Move(s, n, if HasStatus(s.ws, Running) then Waiting else Pick)
    case Pick =>
      var next := Next(s.ws, s.clock);
      Move(s, n, if next.Some? then Starting(next.value.id) else CheckWaiting)
    case Starting(id) => Move(s, n, Executing(id)).(ws := Put(s.ws, id, w => Started(w, s.clock)))
    case Ended(id, cancelRequested, outcome) =>
      Move(s, n, CheckFailed).(ws := Put(s.ws, id, w => Conclude(w, cancelRequested, outcome, s.clock)))
    case CheckWaiting => Move(s, n, if HasQueuedWaiting(s.ws, s.clock) then Waiting else Locking)
    case Locking => Move(s, n, LockedNext).(lock := Some(n))
    case LockedNext =>
      if Next(s.ws, s.clock).Some? then Move(s, n, CheckFailed).(lock := None) else Move(s, n, LockedWaiting)
    case LockedWaiting =>
      if HasQueuedWaiting(s.ws, s.clock) then Move(s, n, Waiting).(lock := None) else Move(s, n, LockedExit)
    case LockedExit => Move(s, n, Gone).(lock := None, active := false)
    case Waiting => Move(s, n, CheckFailed)
    case Executing(_) => s
    case Gone => s
  }

  function Apply(s: Sys, e: Event): Sys
    requires Enabled(s, e)
  {
    match e
    case Clock(now) => s.(clock := now)
    case Schedule(w) => s.(ws := s.ws + [w], due := s.due + 1, used := s.used + {w.id})
    case Edit(id, pipeline, variables) => s.(ws := Put(s.ws, id, w => Edited(w, pipeline, variables)))
    case Retry(id) =>
      var hit := exists i :: 0 <= i < |s.ws| && s.ws[i].id == id && s.ws[i].status.Failed?;
      s.(ws := Put(s.ws, id, Retried), due := if hit then s.due + 1 else s.due)
    case Cancel(id) =>
      var failed := exists i :: 0 <= i < |s.ws| && s.ws[i].id == id && s.ws[i].status.Failed?;
      s.(ws := Put(s.ws, id, w => CancelledIfQueued(w, s.clock)),
         removals := if failed then s.removals + [id] else s.removals)
    case RemoveFailed(k) =>
      s.(ws := WithoutID(s.ws, s.removals[k]), removals := s.removals[..k] + s.removals[k + 1..], due := s.due + 1)
    case CancelRunning(id) => s.(ws := Put(s.ws, id, CancelMarked))
    case Evict => s.(ws := Evicted(s.ws))
    case Enqueue =>
      if s.active then s.(due := s.due - 1)
      else s.(due := s.due - 1, active := true, procs := s.procs + [CheckFailed])
    case End(n, outcome) =>
      var id := s.procs[n].id;
      var cancelled := exists i :: 0 <= i < |s.ws| && s.ws[i].id == id && s.ws[i].cancelRequested;
      Move(s, n, Ended(id, cancelled, outcome))
    case Step(n) => ProcStep(s, n)
  }

  /** After a restart: nothing runs, and main calls Enqueue once for a project with a queued workflow. */
  ghost predicate Init(s: Sys) {
    && UniqueIDs(s.ws) && !HasStatus(s.ws, Running) && s.used == (set w | w in s.ws :: w.id)
    && !s.active && s.lock == None && s.procs == [] && s.removals == []
    && s.due == (if HasStatus(s.ws, Queued) then 1 else 0)
  }

  // ---------------------------------------------------------------------
  // The invariants
  // ---------------------------------------------------------------------

  ghost predicate UniqueIDs(ws: seq<Workflow>) {
    forall i, j :: 0 <= i < j < |ws| ==> ws[i].id != ws[j].id
  }

  /** The last processor started; all earlier ones are gone in every reachable state. */
  function Current(s: Sys): At {
    if s.procs == [] then Gone else s.procs[|s.procs| - 1]
  }

  predicate HoldsLock(at: At) {
    at.LockedNext? || at.LockedWaiting? || at.LockedExit?
  }

  /** A processor past its look for failed workflows, up to the start of the one it picked. */
  predicate SawNoFailed(at: At) {
    at.CheckRunning? || at.Pick? || at.Starting? || at.CheckWaiting? || at.Locking? || HoldsLock(at)
  }

  /** Only the workflow the current processor executes may be running. */
  ghost predicate RunningIsCurrent(ws: seq<Workflow>, at: At) {
    forall i :: 0 <= i < |ws| && ws[i].status.Running? ==> (at.Executing? || at.Ended?) && at.id == ws[i].id
  }

  /** What the current processor executes is running as long as the store holds it. */
  ghost predicate ExecutedIsRunning(ws: seq<Workflow>, at: At) {
    at.Executing? || at.Ended? ==> forall i :: 0 <= i < |ws| && ws[i].id == at.id ==> ws[i].status.Running?
  }

  ghost predicate Known(ws: seq<Workflow>, used: set<string>) {
    forall i :: 0 <= i < |ws| ==> ws[i].id in used
  }

  ghost predicate Safe(s: Sys) {
    && UniqueIDs(s.ws) && Known(s.ws, s.used)
    && (forall n :: 0 <= n < |s.procs| - 1 ==> s.procs[n].Gone?)
    && (s.active <==> !Current(s).Gone?)
    && s.lock == (if HoldsLock(Current(s)) then Some(|s.procs| - 1) else None)
    && RunningIsCurrent(s.ws, Current(s)) && ExecutedIsRunning(s.ws, Current(s))
    && (Current(s).Starting? || Current(s).Executing? || Current(s).Ended? ==> Current(s).id in s.used)
    && (SawNoFailed(Current(s)) ==> !HasStatus(s.ws, Failed))
  }

  /**
   How often a clock has crossed an instant, starting from `z` crossings: it is
   seen below the instant, then not below it, then below it again, and so on,
   up to four times.
   */
  function Swings(readings: seq<int>, z: nat, instant: int): nat {
    if readings == [] then z else Swings(readings[1..], Swing(z, readings[0], instant), instant)
  }

  function Swing(z: nat, reading: int, instant: int): nat {
    if z < 4 && (if z % 2 == 0 then reading < instant else reading >= instant) then z + 1 else z
  }

  /** Every queued workflow in backoff has seen the clock cross its instant `z` times. */
  ghost predicate Crossed(ws: seq<Workflow>, readings: seq<int>, z: nat) {
    forall i :: 0 <= i < |ws| && ws[i].status.Queued? && ws[i].notBefore.Some? ==>
      Swings(readings, 0, ws[i].notBefore.value) >= z
  }

  /** Only workflows in backoff are queued. */
  ghost predicate AllBackedOff(ws: seq<Workflow>) {
    forall i :: 0 <= i < |ws| && ws[i].status.Queued? ==> ws[i].notBefore.Some?
  }

  /** What is known of the queued workflows while the processor is on its way out, given the clock readings so far. */
  ghost predicate Fed(s: Sys, readings: seq<int>) {
    match Current(s)
    case CheckWaiting => Crossed(s.ws, readings, 1)
    case Locking => Crossed(s.ws, readings, 2)
    case LockedNext => Crossed(s.ws, readings, 2)
    case LockedWaiting => s.due > 0 || (AllBackedOff(s.ws) && Crossed(s.ws, readings, 3))
    case LockedExit => s.due > 0 || (AllBackedOff(s.ws) && Crossed(s.ws, readings, 4))
    case Gone => s.due > 0 || (AllBackedOff(s.ws) && Crossed(s.ws, readings, 4))
    case _ => true
  }

  lemma InitSafe(s: Sys)
    requires Init(s)
    ensures Safe(s) && Fed(s, [s.clock])
  {
    assert forall i :: 0 <= i < |s.ws| ==> s.ws[i] in s.ws;
  }

  lemma {:induction false} OneMoreReading(readings: seq<int>, reading: int, z: nat, instant: int)
    ensures Swings(readings + [reading], z, instant) == Swing(Swings(readings, z, instant), reading, instant)
  {
    if readings == [] {
      assert [reading][1..] == [];
    } else {
      assert (readings + [reading])[1..] == readings[1..] + [reading];
      OneMoreReading(readings[1..], reading, Swing(z, readings[0], instant), instant);
    }
  }

  lemma CrossedStays(ws: seq<Workflow>, readings: seq<int>, reading: int, z: nat)
    requires Crossed(ws, readings, z)
    ensures Crossed(ws, readings + [reading], z)
  {
    forall i | 0 <= i < |ws| && ws[i].status.Queued? && ws[i].notBefore.Some?
      ensures Swings(readings + [reading], 0, ws[i].notBefore.value) >= z
    {
      OneMoreReading(readings, reading, 0, ws[i].notBefore.value);
    }
  }

  /** The clock's last reading decides what the processor sees. */
  ghost predicate Last(readings: seq<int>, clock: int) {
    readings != [] && readings[|readings| - 1] == clock
  }

  /** A look that finds every backoff over, or every one pending, is a crossing more. */
  lemma CrossedMore(ws: seq<Workflow>, readings: seq<int>, clock: int, z: nat)
    requires Last(readings, clock) && Crossed(ws, readings, z) && z < 4
    requires forall i :: 0 <= i < |ws| && ws[i].status.Queued? && ws[i].notBefore.Some? ==>
               (InBackoff(ws[i], clock) <==> z % 2 == 0)
    ensures Crossed(ws, readings, z + 1)
  {
    var before := readings[..|readings| - 1];
    assert readings == before + [clock];
    forall i | 0 <= i < |ws| && ws[i].status.Queued? && ws[i].notBefore.Some?
      ensures Swings(readings, 0, ws[i].notBefore.value) >= z + 1
    {
      OneMoreReading(before, clock, 0, ws[i].notBefore.value);
    }
  }

  // What the value-level updates keep.

  ghost predicate KeepsIDs(f: Workflow -> Workflow) {
    forall w :: f(w).id == w.id
  }

  lemma PutKeepsUnique(ws: seq<Workflow>, id: string, f: Workflow -> Workflow)
    requires UniqueIDs(ws) && KeepsIDs(f)
    ensures UniqueIDs(Put(ws, id, f))
  {
  }

  /** A call that leaves running workflows running, fails none, and queues none but failed ones without backoff. */
  ghost predicate Mild(f: Workflow -> Workflow) {
    forall w ::
      && f(w).id == w.id
      && (f(w).status.Running? <==> w.status.Running?)
      && (f(w).status.Failed? ==> w.status.Failed?)
      && (f(w).status.Queued? ==> (w.status.Queued? && f(w).notBefore == w.notBefore) || (w.status.Failed? && f(w).notBefore.None?))
  }

  predicate HasFailedID(ws: seq<Workflow>, id: string) {
    exists i :: 0 <= i < |ws| && ws[i].id == id && ws[i].status.Failed?
  }

  lemma MildPut(ws: seq<Workflow>, id: string, f: Workflow -> Workflow)
    requires Mild(f)
    ensures Milder(Put(ws, id, f), ws)
    ensures AllBackedOff(ws) && !HasFailedID(ws, id) ==> AllBackedOff(Put(ws, id, f))
    ensures AllBackedOff(ws) && (forall w :: f(w).status.Queued? ==> w.status.Queued?) ==> AllBackedOff(Put(ws, id, f))
  {
  }

  /** The same workflows, after a mild call on some of them. */
  ghost predicate Milder(r: seq<Workflow>, ws: seq<Workflow>) {
    && |r| == |ws|
    && forall i :: 0 <= i < |ws| ==>
         && r[i].id == ws[i].id
         && (r[i].status.Running? <==> ws[i].status.Running?)
         && (r[i].status.Failed? ==> ws[i].status.Failed?)
         && (r[i].status.Queued? ==> r[i].notBefore.None? || (ws[i].status.Queued? && r[i].notBefore == ws[i].notBefore))
  }

  /** Workflows that are all among, or mildly changed from, those of `ws`. */
  ghost predicate Harmless(r: seq<Workflow>, ws: seq<Workflow>, at: At, used: set<string>) {
    && (UniqueIDs(ws) ==> UniqueIDs(r)) && (Known(ws, used) ==> Known(r, used))
    && (RunningIsCurrent(ws, at) ==> RunningIsCurrent(r, at))
    && (ExecutedIsRunning(ws, at) ==> ExecutedIsRunning(r, at))
    && (!HasStatus(ws, Failed) ==> !HasStatus(r, Failed))
  }

  lemma MilderIsHarmless(r: seq<Workflow>, ws: seq<Workflow>, at: At, used: set<string>, readings: seq<int>, z: nat)
    requires Milder(r, ws)
    ensures Harmless(r, ws, at, used)
    ensures Crossed(ws, readings, z) ==> Crossed(r, readings, z)
  {
  }

  /** Fewer workflows, none new. */
  ghost predicate Within(r: seq<Workflow>, ws: seq<Workflow>) {
    && (UniqueIDs(ws) ==> UniqueIDs(r))
    && forall i :: 0 <= i < |r| ==> r[i] in ws
  }

  lemma {:induction false} RemoveWithin(ws: seq<Workflow>, id: string)
    ensures Within(WithoutID(ws, id), ws)
  {
    if ws != [] {
      RemoveWithin(ws[1..], id);
      assert forall i :: 0 <= i < |ws[1..]| ==> ws[1..][i] in ws;
      WithinCons(ws, WithoutID(ws[1..], id));
    }
  }

  lemma {:induction false} DropWithin(ws: seq<Workflow>, n: nat)
    ensures Within(DropTerminal(ws, n), ws)
    decreases |ws|
  {
    if ws != [] && n > 0 {
      DropWithin(ws[1..], n);
      DropWithin(ws[1..], n - 1);
      assert forall i :: 0 <= i < |ws[1..]| ==> ws[1..][i] in ws;
      WithinCons(ws, DropTerminal(ws[1..], n));
    }
  }

  lemma WithinCons(ws: seq<Workflow>, r: seq<Workflow>)
    requires ws != [] && Within(r, ws[1..])
    ensures Within([ws[0]] + r, ws)
  {
  }

  lemma WithinIsHarmless(r: seq<Workflow>, ws: seq<Workflow>, at: At, used: set<string>, readings: seq<int>, z: nat)
    requires Within(r, ws)
    ensures Harmless(r, ws, at, used)
    ensures Crossed(ws, readings, z) ==> Crossed(r, readings, z)
    ensures AllBackedOff(ws) ==> AllBackedOff(r)
  {
  }

  // ---------------------------------------------------------------------
  // Every step keeps the invariants
  // ---------------------------------------------------------------------

  predicate IsUpdate(e: Event) {
    e.Edit? || e.Retry? || e.Cancel? || e.CancelRunning?
  }

  /** The readings after an event. */
  function Read(readings: seq<int>, e: Event): seq<int> {
    if e.Clock? then readings + [e.now] else readings
  }

  ghost predicate Holds(s: Sys, readings: seq<int>) {
    Safe(s) && Fed(s, readings) && Last(readings, s.clock)
  }

  /** A new list of workflows under an unchanged processor. */
  lemma NewList(s: Sys, s': Sys, readings: seq<int>)
    requires Holds(s, readings)
    requires s' == s.(ws := s'.ws, due := s'.due, removals := s'.removals)
    requires Harmless(s'.ws, s.ws, Current(s), s.used)
    requires forall z :: Crossed(s.ws, readings, z) ==> Crossed(s'.ws, readings, z)
    requires s.due <= s'.due && (s'.due > 0 || (AllBackedOff(s.ws) ==> AllBackedOff(s'.ws)))
    ensures Holds(s', readings)
  {
    hide UniqueIDs, RunningIsCurrent, ExecutedIsRunning, HasStatus, Crossed, AllBackedOff, Known;
  }

  /** What one of the four update calls does to a workflow. */
  function UpdateOf(e: Event, now: int): Workflow -> Workflow
    requires IsUpdate(e)
  {
    match e
    case Edit(_, pipeline, variables) => w => Edited(w, pipeline, variables)
    case Retry(_) => Retried
    case Cancel(_) => w => CancelledIfQueued(w, now)
    case _ => CancelMarked
  }

  lemma UpdatesAreMild(e: Event, now: int)
    requires IsUpdate(e)
    ensures Mild(UpdateOf(e, now))
    ensures !e.Retry? ==> forall w :: UpdateOf(e, now)(w).status.Queued? ==> w.status.Queued?
  {
    match e
    case Edit(_, _, _) =>
    case Retry(_) =>
    case Cancel(_) =>
    case CancelRunning(_) =>
  }

  lemma UpdateKeeps(s: Sys, e: Event, readings: seq<int>)
    requires Holds(s, readings) && Enabled(s, e) && IsUpdate(e)
    ensures Holds(Apply(s, e), readings) && Milder(Apply(s, e).ws, s.ws)
  {
    hide Holds, Harmless, Milder, Crossed, AllBackedOff, Put, Mild;
    var f := UpdateOf(e, s.clock);
    var s' := Apply(s, e);
    assert s'.ws == Put(s.ws, e.id, f);
    UpdatesAreMild(e, s.clock);
    MildPut(s.ws, e.id, f);
    MilderIsHarmless(s'.ws, s.ws, Current(s), s.used, readings, 0);
    forall z | Crossed(s.ws, readings, z)
      ensures Crossed(s'.ws, readings, z)
    {
      MilderIsHarmless(s'.ws, s.ws, Current(s), s.used, readings, z);
    }
    NewList(s, s', readings);
  }

  lemma DropKeeps(s: Sys, e: Event, readings: seq<int>)
    requires Holds(s, readings) && Enabled(s, e) && (e.RemoveFailed? || e.Evict?)
    ensures Holds(Apply(s, e), readings) && Within(Apply(s, e).ws, s.ws)
  {
    hide Holds, Harmless, Within, DropTerminal, WithoutID, Crossed, AllBackedOff;
    var s' := Apply(s, e);
    if e.Evict? {
      EvictWithin(s.ws);
    } else {
      RemoveWithin(s.ws, s.removals[e.k]);
    }
    WithinIsHarmless(s'.ws, s.ws, Current(s), s.used, readings, 0);
    forall z | Crossed(s.ws, readings, z)
      ensures Crossed(s'.ws, readings, z)
    {
      WithinIsHarmless(s'.ws, s.ws, Current(s), s.used, readings, z);
    }
    NewList(s, s', readings);
  }

  lemma EvictWithin(ws: seq<Workflow>)
    ensures Within(Evicted(ws), ws)
  {
    if |ws| > MAX_WORKFLOWS_PER_PROJECT {
      DropWithin(ws, |ws| - MAX_WORKFLOWS_PER_PROJECT);
    }
  }

  lemma ScheduleKeeps(s: Sys, w: Workflow, readings: seq<int>)
    requires Holds(s, readings) && Enabled(s, Schedule(w))
    ensures Holds(Apply(s, Schedule(w)), readings)
  {
    hide Swings;
  }

  lemma StartKeeps(s: Sys, n: nat, readings: seq<int>)
    requires Holds(s, readings) && Enabled(s, Step(n)) && s.procs[n].Starting?
    ensures Holds(Apply(s, Step(n)), readings)
  {
    hide Swings, Crossed;
    PutKeepsUnique(s.ws, s.procs[n].id, w => Started(w, s.clock));
  }

  lemma ConcludeKeeps(s: Sys, n: nat, readings: seq<int>)
    requires Holds(s, readings) && Enabled(s, Step(n)) && s.procs[n].Ended?
    ensures Holds(Apply(s, Step(n)), readings)
  {
    hide Swings, Crossed;
    var Ended(id, cancelRequested, outcome) := s.procs[n];
    var f := w => Conclude(w, cancelRequested, outcome, s.clock);
    PutKeepsUnique(s.ws, id, f);
    forall i | 0 <= i < |s.ws|
      ensures !Put(s.ws, id, f)[i].status.Running?
    {
      assert s.ws[i].status.Running? ==> s.ws[i].id == id;
    }
  }

  /** A look of NextQueued that finds nothing: every queued workflow is in backoff. */
  lemma NextFindsNone(ws: seq<Workflow>, readings: seq<int>, clock: int, z: nat)
    requires Next(ws, clock).None? && Last(readings, clock) && Crossed(ws, readings, z) && z % 2 == 0 && z < 4
    ensures AllBackedOff(ws) && Crossed(ws, readings, z + 1)
  {
    CrossedMore(ws, readings, clock, z);
  }

  /** A look of HasQueuedWaiting that finds nothing: no backoff is pending. */
  lemma NoneWaiting(ws: seq<Workflow>, readings: seq<int>, clock: int, z: nat)
    requires !HasQueuedWaiting(ws, clock) && Last(readings, clock) && Crossed(ws, readings, z) && z % 2 == 1 && z < 4
    ensures Crossed(ws, readings, z + 1)
  {
    CrossedMore(ws, readings, clock, z);
  }

  /** The steps that only look at the store. */
  lemma LookKeeps(s: Sys, n: nat, readings: seq<int>)
    requires Holds(s, readings) && Enabled(s, Step(n)) && !s.procs[n].Starting? && !s.procs[n].Ended?
    ensures Holds(Apply(s, Step(n)), readings)
  {
    LookSafe(s, n);
    LookFed(s, n, readings);
    hide Safe, Fed;
  }

  lemma LookSafe(s: Sys, n: nat)
    requires Safe(s) && Enabled(s, Step(n)) && !s.procs[n].Starting? && !s.procs[n].Ended?
    ensures Safe(Apply(s, Step(n)))
  {
    hide Next, UniqueIDs, RunningIsCurrent, ExecutedIsRunning, HasQueuedWaiting, Known, HasStatus;
    assert n == |s.procs| - 1;
    RunningAnywhere(s.ws, s.procs[n], Apply(s, Step(n)).procs[n]);
    if s.procs[n].Pick? && Next(s.ws, s.clock).Some? {
      NextIsKnown(s.ws, s.clock, s.used);
    }
  }

  lemma LookFed(s: Sys, n: nat, readings: seq<int>)
    requires Holds(s, readings) && Enabled(s, Step(n)) && !s.procs[n].Starting? && !s.procs[n].Ended?
    ensures Fed(Apply(s, Step(n)), readings)
  {
    hide Next, UniqueIDs, RunningIsCurrent, ExecutedIsRunning, HasQueuedWaiting, Known, HasStatus, Crossed, AllBackedOff,
         Last;
    assert n == |s.procs| - 1;
    match s.procs[n] {
      case Pick =>
        if Next(s.ws, s.clock).None? {
          NoCrossing(s.ws, readings);
          NextFindsNone(s.ws, readings, s.clock, 0);
        }
      case CheckWaiting =>
        if !HasQueuedWaiting(s.ws, s.clock) {
          NoneWaiting(s.ws, readings, s.clock, 1);
        }
      case LockedNext =>
        if Next(s.ws, s.clock).None? {
          NextFindsNone(s.ws, readings, s.clock, 2);
        }
      case LockedWaiting =>
        if !HasQueuedWaiting(s.ws, s.clock) && s.due == 0 {
          NoneWaiting(s.ws, readings, s.clock, 3);
        }
      case _ =>
    }
  }

  lemma NoCrossing(ws: seq<Workflow>, readings: seq<int>)
    ensures Crossed(ws, readings, 0)
  {
  }

  lemma NextIsKnown(ws: seq<Workflow>, now: int, used: set<string>)
    requires Known(ws, used) && Next(ws, now).Some?
    ensures Next(ws, now).value.id in used
  {
  }

  /** Between executions no workflow is running, wherever the processor stands. */
  lemma RunningAnywhere(ws: seq<Workflow>, at: At, at': At)
    requires RunningIsCurrent(ws, at) && !at.Executing? && !at.Ended?
    ensures RunningIsCurrent(ws, at') && (!at'.Executing? && !at'.Ended? ==> ExecutedIsRunning(ws, at'))
  {
  }

  lemma EndKeeps(s: Sys, n: nat, outcome: Outcome, readings: seq<int>)
    requires Holds(s, readings) && Enabled(s, End(n, outcome))
    ensures Holds(Apply(s, End(n, outcome)), readings)
  {
    hide Swings, Crossed, UniqueIDs, HasStatus;
  }

  lemma EnqueueKeeps(s: Sys, readings: seq<int>)
    requires Holds(s, readings) && Enabled(s, Enqueue)
    ensures Holds(Apply(s, Enqueue), readings)
  {
    hide HasStatus, UniqueIDs, Swings, Crossed;
  }

  lemma ClockKeeps(s: Sys, now: int, readings: seq<int>)
    requires Holds(s, readings)
    ensures Holds(Apply(s, Clock(now)), readings + [now])
  {
    hide HasStatus, UniqueIDs, Crossed, AllBackedOff;
    forall z | Crossed(s.ws, readings, z)
      ensures Crossed(s.ws, readings + [now], z)
    {
      CrossedStays(s.ws, readings, now, z);
    }
  }

  lemma StepKeeps(s: Sys, e: Event, readings: seq<int>)
    requires Holds(s, readings) && Enabled(s, e)
    ensures Holds(Apply(s, e), Read(readings, e))
  {
    hide Holds;
    match e
    case Clock(now) => ClockKeeps(s, now, readings);
    case Schedule(w) => ScheduleKeeps(s, w, readings);
    case Evict => DropKeeps(s, e, readings);
    case RemoveFailed(_) => DropKeeps(s, e, readings);
    case Enqueue => EnqueueKeeps(s, readings);
    case End(n, outcome) => EndKeeps(s, n, outcome, readings);
    case Step(n) =>
      if s.procs[n].Starting? {
        StartKeeps(s, n, readings);
      } else if s.procs[n].Ended? {
        ConcludeKeeps(s, n, readings);
      } else {
        LookKeeps(s, n, readings);
      }
    case _ => UpdateKeeps(s, e, readings);
  }

  // ---------------------------------------------------------------------
  // Runs
  // ---------------------------------------------------------------------

  predicate Possible(s: Sys, es: seq<Event>)
    decreases |es|
  {
    es == [] || (Enabled(s, es[0]) && Possible(Apply(s, es[0]), es[1..]))
  }

  function After(s: Sys, es: seq<Event>): Sys
    requires Possible(s, es)
    decreases |es|
  {
    if es == [] then s else After(Apply(s, es[0]), es[1..])
  }

  /** The clock readings of a run, given those before it. */
  function Readings(before: seq<int>, es: seq<Event>): seq<int>
    decreases |es|
  {
    if es == [] then before else Readings(Read(before, es[0]), es[1..])
  }

  lemma {:induction false} RunKeeps(s: Sys, es: seq<Event>, readings: seq<int>)
    requires Holds(s, readings) && Possible(s, es)
    ensures Holds(After(s, es), Readings(readings, es))
    decreases |es|
  {
    hide Holds;
    if es != [] {
      StepKeeps(s, es[0], readings);
      RunKeeps(Apply(s, es[0]), es[1..], Read(readings, es[0]));
    }
  }

  lemma HoldsInRuns(s0: Sys, es: seq<Event>)
    requires Init(s0) && Possible(s0, es)
    ensures Holds(After(s0, es), Readings([s0.clock], es))
  {
    InitSafe(s0);
    RunKeeps(s0, es, [s0.clock]);
  }
}
