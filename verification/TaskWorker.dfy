/**
 One project's queue shared by its HTTP handlers, its worker goroutine and any
 number of Stop or ForceKill calls (tools/taskline/server/worker.go and
 handler.go). Each event is one critical section or one channel operation, so
 a run is an arbitrary interleaving of all of them.
 */
module TaskWorker {
  import opened Common
  import opened TaskQueueModel

  const EXIT_CODE_STOPPED := -1
  const EXIT_CODE_SPAWN_FAILURE := -3
  const EXIT_CODE_WAIT_FAILURE := -4

  /** What proc.Wait reports: the exit code, or none when waiting failed. */
  type WaitResult = Option<int>

  /** How a task was taken off the running state: 0 for MarkComplete, else MarkFailed's code. */
  datatype Mark = Mark(id: string, code: int)

  /** The runningTask record of one started process; `marked` is what finishTask did to the queue for it. */
  datatype Process = Process(task: TaskData, stopped: bool, done: bool, marked: Option<Mark>)

  /** A Stop or ForceKill call that found process `number`: blocked on its done channel, or returned its task. */
  datatype StopCall = StopWaiting(number: nat) | StopReturned(number: nat)

  datatype WorkerAt =
    | Checking                                   // top of Run: the non-blocking look at quit
    | Starting                                   // about to call StartNext
    | Parked                                     // select on wake and quit
    | Spawning(task: TaskData)                   // in runner.Start
    | Spawned(task: TaskData)                    // started, w.running not yet set
    | Running(number: nat)                       // in proc.Wait
    | Exited(number: nat, result: WaitResult)    // process gone, w.mu not yet taken
    | Finishing(task: TaskData, code: int, process: Option<nat>)  // before the queue is updated
    | Marked(process: Option<nat>)               // queue updated; persisting and notifying
    | Stopped                                    // Run returned

  datatype Sys = Sys(
    queue: Queue,
    worker: WorkerAt,
    wake: bool,               // the one-slot channel holds a token
    quit: bool,
    due: nat,                 // handlers that changed the queue and have still to call Notify
    running: Option<nat>,     // w.running
    processes: seq<Process>,
    stops: seq<StopCall>)

  datatype Event =
    | Handle(op: Op)          // the queue call of a handler
    | Notify                  // the Notify of a handler
    | Shutdown
    | CheckQuit
    | StartNext
    | Wake
    | SeeQuit
    | Spawn(started: bool)
    | Register
    | ProcessExit(result: WaitResult)
    | Collect
    | Finish
    | Done
    | Stop                    // first critical section of Stop or ForceKill
    | StopReturn(call: nat)

  predicate HandlerOp(op: Op) {
    op.Add? || op.Retry? || op.Skip? || op.Resume? || op.Delete? || op.Update?
  }

  /** Which successful handlers call Notify: create, retry, skip, and resume unless nothing is pending. */
  predicate Notifies(q: Queue, op: Op) {
    op.Add? || op.Retry? || op.Skip? || (op.Resume? && q.pending != [])
  }

  ghost predicate Enabled(s: Sys, e: Event) {
    match e
    case Handle(op) => HandlerOp(op) && Allowed(s.queue, op)
    case Notify => s.due > 0
    case Shutdown => !s.quit
    case CheckQuit => s.worker.Checking?
    case StartNext => s.worker.Starting?
    case Wake => s.worker.Parked? && s.wake
    case SeeQuit => s.worker.Parked? && s.quit
    case Spawn(_) => s.worker.Spawning?
    case Register => s.worker.Spawned?
    case ProcessExit(_) => s.worker.Running?
    case Collect => s.worker.Exited? && s.worker.number < |s.processes|
    case Finish => s.worker.Finishing?
    case Done => s.worker.Marked?
    case Stop => true
    case StopReturn(call) =>
      call < |s.stops| && s.stops[call].StopWaiting? &&
      s.stops[call].number < |s.processes| && s.processes[s.stops[call].number].done
  }

  /** The queue after a call, unchanged when the call reports an error. */
  function Called(q: Queue, op: Op): Queue {
    var r := Perform(q, op);
    if r.Ok? then r.value else q
  }

  /** The exit code executeTask passes on: a stop overrides whatever the process reported. */
  function FinalCode(stopped: bool, result: WaitResult): int {
    if stopped then EXIT_CODE_STOPPED
    else if result.None? then EXIT_CODE_WAIT_FAILURE
    else result.value
  }

  /** finishTask's queue call. */
  function FinishOp(code: int): Op {
    if code == 0 then Complete else Fail(code)
  }

  /** The task finishTask's queue call acts on: whichever is running, if any. */
  function MarkOf(q: Queue, code: int): Option<Mark> {
    if HasRunning(q) then Some(Mark(q.active.value.id, code)) else None
  }

  ghost function Apply(s: Sys, e: Event): Sys
    requires Enabled(s, e)
  {
    match e
    case Handle(op) =>
      var r := Perform(s.queue, op);
      if r.Err? then s
      else s.(queue := r.value, due := if Notifies(s.queue, op) then s.due + 1 else s.due)
    case Notify => s.(due := s.due - 1, wake := true)
    case Shutdown => s.(quit := true)
    case CheckQuit => s.(worker := if s.quit then Stopped else Starting)
    case StartNext =>
      var q := Called(s.queue, Start);
      s.(queue := q, worker := if q == s.queue then Parked else Spawning(q.active.value))
    case Wake => s.(wake := false, worker := Checking)
    case SeeQuit => s.(worker := Stopped)
    case Spawn(started) =>
      s.(worker := if started then Spawned(s.worker.task)
                   else Finishing(s.worker.task, EXIT_CODE_SPAWN_FAILURE, None))
    case Register =>
      s.(processes := s.processes + [Process(s.worker.task, false, false, None)],
         running := Some(|s.processes|), worker := Running(|s.processes|))
    case ProcessExit(result) => s.(worker := Exited(s.worker.number, result))
    case Collect =>
      var p := s.processes[s.worker.number];
      s.(running := None,
         worker := Finishing(p.task, FinalCode(p.stopped, s.worker.result), Some(s.worker.number)))
    case Finish =>
      var Finishing(task, code, number) := s.worker;
      s.(queue := Called(s.queue, FinishOp(code)),
         processes := if number.Some? then WithMark(s.processes, number.value, MarkOf(s.queue, code)) else s.processes,
         worker := Marked(number))
    case Done =>
      s.(processes := if s.worker.process.Some? then WithDone(s.processes, s.worker.process.value) else s.processes,
         worker := Checking)
    case Stop =>
      if s.running.None? then s
      else s.(processes := WithStop(s.processes, s.running.value), stops := s.stops + [StopWaiting(s.running.value)])
    case StopReturn(call) => s.(stops := s.stops[call := StopReturned(s.stops[call].number)])
  }

  function WithMark(ps: seq<Process>, n: nat, m: Option<Mark>): (r: seq<Process>)
    ensures |r| == |ps|
  {
    if n < |ps| then ps[n := ps[n].(marked := m)] else ps
  }

  function WithDone(ps: seq<Process>, n: nat): (r: seq<Process>)
    ensures |r| == |ps|
  {
    if n < |ps| then ps[n := ps[n].(done := true)] else ps
  }

  function WithStop(ps: seq<Process>, n: nat): (r: seq<Process>)
    ensures |r| == |ps|
  {
    if n < |ps| then ps[n := ps[n].(stopped := true)] else ps
  }

  /** The worker starts on a queue restored from disk, where no task is running any more. */
  ghost predicate Init(s: Sys) {
    && Coherent(s.queue) && !HasRunning(s.queue)
    && s == Sys(s.queue, Checking, false, false, 0, None, [], [])
  }

  // ---------------------------------------------------------------------
  // The invariant
  // ---------------------------------------------------------------------

  /** The queue wants a task started. */
  predicate NeedsStart(q: Queue) {
    q.state.QueueRunning? && q.active.None? && q.pending != []
  }

  /** The task the worker is busy with; the queue's running task in every reachable state. */
  function Busy(s: Sys): Option<TaskData> {
    match s.worker
    case Spawning(t) => Some(t)
    case Spawned(t) => Some(t)
    case Running(n) => if n < |s.processes| then Some(s.processes[n].task) else None
    case Exited(n, _) => if n < |s.processes| then Some(s.processes[n].task) else None
    case Finishing(t, _, _) => Some(t)
    case _ => None
  }

  /** The process whose end the worker has not yet reported. */
  function OpenProcess(w: WorkerAt): Option<nat> {
    match w
    case Running(n) => Some(n)
    case Exited(n, _) => Some(n)
    case Finishing(_, _, number) => number
    case Marked(number) => number
    case _ => None
  }

  ghost predicate Inv(s: Sys) {
    && Coherent(s.queue)
    && (if HasRunning(s.queue) then Busy(s) == s.queue.active else Busy(s) == None)
    && (NeedsStart(s.queue) && s.worker.Parked? ==> s.wake || s.due > 0)
    && s.running == (if s.worker.Running? || s.worker.Exited? then Some(s.worker.number) else None)
    && ProcessesInv(s.processes, s.worker)
    && forall c :: 0 <= c < |s.stops| ==> StopInv(s.processes, s.stops[c])
  }

  /** Only the last process can be open; every earlier one has been marked and reported. */
  ghost predicate ProcessesInv(ps: seq<Process>, w: WorkerAt) {
    && (OpenProcess(w).Some? ==> OpenProcess(w).value == |ps| - 1)
    && forall n :: 0 <= n < |ps| ==> ProcessInv(ps[n], n, w)
  }

  ghost predicate ProcessInv(p: Process, n: nat, w: WorkerAt) {
    if OpenProcess(w) == Some(n) then
      && !p.done
      && (w.Marked? ==> MarkedRight(p))
      && (!w.Marked? ==> p.marked == None)
      && (w.Finishing? ==> w.task == p.task && (p.stopped ==> w.code == EXIT_CODE_STOPPED))
    else
      p.done && MarkedRight(p)
  }

  /** finishTask found the very task of the process, and a stopped one failed with -1. */
  ghost predicate MarkedRight(p: Process) {
    && p.marked.Some? && p.marked.value.id == p.task.id
    && (p.stopped ==> p.marked.value.code == EXIT_CODE_STOPPED)
  }

  ghost predicate StopInv(ps: seq<Process>, c: StopCall) {
    && c.number < |ps| && ps[c.number].stopped
    && (c.StopReturned? ==> ps[c.number].done)
  }

  lemma InitInv(s: Sys)
    requires Init(s)
    ensures Inv(s)
  {
  }

  /** No handler call touches the running task. */
  lemma HandlersKeepRunning(q: Queue, op: Op)
    requires Coherent(q) && HandlerOp(op) && Allowed(q, op)
    ensures Coherent(Called(q, op))
    ensures HasRunning(q) <==> HasRunning(Called(q, op))
    ensures HasRunning(q) ==> Called(q, op).active == q.active
  {
    hide Identified, WellFormed, Updated, AddError, Without, Rewrite;
    PerformKeepsCoherent(q, op);
    if op.Delete? {
      var found := Find(Everything(q), op.identifier);
      assert found.Some? && !found.value.status.TaskPending? ==> q.active == found;
    }
  }

  /** A handler call that leaves a task to be started either notifies, or found it so. */
  lemma HandlersNotify(q: Queue, op: Op)
    requires Coherent(q) && HandlerOp(op)
    requires Perform(q, op).Ok? && NeedsStart(Perform(q, op).value)
    ensures NeedsStart(q) || Notifies(q, op)
  {
    hide Identified, AllPending, Updated, AddError;
    if op.Delete? {
      DeleteKeepsNeed(q, op.identifier);
    }
  }

  lemma DeleteKeepsNeed(q: Queue, identifier: string)
    requires Coherent(q) && Perform(q, Delete(identifier)).Ok? && NeedsStart(Perform(q, Delete(identifier)).value)
    ensures NeedsStart(q)
  {
  }

  lemma HandleInv(s: Sys, op: Op)
    requires Inv(s) && Enabled(s, Handle(op))
    ensures Inv(Apply(s, Handle(op)))
  {
    hide Coherent, Perform, NeedsStart, ProcessesInv, StopInv;
    HandlersKeepRunning(s.queue, op);
    if Perform(s.queue, op).Ok? && NeedsStart(Perform(s.queue, op).value) {
      HandlersNotify(s.queue, op);
    }
  }

  /** StartNext leaves nothing to start when it returns nil, and otherwise a running task. */
  lemma StartInv(s: Sys)
    requires Inv(s) && Enabled(s, StartNext)
    ensures Inv(Apply(s, StartNext))
  {
    PerformKeepsCoherent(s.queue, Start);
    StartNil(s.queue);
    hide Coherent, Perform, ProcessInv, StopInv, NeedsStart;
  }

  lemma StartNil(q: Queue)
    requires Coherent(q)
    ensures var q' := Called(q, Start);
            && (q' == q ==> !NeedsStart(q))
            && (q' != q ==> HasRunning(q') && !HasRunning(q))
  {
    hide Identified, AllPending;
  }

  /** finishTask finds exactly the task it executed as the running one, and its call succeeds. */
  lemma FinishFindsItsTask(s: Sys)
    requires Inv(s) && s.worker.Finishing?
    ensures s.queue.active == Some(s.worker.task) && s.worker.task.status.TaskRunning?
    ensures Perform(s.queue, FinishOp(s.worker.code)).Ok?
    ensures var q := Called(s.queue, FinishOp(s.worker.code));
            && q.pending == s.queue.pending
            && (if s.worker.code == 0 then q.active == None
                else q.active == Some(s.worker.task.(status := TaskFailed, exitCode := Some(s.worker.code))))
  {
  }

  lemma FinishInv(s: Sys)
    requires Inv(s) && Enabled(s, Finish)
    ensures Inv(Apply(s, Finish))
  {
    hide Coherent, Perform, StopInv, NeedsStart;
    FinishFindsItsTask(s);
    PerformKeepsCoherent(s.queue, FinishOp(s.worker.code));
    FinishProcesses(s);
  }

  lemma FinishProcesses(s: Sys)
    requires Inv(s) && Enabled(s, Finish) && s.queue.active == Some(s.worker.task) && HasRunning(s.queue)
    ensures var s' := Apply(s, Finish);
            && ProcessesInv(s'.processes, s'.worker)
            && forall c :: 0 <= c < |s.stops| ==> StopInv(s'.processes, s.stops[c])
  {
    hide Coherent, Perform;
  }

  /** The worker's own steps on its process record. */
  lemma ProcessStepInv(s: Sys, e: Event)
    requires Inv(s) && Enabled(s, e)
    requires e.Spawn? || e.Register? || e.ProcessExit? || e.Collect? || e.Done?
    ensures Inv(Apply(s, e))
  {
    hide Coherent, NeedsStart;
  }

  lemma StopStepInv(s: Sys, e: Event)
    requires Inv(s) && Enabled(s, e) && (e.Stop? || e.StopReturn?)
    ensures Inv(Apply(s, e))
  {
    hide Coherent, NeedsStart;
  }

  lemma StepInv(s: Sys, e: Event)
    requires Inv(s) && Enabled(s, e)
    ensures Inv(Apply(s, e))
  {
    match e
    case Handle(op) => HandleInv(s, op);
    case StartNext => StartInv(s);
    case Finish => FinishInv(s);
    case Stop => StopStepInv(s, e);
    case StopReturn(_) => StopStepInv(s, e);
    case Spawn(_) => ProcessStepInv(s, e);
    case Register => ProcessStepInv(s, e);
    case ProcessExit(_) => ProcessStepInv(s, e);
    case Collect => ProcessStepInv(s, e);
    case Done => ProcessStepInv(s, e);
    case _ => SignalInv(s, e);
  }

  lemma SignalInv(s: Sys, e: Event)
    requires Inv(s) && Enabled(s, e)
    requires e.Notify? || e.Shutdown? || e.CheckQuit? || e.Wake? || e.SeeQuit?
    ensures Inv(Apply(s, e))
  {
    hide Coherent, NeedsStart, StopInv;
  }

  // ---------------------------------------------------------------------
  // Runs
  // ---------------------------------------------------------------------

  ghost predicate Possible(s: Sys, es: seq<Event>)
    decreases |es|
  {
    es == [] || (Enabled(s, es[0]) && Possible(Apply(s, es[0]), es[1..]))
  }

  ghost function After(s: Sys, es: seq<Event>): Sys
    requires Possible(s, es)
    decreases |es|
  {
    if es == [] then s else After(Apply(s, es[0]), es[1..])
  }

  lemma {:induction false} RunInv(s: Sys, es: seq<Event>)
    requires Inv(s) && Possible(s, es)
    ensures Inv(After(s, es))
    decreases |es|
  {
    if es != [] {
      StepInv(s, es[0]);
      RunInv(Apply(s, es[0]), es[1..]);
    }
  }

  /**
   In every reachable state: the queue is coherent; the worker is not parked
   on an empty channel while a task waits to be started, unless a Notify is
   still to come.
   */
  lemma NoLostWakeUp(s0: Sys, es: seq<Event>)
    requires Init(s0) && Possible(s0, es)
    ensures var s := After(s0, es);
            && Coherent(s.queue)
            && (s.queue.state.QueueRunning? && s.queue.pending != [] && !HasRunning(s.queue) ==>
                  !s.worker.Parked? || s.wake || s.due > 0)
  {
    InitInv(s0);
    RunInv(s0, es);
  }

  /** What the worker does next, by itself, when it is not executing a task. */
  function WayToStart(w: WorkerAt): seq<Event> {
    match w
    case Parked => [Wake, CheckQuit, StartNext]
    case Checking => [CheckQuit, StartNext]
    case _ => [StartNext]
  }

  /** With every Notify delivered and no shutdown, an idle worker starts the head of the queue by itself. */
  lemma IdleWorkerStartsHead(s0: Sys, es: seq<Event>)
    requires Init(s0) && Possible(s0, es)
    requires var s := After(s0, es);
             && NeedsStart(s.queue) && s.due == 0 && !s.quit
             && (s.worker.Parked? || s.worker.Checking? || s.worker.Starting?)
    ensures var s := After(s0, es);
            && Possible(s, WayToStart(s.worker))
            && After(s, WayToStart(s.worker)).worker == Spawning(s.queue.pending[0].(status := TaskRunning))
  {
    NoLostWakeUp(s0, es);
    hide Perform, Called, NeedsStart, Coherent, Possible, After;
    var s := After(s0, es);
    FromStarting(s.(worker := Starting));
    PossibleStep(s.(worker := Checking), CheckQuit, [StartNext]);
    if s.worker.Parked? {
      var s1 := s.(wake := false, worker := Starting);
      FromStarting(s1);
      PossibleStep(s.(wake := false, worker := Checking), CheckQuit, [StartNext]);
      PossibleStep(s, Wake, [CheckQuit, StartNext]);
      assert [Wake] + [CheckQuit, StartNext] == [Wake, CheckQuit, StartNext];
    }
    assert [CheckQuit] + [StartNext] == [CheckQuit, StartNext];
  }

  lemma PossibleStep(s: Sys, e: Event, rest: seq<Event>)
    requires Enabled(s, e) && Possible(Apply(s, e), rest)
    ensures Possible(s, [e] + rest) && After(s, [e] + rest) == After(Apply(s, e), rest)
  {
    assert ([e] + rest)[1..] == rest;
  }

  lemma FromStarting(s: Sys)
    requires NeedsStart(s.queue) && s.worker.Starting?
    ensures Possible(s, [StartNext])
    ensures After(s, [StartNext]).worker == Spawning(s.queue.pending[0].(status := TaskRunning))
  {
  }

  /**
   Whenever the worker reports the end of a task, that very task is the
   queue's running one: it is removed on code 0, and otherwise failed with the
   code while the queue halts; the pending tasks stay as they are.
   */
  lemma FinishMarksItsTask(s0: Sys, es: seq<Event>)
    requires Init(s0) && Possible(s0, es) && After(s0, es).worker.Finishing?
    ensures var s := After(s0, es);
            var task, code, q' := s.worker.task, s.worker.code, Apply(s, Finish).queue;
            && s.queue.active == Some(task) && task.status == TaskRunning
            && q'.pending == s.queue.pending
            && (code == 0 ==> q'.active == None)
            && (code != 0 ==> q'.active == Some(task.(status := TaskFailed, exitCode := Some(code)))
                              && q'.state == QueueHalted)
  {
    hide Coherent, StopInv, ProcessesInv, Possible, After, NeedsStart;
    InitInv(s0);
    RunInv(s0, es);
    var s := After(s0, es);
    FinishFindsItsTask(s);
    PerformKeepsCoherent(s.queue, FinishOp(s.worker.code));
  }

  /**
   A Stop or ForceKill call that has returned a task did so after that task,
   as the queue's running one, was marked failed with exit code -1, whatever
   its process reported.
   */
  lemma StopReturnsAfterFailure(s0: Sys, es: seq<Event>, call: nat)
    requires Init(s0) && Possible(s0, es)
    requires call < |After(s0, es).stops| && After(s0, es).stops[call].StopReturned?
    ensures var s := After(s0, es);
            var n := s.stops[call].number;
            && n < |s.processes|
            && s.processes[n].marked == Some(Mark(s.processes[n].task.id, EXIT_CODE_STOPPED))
  {
    InitInv(s0);
    RunInv(s0, es);
  }

  // ---------------------------------------------------------------------
  // What becomes of a task that was started
  // ---------------------------------------------------------------------

  /** What process `n` reported when it ended, if it has. */
  ghost function Reported(s: Sys, es: seq<Event>, n: nat): Option<WaitResult>
    requires Possible(s, es)
    decreases |es|
  {
    if es == [] then None
    else if es[0].ProcessExit? && s.worker == Running(n) then Some(es[0].result)
    else Reported(Apply(s, es[0]), es[1..], n)
  }

  /** A Stop or ForceKill call found process `n` as the running one, that is, before its end was collected. */
  ghost predicate StoppedInTime(s: Sys, es: seq<Event>, n: nat)
    requires Possible(s, es)
    decreases |es|
  {
    es != [] && ((es[0].Stop? && s.running == Some(n)) || StoppedInTime(Apply(s, es[0]), es[1..], n))
  }

  /** The code a process leaves its task with: 0 stands for completed. */
  ghost predicate LeavesWith(code: int, reported: Option<WaitResult>, stopped: bool) {
    && reported.Some?
    && (stopped ==> code == -1)
    && (!stopped && reported.value.None? ==> code == -4)
    && (!stopped && reported.value.Some? ==> code == reported.value.value)
  }

  /** What is known of process `n`, given what it reported and whether it was stopped, so far. */
  ghost predicate Told(s: Sys, n: nat, reported: Option<WaitResult>, stopped: bool) {
    if n >= |s.processes| then
      reported == None && !stopped && (s.worker.Finishing? && s.worker.process.None? ==> s.worker.code == -3)
    else
      && s.processes[n].stopped == stopped
      && (match s.worker
          case Running(m) => m == n ==> reported == None
          case Exited(m, result) => m == n ==> reported == Some(result)
          case Finishing(_, code, number) =>
            (number == Some(n) ==> LeavesWith(code, reported, stopped)) && (number.None? ==> code == -3)
          case _ => true)
      && (s.processes[n].marked.Some? ==> LeavesWith(s.processes[n].marked.value.code, reported, stopped))
  }

  /** What one more event tells. */
  ghost function ReportedNow(s: Sys, e: Event, n: nat, reported: Option<WaitResult>): Option<WaitResult> {
    if reported.None? && e.ProcessExit? && s.worker == Running(n) then Some(e.result) else reported
  }

  lemma ToldStep(s: Sys, e: Event, n: nat, reported: Option<WaitResult>, stopped: bool)
    requires Inv(s) && Enabled(s, e) && Told(s, n, reported, stopped)
    ensures Told(Apply(s, e), n, ReportedNow(s, e, n, reported), stopped || (e.Stop? && s.running == Some(n)))
  {
    hide Inv, Told, Apply;
    if e.Finish? {
      ToldAtFinish(s, n, reported, stopped);
    } else {
      ToldElsewhere(s, e, n, reported, stopped);
    }
  }

  lemma ToldAtFinish(s: Sys, n: nat, reported: Option<WaitResult>, stopped: bool)
    requires Inv(s) && Enabled(s, Finish) && Told(s, n, reported, stopped)
    ensures Told(Apply(s, Finish), n, reported, stopped)
  {
    hide Coherent, NeedsStart, Perform;
    FinishFindsItsTask(s);
  }

  lemma ToldElsewhere(s: Sys, e: Event, n: nat, reported: Option<WaitResult>, stopped: bool)
    requires Inv(s) && Enabled(s, e) && !e.Finish? && Told(s, n, reported, stopped)
    ensures Told(Apply(s, e), n, ReportedNow(s, e, n, reported), stopped || (e.Stop? && s.running == Some(n)))
  {
    hide Coherent, NeedsStart, Perform;
  }

  lemma {:induction false} ToldInRun(s: Sys, es: seq<Event>, n: nat, reported: Option<WaitResult>, stopped: bool)
    requires Inv(s) && Possible(s, es) && Told(s, n, reported, stopped)
    ensures Told(After(s, es), n, if reported.Some? then reported else Reported(s, es, n), stopped || StoppedInTime(s, es, n))
    decreases |es|
  {
    hide Inv, Told;
    if es != [] {
      var e := es[0];
      StepInv(s, e);
      ToldStep(s, e, n, reported, stopped);
      ToldInRun(Apply(s, e), es[1..], n, ReportedNow(s, e, n, reported), stopped || (e.Stop? && s.running == Some(n)));
    }
  }

  /** The queue with its running task `t` failed. */
  ghost predicate FailedWith(q: Queue, t: TaskData, code: int) {
    q.active == Some(t.(status := TaskFailed, exitCode := Some(code))) && q.state == QueueHalted
  }

  /**
   Whenever finishTask marks the task of a process: the code is -1 if a stop
   found the process before its end was collected, and otherwise what the
   process reported, or -4 if waiting for it failed.
   */
  lemma MarkedAsReported(s0: Sys, es: seq<Event>, n: nat)
    requires Init(s0) && Possible(s0, es)
    requires var s := After(s0, es); n < |s.processes| && s.processes[n].marked.Some?
    ensures var p := After(s0, es).processes[n];
            && p.marked.value.id == p.task.id
            && LeavesWith(p.marked.value.code, Reported(s0, es, n), StoppedInTime(s0, es, n))
  {
    InitInv(s0);
    RunInv(s0, es);
    ToldInRun(s0, es, n, None, false);
  }

  /**
   A task leaves the queue as completed if and only if its process reported 0
   and was not stopped in time. Otherwise it is the failed task of a halted
   queue, with the code -1, -4 or the one reported, or -3 if it could not be
   started. The pending tasks stay as they are.
   */
  lemma TaskEndsAsReported(s0: Sys, es: seq<Event>)
    requires Init(s0) && Possible(s0, es) && After(s0, es).worker.Finishing?
    ensures var s := After(s0, es);
            var q := Apply(s, Finish).queue;
            && HasRunning(s.queue) && q.pending == s.queue.pending
            && match s.worker.process
               case None => FailedWith(q, s.queue.active.value, -3)
               case Some(n) =>
                 && n < |s.processes| && s.queue.active == Some(s.processes[n].task)
                 && Reported(s0, es, n).Some?
                 && var r := Reported(s0, es, n).value;
                    if StoppedInTime(s0, es, n) then FailedWith(q, s.queue.active.value, -1)
                    else if r == None then FailedWith(q, s.queue.active.value, -4)
                    else if r.value != 0 then FailedWith(q, s.queue.active.value, r.value)
                    else q.active == None && q.state == if q.pending == [] then QueueIdle else QueueRunning
  {
    hide Coherent, StopInv, Possible, After, NeedsStart, Reported, StoppedInTime;
    InitInv(s0);
    RunInv(s0, es);
    var s := After(s0, es);
    ToldInRun(s0, es, if s.worker.process.Some? then s.worker.process.value else 0, None, false);
    FinishFindsItsTask(s);
    FinishedState(s.queue, s.worker.code);
  }

  lemma FinishedState(q: Queue, code: int)
    requires Coherent(q) && HasRunning(q)
    ensures var q' := Called(q, FinishOp(code));
            if code == 0 then q'.state == if q'.pending == [] then QueueIdle else QueueRunning else q'.state == QueueHalted
  {
  }

  /** Executing a task: its process becomes the running one, or it fails with -3 when it could not be started. */
  lemma SpawnedOrFailed(s0: Sys, es: seq<Event>)
    requires Init(s0) && Possible(s0, es) && After(s0, es).worker.Spawning?
    ensures var s := After(s0, es);
            var started, failed := [Spawn(true), Register], [Spawn(false), Finish];
            && Possible(s, started) && Possible(s, failed) && s.queue.active == Some(s.worker.task)
            && FailedWith(After(s, failed).queue, s.worker.task, -3)
            && var t, n := After(s, started), |s.processes|;
               && t.worker == Running(n) && t.running == Some(n) && t.queue == s.queue
               && |t.processes| == n + 1 && t.processes[n] == Process(s.worker.task, false, false, None)
  {
    hide Inv, Apply;
    InitInv(s0);
    RunInv(s0, es);
    SpawnSucceeds(After(s0, es));
    SpawnFails(After(s0, es));
  }

  lemma SpawnSucceeds(s: Sys)
    requires Inv(s) && s.worker.Spawning?
    ensures var started := [Spawn(true), Register];
            && Possible(s, started) && s.queue.active == Some(s.worker.task)
            && var t, n := After(s, started), |s.processes|;
               && t.worker == Running(n) && t.running == Some(n) && t.queue == s.queue
               && |t.processes| == n + 1 && t.processes[n] == Process(s.worker.task, false, false, None)
  {
    hide Coherent, Perform, Possible, After;
    OneEvent(Apply(s, Spawn(true)), Register);
    PossibleStep(s, Spawn(true), [Register]);
    assert [Spawn(true)] + [Register] == [Spawn(true), Register];
  }

  lemma SpawnFails(s: Sys)
    requires Inv(s) && s.worker.Spawning?
    ensures var failed := [Spawn(false), Finish];
            Possible(s, failed) && FailedWith(After(s, failed).queue, s.worker.task, -3)
  {
    hide Coherent, Perform, Possible, After;
    var v := Apply(s, Spawn(false));
    StepInv(s, Spawn(false));
    FinishFindsItsTask(v);
    FinishedState(v.queue, v.worker.code);
    OneEvent(v, Finish);
    PossibleStep(s, Spawn(false), [Finish]);
    assert [Spawn(false)] + [Finish] == [Spawn(false), Finish];
  }

  lemma OneEvent(s: Sys, e: Event)
    requires Enabled(s, e)
    ensures Possible(s, [e]) && After(s, [e]) == Apply(s, e)
  {
    assert [e][1..] == [];
  }

  // ---------------------------------------------------------------------
  // Shutdown
  // ---------------------------------------------------------------------

  /** How many times the worker asks the queue for a task. */
  function Starts(es: seq<Event>): nat {
    if es == [] then 0 else (if es[0].StartNext? then 1 else 0) + Starts(es[1..])
  }

  /**
   After Shutdown the worker asks for a task at most once more, if it was just
   about to; once idle it can only stop.
   */
  lemma {:induction false} ShutdownStops(s: Sys, es: seq<Event>)
    requires s.quit && Possible(s, es)
    ensures var t := After(s, es);
            && t.quit && Starts(es) <= (if s.worker.Starting? then 1 else 0)
            && (t.worker.Checking? ==> Apply(t, CheckQuit).worker == Stopped)
            && (t.worker.Parked? ==> Enabled(t, SeeQuit) && Apply(t, SeeQuit).worker == Stopped)
            && (t.worker.Stopped? ==> forall e :: Enabled(t, e) ==> Apply(t, e).worker == Stopped)
    decreases |es|
  {
    hide Perform, Allowed;
    if es != [] {
      ShutdownStops(Apply(s, es[0]), es[1..]);
    }
  }
}
