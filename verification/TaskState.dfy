/**
 Saving, loading and recovering a queue: tools/taskline/server/state.go and
 recoverRunningTask of main.go. A file holds the decoded JSON, in which the
 states are plain strings and a task may be null.
 */
module TaskState {
  import opened Common
  import opened TaskQueueModel
  import opened TaskQueue

  datatype StoredTask = StoredTask(
    id: string, name: string, command: string, cwd: string,
    status: string, exitCode: Option<int>, createdAt: int)

  datatype StateFile = StateFile(state: string, tasks: seq<Option<StoredTask>>)

  datatype File = Missing | Unreadable | Garbage | Json(content: StateFile)

  datatype LoadError = ReadError | CorruptedState

  const RECOVERED_RUNNING_EXIT_CODE := -2

  function StateName(s: QueueState): string {
    match s
    case QueueIdle => "idle"
    case QueueRunning => "running"
    case QueueHalted => "halted"
  }

  function StatusName(s: TaskStatus): string {
    match s
    case TaskPending => "pending"
    case TaskRunning => "running"
    case TaskFailed => "failed"
  }

  /** stateFile.valid */
  predicate ValidFile(sf: StateFile) {
    && sf.state in {"idle", "running", "halted"}
    && forall i :: 0 <= i < |sf.tasks| ==>
         && sf.tasks[i].Some?
         && ValidTask(sf.tasks[i].value)
  }

  predicate ValidTask(t: StoredTask) {
    t.id != "" && !IsBlank(t.command) && t.status in {"pending", "running", "failed"}
  }

  function StoreTask(t: TaskData): StoredTask {
    StoredTask(t.id, t.name, t.command, t.cwd, StatusName(t.status), t.exitCode, t.createdAt)
  }

  function ReadTask(t: StoredTask): TaskData
    requires ValidTask(t)
  {
    TaskData(t.id, t.name, t.command, t.cwd,
             if t.status == "pending" then TaskPending else if t.status == "running" then TaskRunning else TaskFailed,
             t.exitCode, t.createdAt)
  }

  function Store(state: QueueState, ts: seq<TaskData>): StateFile {
    StateFile(StateName(state), seq(|ts|, i requires 0 <= i < |ts| => Some(StoreTask(ts[i]))))
  }

  function ReadState(sf: StateFile): QueueState
    requires ValidFile(sf)
  {
    if sf.state == "idle" then QueueIdle else if sf.state == "running" then QueueRunning else QueueHalted
  }

  function ReadTasks(sf: StateFile): seq<TaskData>
    requires ValidFile(sf)
  {
    seq(|sf.tasks|, i requires 0 <= i < |sf.tasks| => ReadTask(sf.tasks[i].value))
  }

  /** The IDs and names MarkUsed records for the restored tasks. */
  function UsedIDs(ts: seq<TaskData>): set<string> {
    set t | t in ts && t.id != "" :: t.id
  }

  function UsedNames(ts: seq<TaskData>): set<string> {
    set t | t in ts && t.name != "" :: t.name
  }

  lemma {:induction false} SelectKeepsMembers(ts: seq<TaskData>, i: nat)
    requires i < |ts|
    ensures ts[i] in Select(ts, ts[i].status.TaskPending?)
  {
    if i > 0 {
      SelectKeepsMembers(ts[1..], i - 1);
    }
  }

  lemma GoodTask(state: QueueState, ts: seq<TaskData>, ids: set<string>, names: set<string>, i: nat)
    requires Good(state, ts, ids, names) && i < |ts|
    ensures WellFormed(ts[i])
  {
    SelectKeepsMembers(ts, i);
    var q := Abstract(state, ts);
    if ts[i].status.TaskPending? {
      assert ts[i] in q.pending;
    } else {
      ActiveIs(state, ts, i, ids, names);
    }
  }

  /** A queue between calls always passes the check made on loading, and reading it back loses nothing. */
  lemma SavedQueueReadsBack(state: QueueState, ts: seq<TaskData>, ids: set<string>, names: set<string>)
    requires Good(state, ts, ids, names)
    ensures ValidFile(Store(state, ts))
    ensures ReadState(Store(state, ts)) == state && ReadTasks(Store(state, ts)) == ts
  {
    forall i | 0 <= i < |ts|
      ensures ValidTask(StoreTask(ts[i])) && ReadTask(StoreTask(ts[i])) == ts[i]
    {
      GoodTask(state, ts, ids, names, i);
    }
    hide Good, ValidTask, ReadTask, StoreTask;
    var sf := Store(state, ts);
    assert forall i :: 0 <= i < |ts| ==> sf.tasks[i] == Some(StoreTask(ts[i]));
    assert ValidFile(sf);
    assert forall i :: 0 <= i < |ts| ==> ReadTasks(sf)[i] == ReadTask(sf.tasks[i].value) == ts[i];
  }

  predicate AllNamed(ts: seq<TaskData>) {
    forall t :: t in ts ==> t.id != "" && !IsBlank(t.command)
  }

  /**
   Loading accepts exactly the files that saving can write for tasks with an ID
   and a command, and saving what was read gives the file again.
   */
  lemma AcceptedFiles(sf: StateFile)
    ensures ValidFile(sf) <==>
              exists state, ts :: sf == Store(state, ts) && AllNamed(ts)
    ensures ValidFile(sf) ==> Store(ReadState(sf), ReadTasks(sf)) == sf
  {
    hide IsBlank;
    if ValidFile(sf) {
      var ts := ReadTasks(sf);
      forall i | 0 <= i < |ts|
        ensures Some(StoreTask(ts[i])) == sf.tasks[i] && ts[i].id != "" && !IsBlank(ts[i].command)
      {
      }
      assert Store(ReadState(sf), ts).tasks == sf.tasks;
    }
    if state, ts :| sf == Store(state, ts) && AllNamed(ts) {
      assert forall i :: 0 <= i < |sf.tasks| ==> sf.tasks[i] == Some(StoreTask(ts[i])) && ts[i] in ts;
    }
  }

  /** What loading marks as used is enough: no restored ID or name can be handed out again. */
  lemma RestoredIsGood(state: QueueState, ts: seq<TaskData>, ids: set<string>, names: set<string>,
                       ids': set<string>, names': set<string>)
    requires Good(state, ts, ids, names) && UsedIDs(ts) <= ids' && UsedNames(ts) <= names'
    ensures Good(state, ts, ids', names')
  {
    forall t | t in ts
      ensures t.id in ids' && t.name in names'
    {
      var i :| 0 <= i < |ts| && ts[i] == t;
      GoodTask(state, ts, ids, names, i);
    }
  }

  /** A queue after a restart: a task found running has failed with -2 and the queue is halted. */
  function Recovered(q: Queue): Queue {
    if q.active.Some? && q.active.value.status.TaskRunning? then
      Queue(QueueHalted,
            Some(q.active.value.(status := TaskFailed, exitCode := Some(RECOVERED_RUNNING_EXIT_CODE))),
            q.pending)
    else q
  }

  /** The state file of one project and the copy kept when it is found corrupted. */
  class StateDir {
    var file: File
    var corrupted: File

    constructor ()
    {
      file, corrupted := Missing, Missing;
    }
  }

  method SaveState(queue: TaskQueue, dir: StateDir)
    modifies dir`file
    ensures dir.file == Json(Store(queue.state, Datas(queue.tasks)))
  {
    var tasks: seq<Option<StoredTask>> := [];
    ghost var ts := Datas(queue.tasks);
    for i := 0 to |queue.tasks|
      invariant |tasks| == i
      invariant forall j :: 0 <= j < i ==> tasks[j] == Some(StoreTask(ts[j]))
    {
      tasks := tasks + [Some(StoreTask(queue.tasks[i].Data()))];
    }
    assert tasks == Store(queue.state, ts).tasks;
    dir.file := Json(StateFile(StateName(queue.state), tasks));
  }

  /** What json.Unmarshal makes of a valid file. */
  method Unmarshal(sf: StateFile) returns (tasks: seq<Task>)
    requires ValidFile(sf)
    ensures fresh(tasks) && Distinct(tasks) && Datas(tasks) == ReadTasks(sf)
  {
    hide ValidTask;
    tasks := [];
    for i := 0 to |sf.tasks|
      invariant |tasks| == i && fresh(tasks) && Distinct(tasks)
      invariant forall j :: 0 <= j < i ==> tasks[j].Data() == ReadTask(sf.tasks[j].value)
    {
      var t := new Task.FromData(ReadTask(sf.tasks[i].value));
      tasks := tasks + [t];
    }
  }

  /** Marks every restored ID and name as used. */
  method MarkAll(tasks: seq<Task>, names: NameGenerator)
    modifies names
    ensures names.usedIDs == old(names.usedIDs) + UsedIDs(Datas(tasks))
    ensures names.usedNames == old(names.usedNames) + UsedNames(Datas(tasks))
  {
    ghost var ts := Datas(tasks);
    for i := 0 to |tasks|
      invariant names.usedIDs == old(names.usedIDs) + UsedIDs(ts[..i])
      invariant names.usedNames == old(names.usedNames) + UsedNames(ts[..i])
    {
      assert ts[..i + 1] == ts[..i] + [ts[i]];
      names.MarkUsed(tasks[i].id, tasks[i].name);
    }
    assert ts[..|tasks|] == ts;
  }

  /**
   A missing file gives an empty queue; one that is not JSON, or does not pass
   the check, is set aside and gives an empty queue with an error.
   */
  method LoadState(dir: StateDir, names: NameGenerator) returns (queue: TaskQueue, error: Option<LoadError>)
    modifies dir, names
    ensures fresh(queue) && queue.names == names
    ensures error.Some? || dir.file.Missing? ==> queue.state == QueueIdle && queue.tasks == []
    ensures match old(dir.file)
            case Missing => error == None && dir.file == old(dir.file)
            case Unreadable => error == Some(ReadError) && dir.file == old(dir.file)
            case Garbage => error == Some(CorruptedState) && dir.file == Missing && dir.corrupted == old(dir.file)
            case Json(sf) =>
              if ValidFile(sf) then
                && error == None && dir.file == old(dir.file) && fresh(queue.tasks) && Distinct(queue.tasks)
                && queue.state == ReadState(sf) && Datas(queue.tasks) == ReadTasks(sf)
                && names.usedIDs == old(names.usedIDs) + UsedIDs(ReadTasks(sf))
                && names.usedNames == old(names.usedNames) + UsedNames(ReadTasks(sf))
              else
                error == Some(CorruptedState) && dir.file == Missing && dir.corrupted == old(dir.file)
  {
    hide ValidFile, UsedIDs, UsedNames, Good;
    if dir.file.Missing? {
      queue := new TaskQueue(names);
      return queue, None;
    }
    if dir.file.Unreadable? {
      queue := new TaskQueue(names);
      return queue, Some(ReadError);
    }
    if dir.file.Garbage? || !ValidFile(dir.file.content) {
      dir.corrupted, dir.file := dir.file, Missing;
      queue := new TaskQueue(names);
      return queue, Some(CorruptedState);
    }
    var tasks := Unmarshal(dir.file.content);
    MarkAll(tasks, names);
    queue := new TaskQueue.Restored(ReadState(dir.file.content), tasks, names);
    return queue, None;
  }

  /**
   Turns a task left running by an unclean stop into a failed one. This holds
   of whatever LoadState restored: a hand-edited file may list several running
   tasks, of which the first one fails.
   */
  method RecoverRunningTask(queue: TaskQueue, dir: StateDir)
    requires Distinct(queue.tasks)
    modifies queue`state, queue.tasks, dir`file
    ensures queue.tasks == old(queue.tasks)
    ensures var ts := old(Datas(queue.tasks));
            var i := FirstWith(ts, TaskRunning);
            if i < 0 then
              dir.file == old(dir.file) && queue.state == old(queue.state) && Datas(queue.tasks) == ts
            else
              && queue.state == QueueHalted
              && Datas(queue.tasks) == Splice(ts, i, [Failed(ts[i], -2)])
              && dir.file == Json(Store(queue.state, Datas(queue.tasks)))
    ensures old(queue.Valid()) ==> queue.Valid() && queue.View() == Recovered(old(queue.View()))
  {
    hide Good, Abstract, FirstWith;
    var stale := queue.CurrentTask();
    if stale.None? {
      return;
    }
    var r := queue.MarkFailed(RECOVERED_RUNNING_EXIT_CODE);
    SaveState(queue, dir);
  }

  /**
   Stopping at any moment and starting again, with a new name generator: the
   queue comes back as it was saved, except that a running task has failed.
   */
  method Restart(queue: TaskQueue, dir: StateDir) returns (restored: TaskQueue)
    requires queue.Valid()
    modifies dir
    ensures restored.Valid() && fresh(restored) && fresh(restored.tasks)
    ensures restored.View() == Recovered(queue.View())
    ensures dir.file == Json(Store(restored.state, Datas(restored.tasks)))
  {
    hide Good, Abstract, ValidFile, Recovered, Store, ReadState, ReadTasks, FirstWith;
    ghost var state, ts, ids, used := queue.state, Datas(queue.tasks), queue.names.usedIDs, queue.names.usedNames;
    SaveState(queue, dir);
    SavedQueueReadsBack(state, ts, ids, used);
    var names := new NameGenerator();
    var error;
    restored, error := LoadState(dir, names);
    RestoredIsGood(state, ts, ids, used, names.usedIDs, names.usedNames);
    assert restored.View() == queue.View();
    RecoverRunningTask(restored, dir);
  }
}
