/**
 The abstract queue behind tools/taskline/server/queue.go: at most one active
 task, running or failed, and the pending tasks in execution order.

 The program keeps one slice in which the active task may sit anywhere;
 `Abstract` reads the abstract queue off such a slice. The class in
 TaskQueue.dfy is proved to refine `Perform`.
 */
module TaskQueueModel {
  import opened Common

  datatype TaskStatus = TaskPending | TaskRunning | TaskFailed

  datatype QueueState = QueueIdle | QueueRunning | QueueHalted

  datatype TaskData = TaskData(
    id: string, name: string, command: string, cwd: string,
    status: TaskStatus, exitCode: Option<int>, createdAt: int)

  datatype Error =
    | EmptyCommand | InvalidName | NameTaken | InvalidPosition | TaskNotFound
    | AlreadyRunning | Halted | NoFailedTask | NoRunningTask
    | TaskIsRunning | FailedImmutable | NoUpdateFields

  /** strings.TrimSpace(s) == "" */
  predicate IsBlank(s: string) {
    forall i :: 0 <= i < |s| ==> IsSpace(s[i])
  }

  /** The rules for names given by users. */
  predicate ValidName(name: string) {
    && 1 <= |name| <= 64
    && 'a' <= name[0] <= 'z'
    && forall i :: 0 <= i < |name| ==> 'a' <= name[i] <= 'z' || '0' <= name[i] <= '9' || name[i] == '-'
  }

  // ---------------------------------------------------------------------
  // From the slice to the abstract queue
  // ---------------------------------------------------------------------

  datatype Queue = Queue(state: QueueState, active: Option<TaskData>, pending: seq<TaskData>)

  function Select(ts: seq<TaskData>, pending: bool): (r: seq<TaskData>)
    ensures |r| <= |ts|
  {
    if ts == [] then []
    else if ts[0].status.TaskPending? == pending then [ts[0]] + Select(ts[1..], pending)
    else Select(ts[1..], pending)
  }

  function Abstract(state: QueueState, ts: seq<TaskData>): Queue {
    var active := Select(ts, false);
    Queue(state, if active == [] then None else Some(active[0]), Select(ts, true))
  }

  lemma {:induction false} SelectConcat(a: seq<TaskData>, b: seq<TaskData>, pending: bool)
    ensures Select(a + b, pending) == Select(a, pending) + Select(b, pending)
  {
    if a == [] {
      assert a + b == b;
    } else {
      assert (a + b)[0] == a[0] && (a + b)[1..] == a[1..] + b;
      SelectConcat(a[1..], b, pending);
      var rest := Select(a[1..], pending);
      if a[0].status.TaskPending? == pending {
        assert [a[0]] + (rest + Select(b, pending)) == ([a[0]] + rest) + Select(b, pending);
      }
    }
  }

  /** Around the task at `i`, the slice splits into what is before and after it. */
  lemma SelectSplit(ts: seq<TaskData>, i: nat, pending: bool)
    requires i < |ts|
    ensures Select(ts, pending) ==
            Select(ts[..i], pending)
            + (if ts[i].status.TaskPending? == pending then [ts[i]] else [])
            + Select(ts[i + 1..], pending)
  {
    assert ts == ts[..i] + ([ts[i]] + ts[i + 1..]);
    SelectConcat(ts[..i], [ts[i]] + ts[i + 1..], pending);
    SelectConcat([ts[i]], ts[i + 1..], pending);
  }

  /** Reading the abstract queue off the slice loses no task. */
  lemma {:induction false} SelectPartitions(ts: seq<TaskData>)
    ensures multiset(Select(ts, true)) + multiset(Select(ts, false)) == multiset(ts)
  {
    if ts != [] {
      SelectPartitions(ts[1..]);
      assert ts == [ts[0]] + ts[1..];
    }
  }

  function Everything(q: Queue): seq<TaskData> {
    (if q.active.Some? then [q.active.value] else []) + q.pending
  }

  /** The display order: running task, pending tasks, failed task. */
  function List(q: Queue): seq<TaskData> {
    match q.active
    case None => q.pending
    case Some(t) => if t.status.TaskRunning? then [t] + q.pending else q.pending + [t]
  }

  lemma ListIsEverything(q: Queue)
    ensures multiset(List(q)) == multiset(Everything(q))
  {
  }

  function Ids(ts: seq<TaskData>): (r: seq<string>)
    ensures |r| == |ts|
  {
    seq(|ts|, i requires 0 <= i < |ts| => ts[i].id)
  }

  function Names(ts: seq<TaskData>): (r: seq<string>)
    ensures |r| == |ts|
  {
    seq(|ts|, i requires 0 <= i < |ts| => ts[i].name)
  }

  // ---------------------------------------------------------------------
  // The operations on the abstract queue
  // ---------------------------------------------------------------------

  datatype Op =
    | Add(task: TaskData, position: Option<int>)
    | Start
    | Complete
    | Fail(exitCode: int)
    | Retry
    | Skip
    | Resume
    | Delete(identifier: string)
    | Update(identifier: string, command: string, name: string)

  predicate HasRunning(q: Queue) {
    q.active.Some? && q.active.value.status.TaskRunning?
  }

  predicate HasFailed(q: Queue) {
    q.active.Some? && q.active.value.status.TaskFailed?
  }

  /** The task an identifier names: IDs take precedence over names. */
  predicate Resolves(ts: seq<TaskData>, identifier: string, t: TaskData) {
    t in ts && (t.id == identifier || (t.name == identifier && forall u :: u in ts ==> u.id != identifier))
  }

  function FindBy(ts: seq<TaskData>, identifier: string, byId: bool): (r: Option<TaskData>)
    ensures r.Some? ==> r.value in ts && (if byId then r.value.id else r.value.name) == identifier
    ensures r.None? ==> forall t :: t in ts ==> (if byId then t.id else t.name) != identifier
  {
    if ts == [] then None
    else if (if byId then ts[0].id else ts[0].name) == identifier then Some(ts[0])
    else FindBy(ts[1..], identifier, byId)
  }

  function Find(ts: seq<TaskData>, identifier: string): (r: Option<TaskData>)
    ensures r.Some? ==> Resolves(ts, identifier, r.value)
    ensures r.None? ==> forall t :: t in ts ==> t.id != identifier && t.name != identifier
  {
    var byId := FindBy(ts, identifier, true);
    if byId.Some? then byId else FindBy(ts, identifier, false)
  }

  /** `pending` without the task of the given ID. */
  function Without(ts: seq<TaskData>, id: string): seq<TaskData> {
    if ts == [] then []
    else if ts[0].id == id then ts[1..]
    else [ts[0]] + Without(ts[1..], id)
  }

  function Rewrite(ts: seq<TaskData>, t: TaskData): (r: seq<TaskData>)
    ensures |r| == |ts|
  {
    seq(|ts|, i requires 0 <= i < |ts| => if ts[i].id == t.id then t else ts[i])
  }

  function AddTo(q: Queue, t: TaskData, position: Option<int>): Queue
    requires position.Some? ==> position.value >= 0
  {
    var k := if position.None? then |q.pending| else Min(position.value, |q.pending|);
    Queue(if q.state.QueueIdle? then QueueRunning else q.state, q.active, q.pending[..k] + [t] + q.pending[k..])
  }

  /** The new version of task `t` under UpdateTask, or the error that call reports. */
  function Updated(q: Queue, t: TaskData, command: string, name: string): Result<TaskData, Error> {
    if t.status.TaskRunning? then Err(TaskIsRunning)
    else if t.status.TaskFailed? then Err(FailedImmutable)
    else if IsBlank(command) && IsBlank(name) then Err(NoUpdateFields)
    else if !IsBlank(name) && name != t.name && !ValidName(name) then Err(InvalidName)
    else if !IsBlank(name) && name != t.name && name in Names(Everything(q)) then Err(NameTaken)
    else
      var t1 := if IsBlank(command) then t else t.(command := command);
      Ok(if IsBlank(name) then t1 else t1.(name := name))
  }

  function AddError(q: Queue, command: string, name: string, position: Option<int>): Option<Error> {
    if IsBlank(command) then Some(EmptyCommand)
    else if position.Some? && position.value < 0 then Some(InvalidPosition)
    else if name != "" && !ValidName(name) then Some(InvalidName)
    else if name != "" && name in Names(Everything(q)) then Some(NameTaken)
    else None
  }

  function Perform(q: Queue, op: Op): Result<Queue, Error> {
    match op
    case Add(t, position) =>
      var e := AddError(q, t.command, t.name, position);
      if e.Some? then Err(e.value) else Ok(AddTo(q, t, position))
    case Start =>
      if !q.state.QueueRunning? || HasRunning(q) || q.pending == [] then Ok(q)
      else Ok(q.(active := Some(q.pending[0].(status := TaskRunning)), pending := q.pending[1..]))
    case Complete =>
      if !HasRunning(q) then Err(NoRunningTask)
      else Ok(Queue(if q.pending == [] then QueueIdle else q.state, None, q.pending))
    case Fail(code) =>
      if !HasRunning(q) then Err(NoRunningTask)
      else Ok(q.(state := QueueHalted, active := Some(q.active.value.(status := TaskFailed, exitCode := Some(code)))))
    case Retry =>
      if !HasFailed(q) then Err(NoFailedTask)
      else Ok(Queue(QueueRunning, None, [q.active.value.(status := TaskPending, exitCode := None)] + q.pending))
    case Skip =>
      if !HasFailed(q) then Err(NoFailedTask)
      else Ok(Queue(QueueRunning, None, q.pending))
    case Resume =>
      if q.state.QueueRunning? then Err(AlreadyRunning)
      else if HasFailed(q) then Err(Halted)
      else Ok(q.(state := if q.pending == [] then QueueIdle else QueueRunning))
    case Delete(identifier) =>
      var found := Find(Everything(q), identifier);
      if found.None? then Err(TaskNotFound)
      else if found.value.status.TaskRunning? then Err(TaskIsRunning)
      else if found.value.status.TaskFailed? then Ok(Queue(QueueIdle, None, q.pending))
      else Ok(q.(pending := Without(q.pending, found.value.id)))
    case Update(identifier, command, name) =>
      var found := Find(Everything(q), identifier);
      if found.None? then Err(TaskNotFound)
      else
        var u := Updated(q, found.value, command, name);
        if u.Err? then Err(u.error) else Ok(q.(pending := Rewrite(q.pending, u.value)))
  }

  // ---------------------------------------------------------------------
  // What every operation keeps
  // ---------------------------------------------------------------------

  /** The shape every reachable queue has. */
  ghost predicate Coherent(q: Queue) {
    && (q.active.Some? ==> WellFormed(q.active.value) && !q.active.value.status.TaskPending?)
    && (HasFailed(q) <==> q.state == QueueHalted)
    && (HasRunning(q) ==> q.state == QueueRunning)
    && AllPending(q.pending)
    && Identified(Everything(q))
  }

  predicate WellFormed(t: TaskData) {
    && t.id != "" && t.name != "" && !IsBlank(t.command)
    && (t.exitCode.Some? <==> t.status.TaskFailed?)
  }

  ghost predicate AllPending(ts: seq<TaskData>) {
    forall i :: 0 <= i < |ts| ==> ts[i].status.TaskPending? && WellFormed(ts[i])
  }

  /** No two tasks share an ID or a name. */
  ghost predicate Identified(ts: seq<TaskData>) {
    Distinct(Ids(ts)) && Distinct(Names(ts))
  }

  /** The task an Add brings is pending, with an ID not in the queue. */
  ghost predicate Allowed(q: Queue, op: Op) {
    op.Add? ==>
      && op.task.status.TaskPending? && op.task.exitCode.None?
      && op.task.id != "" && op.task.id !in Ids(Everything(q))
      && op.task.name != ""
  }

  lemma DistinctInsert<T>(a: seq<T>, x: T, b: seq<T>)
    ensures Distinct(a + [x] + b) <==> Distinct(a + b) && x !in a + b
  {
    var all := a + [x] + b;
    if Distinct(all) {
      forall i, j | 0 <= i < j < |a + b|
        ensures (a + b)[i] != (a + b)[j]
      {
        assert all[if i < |a| then i else i + 1] != all[if j < |a| then j else j + 1];
      }
      forall i | 0 <= i < |a + b|
        ensures (a + b)[i] != x
      {
        assert all[|a|] == x && all[if i < |a| then i else i + 1] == (a + b)[i];
      }
    }
    if Distinct(a + b) && x !in a + b {
      forall i, j | 0 <= i < j < |all|
        ensures all[i] != all[j]
      {
        assert i != |a| ==> all[i] == (a + b)[if i < |a| then i else i - 1];
        assert j != |a| ==> all[j] == (a + b)[if j < |a| then j else j - 1];
      }
    }
  }

  lemma IdsAround(a: seq<TaskData>, t: TaskData, b: seq<TaskData>)
    ensures Ids(a + [t] + b) == Ids(a) + [t.id] + Ids(b) && Ids(a + b) == Ids(a) + Ids(b)
    ensures Names(a + [t] + b) == Names(a) + [t.name] + Names(b) && Names(a + b) == Names(a) + Names(b)
  {
  }

  lemma IdentifiedInsert(a: seq<TaskData>, t: TaskData, b: seq<TaskData>)
    ensures Identified(a + [t] + b) <==>
            Identified(a + b) && t.id !in Ids(a + b) && t.name !in Names(a + b)
  {
    IdsAround(a, t, b);
    hide Distinct, Ids, Names;
    DistinctInsert(Ids(a), t.id, Ids(b));
    DistinctInsert(Names(a), t.name, Names(b));
  }

  lemma PendingInsert(a: seq<TaskData>, t: TaskData, b: seq<TaskData>)
    ensures AllPending(a + [t] + b) <==> AllPending(a + b) && t.status.TaskPending? && WellFormed(t)
  {
    hide WellFormed;
    var all := a + [t] + b;
    if AllPending(all) {
      forall i | 0 <= i < |a + b|
        ensures (a + b)[i].status.TaskPending? && WellFormed((a + b)[i])
      {
        assert (a + b)[i] == all[if i < |a| then i else i + 1];
      }
      assert all[|a|] == t;
    }
    if AllPending(a + b) && t.status.TaskPending? && WellFormed(t) {
      forall i | 0 <= i < |all|
        ensures all[i].status.TaskPending? && WellFormed(all[i])
      {
        assert i != |a| ==> all[i] == (a + b)[if i < |a| then i else i - 1];
      }
    }
  }

  function Front(q: Queue): seq<TaskData> {
    if q.active.Some? then [q.active.value] else []
  }

  /** The task shares no ID and no name with the queue. */
  ghost predicate Fresh(t: TaskData, q: Queue) {
    t.id !in Ids(Everything(q)) && t.name !in Names(Everything(q))
  }

  /** A pending task may be inserted into, or taken out of, the pending sequence. */
  lemma CoherentInsert(q: Queue, q': Queue, a: seq<TaskData>, t: TaskData, b: seq<TaskData>)
    requires q.pending == a + b && q'.pending == a + [t] + b && q'.active == q.active
    requires q'.state == q.state || (q.state == QueueIdle && q'.state == QueueRunning)
    ensures Coherent(q) && t.status.TaskPending? && WellFormed(t) && Fresh(t, q) ==> Coherent(q')
    ensures q'.state == q.state && Coherent(q') ==> Coherent(q) && Fresh(t, q)
  {
    hide WellFormed, AllPending, Identified, Ids, Names;
    PendingInsert(a, t, b);
    IdentifiedInsert(Front(q) + a, t, b);
    assert Everything(q) == (Front(q) + a) + b;
    assert Everything(q') == (Front(q) + a) + [t] + b;
  }

  /** Every operation keeps the queue coherent. */
  lemma PerformKeepsCoherent(q: Queue, op: Op)
    requires Coherent(q) && Allowed(q, op)
    ensures Perform(q, op).Ok? ==> Coherent(Perform(q, op).value)
  {
    if Perform(q, op).Ok? {
      match op
      case Add(t, position) => AddKeeps(q, t, position);
      case Delete(identifier) => DeleteKeeps(q, identifier);
      case Update(identifier, command, name) => UpdateKeeps(q, identifier, command, name);
      case Start => StartKeeps(q);
      case Retry => RetryKeeps(q);
      case Fail(code) => FailKeeps(q, code);
      case _ => DropKeeps(q, op);
    }
  }

  /** Operations that drop the active task, or only change the state. */
  lemma DropKeeps(q: Queue, op: Op)
    requires Coherent(q) && Perform(q, op).Ok?
    requires op.Complete? || op.Skip? || op.Resume?
    ensures Coherent(Perform(q, op).value)
  {
    hide WellFormed, AllPending, Identified;
    WithoutFront(q);
    if !op.Resume? {
      assert Everything(Perform(q, op).value) == q.pending;
    }
  }

  lemma WithoutFront(q: Queue)
    requires Identified(Everything(q))
    ensures Identified(q.pending)
  {
    hide Identified;
    if q.active.Some? {
      IdentifiedInsert([], q.active.value, q.pending);
      assert [] + [q.active.value] + q.pending == Everything(q) && [] + q.pending == q.pending;
    } else {
      assert Everything(q) == q.pending;
    }
  }

  lemma SameIdentity(a: seq<TaskData>, b: seq<TaskData>)
    requires Identified(a) && Ids(a) == Ids(b) && Names(a) == Names(b)
    ensures Identified(b)
  {
  }

  lemma FailKeeps(q: Queue, code: int)
    requires Coherent(q) && HasRunning(q)
    ensures Coherent(Perform(q, Fail(code)).value)
  {
    hide IsBlank, AllPending, Identified;
    SameIdentity(Everything(q), Everything(Perform(q, Fail(code)).value));
  }

  lemma StartKeeps(q: Queue)
    requires Coherent(q)
    ensures Coherent(Perform(q, Start).value)
  {
    hide IsBlank, Identified;
    if q.state.QueueRunning? && !HasRunning(q) && q.pending != [] {
      assert q.active.None?;
      SameIdentity(Everything(q), Everything(Perform(q, Start).value));
    }
  }

  lemma RetryKeeps(q: Queue)
    requires Coherent(q) && HasFailed(q)
    ensures Coherent(Perform(q, Retry).value)
  {
    hide IsBlank, Identified;
    SameIdentity(Everything(q), Everything(Perform(q, Retry).value));
  }

  lemma AddKeeps(q: Queue, t: TaskData, position: Option<int>)
    requires Coherent(q) && Allowed(q, Add(t, position)) && Perform(q, Add(t, position)).Ok?
    ensures Coherent(AddTo(q, t, position))
  {
    hide Coherent, Identified, AllPending, IsBlank, ValidName, Ids, Names, Everything;
    var k := if position.None? then |q.pending| else Min(position.value, |q.pending|);
    AddAccepted(q, t, position);
    assert q.pending == q.pending[..k] + q.pending[k..];
    CoherentInsert(q, AddTo(q, t, position), q.pending[..k], t, q.pending[k..]);
  }

  lemma AddAccepted(q: Queue, t: TaskData, position: Option<int>)
    requires AddError(q, t.command, t.name, position).None? && t.name != ""
    ensures !IsBlank(t.command) && t.name !in Names(Everything(q))
    ensures position.Some? ==> position.value >= 0
  {
  }

  /** A coherent queue holds no two tasks with one ID or one name. */
  lemma IdentifiesTask(q: Queue)
    requires Coherent(q)
    ensures forall t, u :: t in Everything(q) && u in Everything(q) && (t.id == u.id || t.name == u.name) ==> t == u
  {
    var all := Everything(q);
    hide Everything, AllPending, WellFormed;
    assert Identified(all);
    forall t, u | t in all && u in all && (t.id == u.id || t.name == u.name)
      ensures t == u
    {
      var i :| 0 <= i < |all| && all[i] == t;
      var j :| 0 <= j < |all| && all[j] == u;
      assert Ids(all)[i] == t.id && Ids(all)[j] == u.id;
      assert Names(all)[i] == t.name && Names(all)[j] == u.name;
      assert i < j || j < i || i == j;
    }
  }

  lemma {:induction false} WithoutAt(a: seq<TaskData>, t: TaskData, b: seq<TaskData>)
    requires t.id !in Ids(a)
    ensures Without(a + [t] + b, t.id) == a + b
  {
    var all := a + [t] + b;
    if a == [] {
      assert all == [t] + b && a + b == b;
    } else {
      assert Ids(a)[0] == a[0].id && all[0] == a[0];
      assert all[1..] == a[1..] + [t] + b;
      assert Ids(a[1..]) == Ids(a)[1..];
      WithoutAt(a[1..], t, b);
      assert [a[0]] + (a[1..] + b) == a + b;
    }
  }

  /** Where a pending task found by an identifier sits. */
  lemma PendingPosition(q: Queue, t: TaskData) returns (i: nat)
    requires Coherent(q) && t in Everything(q) && t.status.TaskPending?
    ensures i < |q.pending| && q.pending[i] == t
    ensures q.pending == q.pending[..i] + [t] + q.pending[i + 1..]
  {
    hide AllPending, Identified, WellFormed;
    assert t in q.pending;
    i :| 0 <= i < |q.pending| && q.pending[i] == t;
  }

  lemma DeleteKeeps(q: Queue, identifier: string)
    requires Coherent(q) && Perform(q, Delete(identifier)).Ok?
    ensures Coherent(Perform(q, Delete(identifier)).value)
  {
    var t := Find(Everything(q), identifier).value;
    if t.status.TaskFailed? {
      hide AllPending, Identified, WellFormed, Find;
      WithoutFront(q);
      assert Everything(Queue(QueueIdle, None, q.pending)) == q.pending;
    } else {
      var i := PendingPosition(q, t);
      TakeOut(q, i);
    }
  }

  lemma TakeOut(q: Queue, i: nat)
    requires Coherent(q) && i < |q.pending|
    ensures Without(q.pending, q.pending[i].id) == q.pending[..i] + q.pending[i + 1..]
    ensures var q' := q.(pending := Without(q.pending, q.pending[i].id));
            Coherent(q') && Fresh(q.pending[i], q')
  {
    hide Coherent, Without;
    var t, a, b := q.pending[i], q.pending[..i], q.pending[i + 1..];
    assert q.pending == a + [t] + b;
    CoherentInsert(q.(pending := a + b), q, a, t, b);
    assert forall x :: x in Ids(a) ==> x in Ids(Everything(q.(pending := a + b))) by {
      assert Everything(q.(pending := a + b)) == Front(q) + a + b;
      IdsConcat(Front(q) + a, b);
      IdsConcat(Front(q), a);
    }
    WithoutAt(a, t, b);
  }

  lemma IdsConcat(a: seq<TaskData>, b: seq<TaskData>)
    ensures Ids(a + b) == Ids(a) + Ids(b)
    ensures Names(a + b) == Names(a) + Names(b)
  {
  }

  lemma UpdateKeeps(q: Queue, identifier: string, command: string, name: string)
    requires Coherent(q) && Perform(q, Update(identifier, command, name)).Ok?
    ensures Coherent(Perform(q, Update(identifier, command, name)).value)
  {
    var t := Find(Everything(q), identifier).value;
    var u := Updated(q, t, command, name).value;
    var i := PendingPosition(q, t);
    UpdatedTask(q, t, command, name);
    RewriteKeeps(q, i, u);
  }

  lemma UpdatedTask(q: Queue, t: TaskData, command: string, name: string)
    requires Coherent(q) && t in q.pending && Updated(q, t, command, name).Ok?
    ensures var u := Updated(q, t, command, name).value;
            && u.id == t.id && u.status.TaskPending? && WellFormed(u)
            && (u.name == t.name || u.name !in Names(Everything(q)))
  {
    var i :| 0 <= i < |q.pending| && q.pending[i] == t;
  }

  lemma RewriteKeeps(q: Queue, i: nat, u: TaskData)
    requires Coherent(q) && i < |q.pending|
    requires u.id == q.pending[i].id && u.status.TaskPending? && WellFormed(u)
    requires u.name == q.pending[i].name || u.name !in Names(Everything(q))
    ensures Coherent(q.(pending := Rewrite(q.pending, u)))
  {
    hide Coherent, WellFormed, Without, Rewrite;
    var t, a, b := q.pending[i], q.pending[..i], q.pending[i + 1..];
    var less := q.(pending := a + b);
    TakeOut(q, i);
    FewerNames(q, a, t, b);
    RewriteSplits(q, i, u);
    CoherentInsert(less, q.(pending := a + [u] + b), a, u, b);
  }

  lemma FewerNames(q: Queue, a: seq<TaskData>, t: TaskData, b: seq<TaskData>)
    requires q.pending == a + [t] + b
    ensures forall x :: x in Names(Everything(q.(pending := a + b))) ==> x in Names(Everything(q))
  {
    var less := q.(pending := a + b);
    assert Everything(q) == (Front(q) + a) + [t] + b && Everything(less) == (Front(q) + a) + b;
    IdsAround(Front(q) + a, t, b);
  }

  lemma RewriteSplits(q: Queue, i: nat, u: TaskData)
    requires Coherent(q) && i < |q.pending| && q.pending[i].id == u.id
    ensures Rewrite(q.pending, u) == q.pending[..i] + [u] + q.pending[i + 1..]
  {
    PendingIdsDistinct(q);
    hide Coherent;
    forall j | 0 <= j < |q.pending| && j != i
      ensures q.pending[j].id != u.id
    {
      assert Ids(q.pending)[j] != Ids(q.pending)[i];
    }
  }

  lemma PendingIdsDistinct(q: Queue)
    requires Coherent(q)
    ensures Distinct(Ids(q.pending))
  {
    WithoutFront(q);
  }
}
