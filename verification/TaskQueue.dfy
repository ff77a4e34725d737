/**
 The queue of tools/taskline/server/queue.go and the name generator of
 names.go, as the objects they are: one slice of tasks whose fields are
 assigned in place. Every method is proved to perform the operation of
 TaskQueueModel on the abstract queue read off the slice.
 */
module TaskQueue {
  import opened Common
  import opened TaskQueueModel

  // ---------------------------------------------------------------------
  // names.go
  // ---------------------------------------------------------------------

  /** Names and IDs already handed out or reserved; randomness is a sequence of draws. */
  class NameGenerator {
    var usedIDs: set<string>
    var usedNames: set<string>

    constructor ()
      ensures usedIDs == {} && usedNames == {}
    {
      usedIDs, usedNames := {}, {};
    }

    /** The first draw not used before. */
    method GenerateID(draws: seq<string>) returns (id: string)
      requires exists i :: 0 <= i < |draws| && draws[i] !in usedIDs
      modifies this`usedIDs
      ensures id in draws && id !in old(usedIDs)
      ensures usedIDs == old(usedIDs) + {id}
    {
      var i := 0;
      while draws[i] in usedIDs
        invariant 0 <= i < |draws| && exists j :: i <= j < |draws| && draws[j] !in usedIDs
        decreases |draws| - i
      {
        i := i + 1;
      }
      id := draws[i];
      usedIDs := usedIDs + {id};
    }

    method GenerateName(draws: seq<string>) returns (name: string)
      requires exists i :: 0 <= i < |draws| && draws[i] !in usedNames
      modifies this`usedNames
      ensures name in draws && name !in old(usedNames)
      ensures usedNames == old(usedNames) + {name}
    {
      var i := 0;
      while draws[i] in usedNames
        invariant 0 <= i < |draws| && exists j :: i <= j < |draws| && draws[j] !in usedNames
        decreases |draws| - i
      {
        i := i + 1;
      }
      name := draws[i];
      usedNames := usedNames + {name};
    }

    method ReserveName(name: string) returns (reserved: bool)
      modifies this`usedNames
      ensures usedNames == old(usedNames) + {name}
      ensures reserved <==> name !in old(usedNames)
    {
      reserved := name !in usedNames;
      usedNames := usedNames + {name};
    }

    method MarkUsed(id: string, name: string)
      modifies this
      ensures usedIDs == old(usedIDs) + (if id != "" then {id} else {})
      ensures usedNames == old(usedNames) + (if name != "" then {name} else {})
    {
      if id != "" {
        usedIDs := usedIDs + {id};
      }
      if name != "" {
        usedNames := usedNames + {name};
      }
    }
  }

  // ---------------------------------------------------------------------
  // Slices
  // ---------------------------------------------------------------------

  /** Replacing the entry at `i` by `m`. */
  function Splice(ts: seq<TaskData>, i: nat, m: seq<TaskData>): seq<TaskData>
    requires i < |ts|
  {
    ts[..i] + m + ts[i + 1..]
  }

  function Failed(t: TaskData, code: int): TaskData {
    t.(status := TaskFailed, exitCode := Some(code))
  }

  lemma SelectOne(t: TaskData, pending: bool)
    ensures Select([t], pending) == if t.status.TaskPending? == pending then [t] else []
  {
  }

  lemma SelectCut(ts: seq<TaskData>, i: nat, pending: bool)
    requires i < |ts|
    ensures Select(Splice(ts, i, []), pending) == Select(ts[..i], pending) + Select(ts[i + 1..], pending)
  {
    assert Splice(ts, i, []) == ts[..i] + ts[i + 1..];
    SelectConcat(ts[..i], ts[i + 1..], pending);
  }

  lemma SelectSplice(ts: seq<TaskData>, i: nat, m: seq<TaskData>, pending: bool)
    requires i < |ts|
    ensures Select(Splice(ts, i, m), pending) ==
            Select(ts[..i], pending) + Select(m, pending) + Select(ts[i + 1..], pending)
  {
    SelectConcat(ts[..i] + m, ts[i + 1..], pending);
    SelectConcat(ts[..i], m, pending);
  }

  ghost predicate OneActive(ts: seq<TaskData>) {
    |Select(ts, false)| <= 1
  }

  lemma SingletonMiddle<T>(a: seq<T>, x: T, b: seq<T>)
    requires |a + [x] + b| <= 1
    ensures a == [] && b == []
  {
  }

  /** Around the active task there are only pending ones. */
  lemma AroundActive(ts: seq<TaskData>, i: nat)
    requires i < |ts| && OneActive(ts) && !ts[i].status.TaskPending?
    ensures Select(ts[..i], false) == [] && Select(ts[i + 1..], false) == []
    ensures Select(ts, false) == [ts[i]]
  {
    SelectSplit(ts, i, false);
    SingletonMiddle(Select(ts[..i], false), ts[i], Select(ts[i + 1..], false));
  }

  /** Replacing the active task at `i` by at most one task that is not pending. */
  lemma SpliceActive(ts: seq<TaskData>, i: nat, m: seq<TaskData>)
    requires i < |ts| && OneActive(ts) && !ts[i].status.TaskPending?
    requires |m| <= 1 && (m != [] ==> !m[0].status.TaskPending?)
    ensures Select(Splice(ts, i, m), false) == m
    ensures Select(Splice(ts, i, m), true) == Select(ts, true)
  {
    if m != [] {
      SelectOne(m[0], true);
      SelectOne(m[0], false);
      assert m == [m[0]];
    }
    assert Select(m, true) == [] && Select(m, false) == m;
    hide Select, Splice;
    AroundActive(ts, i);
    SelectSplice(ts, i, m, false);
    SelectSplice(ts, i, m, true);
    SelectSplit(ts, i, true);
  }

  /** Assigning the fields of the running task in place performs Fail. */
  lemma FailRefines(state: QueueState, ts: seq<TaskData>, i: nat, code: int)
    requires i < |ts| && OneActive(ts) && ts[i].status.TaskRunning?
    ensures var ts' := Splice(ts, i, [Failed(ts[i], code)]);
            && OneActive(ts')
            && Perform(Abstract(state, ts), Fail(code)) == Ok(Abstract(QueueHalted, ts'))
  {
    AroundActive(ts, i);
    SpliceActive(ts, i, [Failed(ts[i], code)]);
  }

  /** Cutting the running task out of the slice performs Complete. */
  lemma CompleteRefines(state: QueueState, ts: seq<TaskData>, i: nat)
    requires i < |ts| && OneActive(ts) && ts[i].status.TaskRunning?
    ensures var ts' := Splice(ts, i, []);
            && OneActive(ts')
            && Perform(Abstract(state, ts), Complete) ==
               Ok(Abstract(if Select(ts', true) == [] then QueueIdle else state, ts'))
  {
    AroundActive(ts, i);
    SpliceActive(ts, i, []);
  }

  /** Cutting the failed task out of the slice performs Skip. */
  lemma SkipRefines(state: QueueState, ts: seq<TaskData>, i: nat)
    requires i < |ts| && OneActive(ts) && ts[i].status.TaskFailed?
    ensures var ts' := Splice(ts, i, []);
            && OneActive(ts')
            && Perform(Abstract(state, ts), Skip) == Ok(Abstract(QueueRunning, ts'))
  {
    AroundActive(ts, i);
    SpliceActive(ts, i, []);
  }

  /** Moving the failed task, made pending again, before the first pending one performs Retry. */
  lemma RetryRefines(state: QueueState, ts: seq<TaskData>, i: nat, k: nat)
    requires i < |ts| && OneActive(ts) && ts[i].status.TaskFailed?
    requires k <= |ts| - 1
    requires forall j :: 0 <= j < k ==> !Splice(ts, i, [])[j].status.TaskPending?
    requires k < |ts| - 1 ==> Splice(ts, i, [])[k].status.TaskPending?
    ensures var rest := Splice(ts, i, []);
            var ts' := rest[..k] + [ts[i].(status := TaskPending, exitCode := None)] + rest[k..];
            && OneActive(ts')
            && Perform(Abstract(state, ts), Retry) == Ok(Abstract(QueueRunning, ts'))
  {
    var rest, t := Splice(ts, i, []), ts[i].(status := TaskPending, exitCode := None);
    AroundActive(ts, i);
    SpliceActive(ts, i, []);
    SelectInsert(rest, k, t);
    NonePending(rest[..k]);
    assert Select(rest, true)[..0] + [t] + Select(rest, true)[0..] == [t] + Select(ts, true);
  }

  /** Marking the first pending task as running performs Start. */
  lemma StartRefines(ts: seq<TaskData>, i: nat)
    requires i < |ts| && Select(ts, false) == [] && ts[i].status.TaskPending?
    requires forall j :: 0 <= j < i ==> !ts[j].status.TaskPending?
    ensures var ts' := Splice(ts, i, [ts[i].(status := TaskRunning)]);
            && OneActive(ts')
            && Perform(Abstract(QueueRunning, ts), Start) == Ok(Abstract(QueueRunning, ts'))
  {
    hide Select, Splice;
    StartSelects(ts, i);
    var t, rest := ts[i].(status := TaskRunning), Select(ts[i + 1..], true);
    assert ([ts[i]] + rest)[0] == ts[i] && ([ts[i]] + rest)[1..] == rest;
  }

  lemma StartSelects(ts: seq<TaskData>, i: nat)
    requires i < |ts| && Select(ts, false) == [] && ts[i].status.TaskPending?
    requires forall j :: 0 <= j < i ==> !ts[j].status.TaskPending?
    ensures Select(ts, true) == [ts[i]] + Select(ts[i + 1..], true)
    ensures var ts' := Splice(ts, i, [ts[i].(status := TaskRunning)]);
            && Select(ts', true) == Select(ts[i + 1..], true)
            && Select(ts', false) == [ts[i].(status := TaskRunning)]
  {
  }

  /** Inserting a new pending task before the pending task number `k`, or at the end, performs Add. */
  lemma AddRefines(state: QueueState, ts: seq<TaskData>, i: nat, t: TaskData, position: Option<int>)
    requires OneActive(ts) && t.status.TaskPending? && i <= |ts|
    requires AddError(Abstract(state, ts), t.command, t.name, position).None?
    requires if position.Some? && position.value < |Select(ts, true)|
             then position.value == |Select(ts[..i], true)| else i == |ts|
    ensures var ts' := ts[..i] + [t] + ts[i..];
            && OneActive(ts')
            && Perform(Abstract(state, ts), Add(t, position)) ==
               Ok(Abstract(if state.QueueIdle? then QueueRunning else state, ts'))
  {
    SelectInsert(ts, i, t);
    assert ts[..|ts|] == ts;
  }

  /** Deleting a pending task cuts it out of the pending sequence. */
  lemma DeleteRefines(state: QueueState, ts: seq<TaskData>, i: nat, identifier: string)
    requires i < |ts| && OneActive(ts) && Coherent(Abstract(state, ts)) && !ts[i].status.TaskRunning?
    requires Find(Everything(Abstract(state, ts)), identifier) == Some(ts[i])
    ensures var ts' := Splice(ts, i, []);
            && OneActive(ts')
            && Perform(Abstract(state, ts), Delete(identifier)) ==
               Ok(Abstract(if ts[i].status.TaskFailed? then QueueIdle else state, ts'))
  {
    hide Coherent, Select, Find, Everything, IsBlank;
    PendingIdsDistinct(Abstract(state, ts));
    if ts[i].status.TaskFailed? {
      AroundActive(ts, i);
      SpliceActive(ts, i, []);
    } else {
      CutPending(ts, i);
    }
  }

  lemma NotBefore(a: seq<TaskData>, t: TaskData, b: seq<TaskData>)
    requires Distinct(Ids(a + [t] + b))
    ensures t.id !in Ids(a)
  {
    var all := a + [t] + b;
    assert Ids(all)[|a|] == t.id;
    assert forall j :: 0 <= j < |a| ==> Ids(a)[j] == Ids(all)[j];
  }

  lemma CutPending(ts: seq<TaskData>, i: nat)
    requires i < |ts| && ts[i].status.TaskPending? && Distinct(Ids(Select(ts, true)))
    ensures Select(Splice(ts, i, []), false) == Select(ts, false)
    ensures Select(Splice(ts, i, []), true) == Without(Select(ts, true), ts[i].id)
  {
    hide Select, Without, Ids, Distinct;
    SelectSplit(ts, i, true);
    SelectSplit(ts, i, false);
    SelectCut(ts, i, true);
    SelectCut(ts, i, false);
    NotBefore(Select(ts[..i], true), ts[i], Select(ts[i + 1..], true));
    WithoutAt(Select(ts[..i], true), ts[i], Select(ts[i + 1..], true));
  }

  /** Assigning the fields of a pending task in place performs Update. */
  lemma UpdateRefines(state: QueueState, ts: seq<TaskData>, i: nat, identifier: string, command: string, name: string)
    requires i < |ts| && OneActive(ts) && Coherent(Abstract(state, ts))
    requires Find(Everything(Abstract(state, ts)), identifier) == Some(ts[i])
    requires Updated(Abstract(state, ts), ts[i], command, name).Ok?
    ensures var ts' := Splice(ts, i, [ts[i].(command := if IsBlank(command) then ts[i].command else command,
                                              name := if IsBlank(name) then ts[i].name else name)]);
            && OneActive(ts')
            && Perform(Abstract(state, ts), Update(identifier, command, name)) == Ok(Abstract(state, ts'))
  {
    hide IsBlank, ValidName, Coherent, Select, Find, Everything, Updated, Rewrite, Splice, Ids;
    UpdatedIs(Abstract(state, ts), ts[i], command, name);
    var u := Updated(Abstract(state, ts), ts[i], command, name).value;
    UpdatedIsPending(Abstract(state, ts), ts[i], command, name);
    PendingIdsDistinct(Abstract(state, ts));
    RewritePending(ts, i, u);
  }

  lemma UpdatedIsPending(q: Queue, t: TaskData, command: string, name: string)
    requires Updated(q, t, command, name).Ok?
    ensures var u := Updated(q, t, command, name).value; u.id == t.id && t.status.TaskPending? && u.status.TaskPending?
  {
    hide IsBlank, ValidName, Everything;
  }

  lemma RewritePending(ts: seq<TaskData>, i: nat, u: TaskData)
    requires i < |ts| && ts[i].status.TaskPending? && Distinct(Ids(Select(ts, true)))
    requires u.id == ts[i].id && u.status.TaskPending?
    ensures Select(Splice(ts, i, [u]), false) == Select(ts, false)
    ensures Select(Splice(ts, i, [u]), true) == Rewrite(Select(ts, true), u)
  {
    SelectOne(u, true);
    SelectOne(u, false);
    hide Select, Rewrite;
    SelectSplit(ts, i, true);
    SelectSplit(ts, i, false);
    SelectSplice(ts, i, [u], true);
    SelectSplice(ts, i, [u], false);
    RewriteAt(Select(ts[..i], true), ts[i], u, Select(ts[i + 1..], true));
  }

  lemma RewriteAt(a: seq<TaskData>, t: TaskData, u: TaskData, b: seq<TaskData>)
    requires Distinct(Ids(a + [t] + b)) && u.id == t.id
    ensures Rewrite(a + [t] + b, u) == a + [u] + b
  {
    var all := a + [t] + b;
    assert Ids(all)[|a|] == t.id;
    forall j | 0 <= j < |all| && j != |a|
      ensures all[j].id != t.id
    {
      assert Ids(all)[j] == all[j].id;
    }
  }

  lemma EverythingIs(state: QueueState, ts: seq<TaskData>)
    requires OneActive(ts)
    ensures multiset(Everything(Abstract(state, ts))) == multiset(ts)
    ensures forall t :: t in Everything(Abstract(state, ts)) <==> t in ts
  {
    SelectPartitions(ts);
    hide Select;
    var active := Select(ts, false);
    assert active == [] || active == [active[0]];
    assert multiset(Everything(Abstract(state, ts))) == multiset(active) + multiset(Select(ts, true));
    assert forall t :: t in ts <==> t in multiset(ts);
    assert forall t :: t in Everything(Abstract(state, ts)) <==> t in multiset(Everything(Abstract(state, ts)));
  }

  /** A lookup finds the same task in the slice as in the abstract queue. */
  lemma LookupAgrees(state: QueueState, ts: seq<TaskData>, identifier: string)
    requires OneActive(ts) && Coherent(Abstract(state, ts))
    ensures forall t :: Resolves(ts, identifier, t) ==> Find(Everything(Abstract(state, ts)), identifier) == Some(t)
    ensures (forall t :: t in ts ==> t.id != identifier && t.name != identifier) ==>
              Find(Everything(Abstract(state, ts)), identifier).None?
  {
    hide Coherent, Select;
    EverythingIs(state, ts);
    IdentifiesTask(Abstract(state, ts));
  }

  lemma {:induction false} NonePending(ts: seq<TaskData>)
    requires forall j :: 0 <= j < |ts| ==> ts[j].status != TaskPending
    ensures Select(ts, true) == []
  {
    if ts != [] {
      NonePending(ts[1..]);
    }
  }

  /** Inserting a pending task before position `i` of the slice. */
  lemma SelectInsert(ts: seq<TaskData>, i: nat, t: TaskData)
    requires i <= |ts| && t.status.TaskPending?
    ensures Select(ts[..i] + [t] + ts[i..], false) == Select(ts, false)
    ensures var k := |Select(ts[..i], true)|;
            k <= |Select(ts, true)| &&
            Select(ts[..i] + [t] + ts[i..], true) == Select(ts, true)[..k] + [t] + Select(ts, true)[k..]
  {
    assert ts == ts[..i] + ts[i..];
    SelectConcat(ts[..i], ts[i..], true);
    SelectConcat(ts[..i], ts[i..], false);
    SelectConcat(ts[..i] + [t], ts[i..], true);
    SelectConcat(ts[..i] + [t], ts[i..], false);
    SelectConcat(ts[..i], [t], true);
    SelectConcat(ts[..i], [t], false);
  }

  // ---------------------------------------------------------------------
  // Steps on the slice refine steps on the abstract queue
  // ---------------------------------------------------------------------

  ghost predicate Recorded(ts: seq<TaskData>, ids: set<string>, names: set<string>) {
    forall t :: t in ts ==> t.id in ids && t.name in names
  }

  /** What holds of the slice between calls. */
  ghost predicate Good(state: QueueState, ts: seq<TaskData>, ids: set<string>, names: set<string>) {
    OneActive(ts) && Coherent(Abstract(state, ts)) && Recorded(ts, ids, names)
  }

  /** From slice `ts` to slice `ts'` by `op`. */
  ghost predicate Refines(state: QueueState, ts: seq<TaskData>, op: Op, state': QueueState, ts': seq<TaskData>) {
    Perform(Abstract(state, ts), op) == Ok(Abstract(state', ts'))
  }

  /** No task before position `n` has the given status. */
  predicate NoneUpTo(ts: seq<TaskData>, n: nat, status: TaskStatus)
    requires n <= |ts|
  {
    forall j :: 0 <= j < n ==> ts[j].status != status
  }

  /** The index of the first task with the given status, or -1. */
  function FirstWith(ts: seq<TaskData>, status: TaskStatus): (i: int)
    ensures -1 <= i < |ts|
    ensures i >= 0 ==> ts[i].status == status
    ensures NoneUpTo(ts, if i < 0 then |ts| else i, status)
  {
    if ts == [] then -1
    else if ts[0].status == status then 0
    else
      var i := FirstWith(ts[1..], status);
      if i < 0 then -1 else i + 1
  }

  lemma Settled(state: QueueState, ts: seq<TaskData>, op: Op, state': QueueState, ts': seq<TaskData>,
                ids: set<string>, names: set<string>)
    requires Good(state, ts, ids, names) && Allowed(Abstract(state, ts), op)
    requires OneActive(ts') && Refines(state, ts, op, state', ts')
    requires Recorded(ts', ids, names)
    ensures Good(state', ts', ids, names)
  {
    hide Select;
    PerformKeepsCoherent(Abstract(state, ts), op);
  }

  lemma SpliceRecorded(ts: seq<TaskData>, i: nat, m: seq<TaskData>, ids: set<string>, names: set<string>)
    requires i < |ts| && Recorded(ts, ids, names) && Recorded(m, ids, names)
    ensures Recorded(Splice(ts, i, m), ids, names)
  {
  }

  /** The task at `i` is the active one. */
  lemma ActiveIs(state: QueueState, ts: seq<TaskData>, i: nat, ids: set<string>, names: set<string>)
    requires Good(state, ts, ids, names) && i < |ts| && !ts[i].status.TaskPending?
    ensures Abstract(state, ts).active == Some(ts[i])
  {
    AroundActive(ts, i);
  }

  lemma NoneActive(state: QueueState, ts: seq<TaskData>, status: TaskStatus)
    requires !status.TaskPending? && NoneUpTo(ts, |ts|, status)
    ensures var active := Abstract(state, ts).active; active.Some? ==> active.value.status != status
  {
    if Select(ts, false) != [] {
      SelectMember(ts, false);
    }
  }

  /** No running task: Fail and Complete report it. */
  lemma FailWithoutRunning(state: QueueState, ts: seq<TaskData>, code: int)
    requires NoneUpTo(ts, |ts|, TaskRunning)
    ensures Perform(Abstract(state, ts), Fail(code)) == Err(NoRunningTask)
    ensures Perform(Abstract(state, ts), Complete) == Err(NoRunningTask)
    ensures !HasRunning(Abstract(state, ts))
  {
    NoneActive(state, ts, TaskRunning);
  }

  /** No failed task: Retry and Skip report it. */
  lemma RetryWithoutFailed(state: QueueState, ts: seq<TaskData>)
    requires NoneUpTo(ts, |ts|, TaskFailed)
    ensures Perform(Abstract(state, ts), Retry) == Err(NoFailedTask)
    ensures Perform(Abstract(state, ts), Skip) == Err(NoFailedTask)
    ensures !HasFailed(Abstract(state, ts))
  {
    NoneActive(state, ts, TaskFailed);
  }

  /** Assigning the fields of the running task in place performs Fail. */
  lemma FailStep(state: QueueState, ts: seq<TaskData>, i: nat, code: int, ids: set<string>, names: set<string>)
    requires Good(state, ts, ids, names) && i < |ts| && ts[i].status.TaskRunning?
    ensures var ts' := Splice(ts, i, [Failed(ts[i], code)]);
            Refines(state, ts, Fail(code), QueueHalted, ts') && Good(QueueHalted, ts', ids, names)
  {
    FailRefines(state, ts, i, code);
    var m := [Failed(ts[i], code)];
    SpliceRecorded(ts, i, m, ids, names);
    Settled(state, ts, Fail(code), QueueHalted, Splice(ts, i, m), ids, names);
  }

  lemma CompleteStep(state: QueueState, ts: seq<TaskData>, i: nat, ids: set<string>, names: set<string>)
    requires Good(state, ts, ids, names) && i < |ts| && ts[i].status.TaskRunning?
    ensures var ts' := Splice(ts, i, []);
            var state' := if Select(ts', true) == [] then QueueIdle else state;
            Refines(state, ts, Complete, state', ts') && Good(state', ts', ids, names)
  {
    hide Select;
    CompleteRefines(state, ts, i);
    var ts' := Splice(ts, i, []);
    SpliceRecorded(ts, i, [], ids, names);
    Settled(state, ts, Complete, if Select(ts', true) == [] then QueueIdle else state, ts', ids, names);
  }

  lemma SkipStep(state: QueueState, ts: seq<TaskData>, i: nat, ids: set<string>, names: set<string>)
    requires Good(state, ts, ids, names) && i < |ts| && ts[i].status.TaskFailed?
    ensures var ts' := Splice(ts, i, []);
            Refines(state, ts, Skip, QueueRunning, ts') && Good(QueueRunning, ts', ids, names)
  {
    SkipRefines(state, ts, i);
    SpliceRecorded(ts, i, [], ids, names);
    Settled(state, ts, Skip, QueueRunning, Splice(ts, i, []), ids, names);
  }

  /** `rest` is `ts` without entry `i`, and `k` its first pending position, or its end. */
  predicate FirstPending(rest: seq<TaskData>, k: nat) {
    && k <= |rest|
    && NoneUpTo(rest, k, TaskPending)
    && (k < |rest| ==> rest[k].status.TaskPending?)
  }

  function InsertAt(ts: seq<TaskData>, k: nat, t: TaskData): seq<TaskData>
    requires k <= |ts|
  {
    ts[..k] + [t] + ts[k..]
  }

  lemma RetryStep(state: QueueState, ts: seq<TaskData>, i: nat, k: nat, ids: set<string>, names: set<string>)
    requires Good(state, ts, ids, names) && i < |ts| && ts[i].status.TaskFailed?
    requires FirstPending(Splice(ts, i, []), k)
    ensures var t := ts[i].(status := TaskPending, exitCode := None);
            var ts' := InsertAt(Splice(ts, i, []), k, t);
            && Refines(state, ts, Retry, QueueRunning, ts') && Good(QueueRunning, ts', ids, names)
            && Abstract(QueueRunning, ts').pending == [t] + Abstract(state, ts).pending
  {
    hide Select;
    var t := ts[i].(status := TaskPending, exitCode := None);
    RetryRefines(state, ts, i, k);
    ActiveIs(state, ts, i, ids, names);
    SpliceRecorded(ts, i, [], ids, names);
    InsertRecorded(Splice(ts, i, []), k, t, ids, names);
    Settled(state, ts, Retry, QueueRunning, InsertAt(Splice(ts, i, []), k, t), ids, names);
  }

  lemma InsertRecorded(ts: seq<TaskData>, k: nat, t: TaskData, ids: set<string>, names: set<string>)
    requires k <= |ts| && Recorded(ts, ids, names) && t.id in ids && t.name in names
    ensures Recorded(InsertAt(ts, k, t), ids, names)
  {
  }

  lemma StartStep(ts: seq<TaskData>, i: nat, ids: set<string>, names: set<string>)
    requires Good(QueueRunning, ts, ids, names) && !HasRunning(Abstract(QueueRunning, ts))
    requires i < |ts| && FirstPending(ts, i)
    ensures var ts' := Splice(ts, i, [ts[i].(status := TaskRunning)]);
            Refines(QueueRunning, ts, Start, QueueRunning, ts') && Good(QueueRunning, ts', ids, names)
  {
    var m := [ts[i].(status := TaskRunning)];
    StartRefines(ts, i);
    SpliceRecorded(ts, i, m, ids, names);
    Settled(QueueRunning, ts, Start, QueueRunning, Splice(ts, i, m), ids, names);
  }

  lemma NothingToStart(state: QueueState, ts: seq<TaskData>)
    requires !state.QueueRunning? || HasRunning(Abstract(state, ts)) || NoneUpTo(ts, |ts|, TaskPending)
    ensures Refines(state, ts, Start, state, ts)
  {
    if state.QueueRunning? && !HasRunning(Abstract(state, ts)) {
      NonePending(ts);
    }
  }

  // What the new state of the queue is.

  lemma Completed(q: Queue, q': Queue)
    requires Perform(q, Complete) == Ok(q')
    ensures HasRunning(q) && q' == Queue(if q.pending == [] then QueueIdle else q.state, None, q.pending)
  {
  }

  lemma FailedNow(q: Queue, q': Queue, code: int)
    requires Perform(q, Fail(code)) == Ok(q')
    ensures HasRunning(q) && q' == Queue(QueueHalted, Some(Failed(q.active.value, code)), q.pending)
  {
  }

  lemma Retried(q: Queue, q': Queue)
    requires Perform(q, Retry) == Ok(q')
    ensures HasFailed(q)
    ensures q' == Queue(QueueRunning, None, [q.active.value.(status := TaskPending, exitCode := None)] + q.pending)
  {
  }

  lemma Skipped(q: Queue, q': Queue)
    requires Perform(q, Skip) == Ok(q')
    ensures HasFailed(q) && q' == Queue(QueueRunning, None, q.pending)
  {
  }

  lemma Added(q: Queue, t: TaskData, position: Option<int>, q': Queue)
    requires Perform(q, Add(t, position)) == Ok(q')
    ensures InsertedAt(q, t, position, q')
  {
    hide IsBlank, ValidName, Everything, Names;
  }

  /** A new task goes before the pending one at its position, or to the end, and an idle queue begins to run. */
  predicate InsertedAt(q: Queue, t: TaskData, position: Option<int>, q': Queue) {
    && q'.active == q.active && q'.state == (if q.state == QueueIdle then QueueRunning else q.state)
    && |q'.pending| == |q.pending| + 1
    && var k := if position.Some? && position.value < |q.pending| then position.value else |q.pending|;
       0 <= k && q'.pending[k] == t && q'.pending[..k] == q.pending[..k] && q'.pending[k + 1..] == q.pending[k..]
  }

  lemma StartedHead(ts: seq<TaskData>, i: nat, ids: set<string>, names: set<string>)
    requires Good(QueueRunning, ts, ids, names) && !HasRunning(Abstract(QueueRunning, ts))
    requires i < |ts| && FirstPending(ts, i)
    ensures var t, q := ts[i].(status := TaskRunning), Abstract(QueueRunning, ts);
            && q.pending != [] && q.pending[0] == ts[i]
            && Abstract(QueueRunning, Splice(ts, i, [t])) == Queue(QueueRunning, Some(t), q.pending[1..])
  {
    assert Select(ts, false) == [];
    hide Select, Splice;
    StartSelects(ts, i);
  }

  lemma ResumeStep(state: QueueState, ts: seq<TaskData>, ids: set<string>, names: set<string>)
    requires Good(state, ts, ids, names)
    ensures state.QueueRunning? ==> Perform(Abstract(state, ts), Resume) == Err(AlreadyRunning)
    ensures !state.QueueRunning? && HasFailed(Abstract(state, ts)) ==> Perform(Abstract(state, ts), Resume) == Err(Halted)
    ensures !state.QueueRunning? && !HasFailed(Abstract(state, ts)) ==>
              var state' := if Select(ts, true) == [] then QueueIdle else QueueRunning;
              Refines(state, ts, Resume, state', ts) && Good(state', ts, ids, names)
  {
  }

  lemma AddStep(state: QueueState, ts: seq<TaskData>, k: nat, t: TaskData, position: Option<int>,
                ids: set<string>, names: set<string>)
    requires Good(state, ts, ids, names)
    requires AddError(Abstract(state, ts), t.command, t.name, position).None?
    requires t.status.TaskPending? && t.exitCode.None? && t.id != "" && t.id !in ids && t.name != "" && t.name in names
    requires k <= |ts|
    requires if position.Some? && position.value < |Select(ts, true)|
             then position.value == |Select(ts[..k], true)| else k == |ts|
    ensures var ts' := InsertAt(ts, k, t);
            var state' := if state.QueueIdle? then QueueRunning else state;
            Refines(state, ts, Add(t, position), state', ts') && Good(state', ts', ids + {t.id}, names)
  {
    hide Select, Coherent, AddError, AddTo;
    AddRefines(state, ts, k, t, position);
    IdsRecorded(state, ts, ids, names);
    assert Recorded(ts, ids + {t.id}, names);
    InsertRecorded(ts, k, t, ids + {t.id}, names);
    Settled(state, ts, Add(t, position), if state.QueueIdle? then QueueRunning else state, InsertAt(ts, k, t),
            ids + {t.id}, names);
  }

  lemma IdsRecorded(state: QueueState, ts: seq<TaskData>, ids: set<string>, names: set<string>)
    requires OneActive(ts) && Recorded(ts, ids, names)
    ensures forall x :: x in Ids(Everything(Abstract(state, ts))) ==> x in ids
    ensures forall x :: x in Names(Everything(Abstract(state, ts))) ==> x in names
  {
    hide Select;
    var q := Abstract(state, ts);
    EverythingIs(state, ts);
    forall x | x in Ids(Everything(q))
      ensures x in ids
    {
      var t :| t in Everything(q) && t.id == x;
    }
    forall x | x in Names(Everything(q))
      ensures x in names
    {
      var t :| t in Everything(q) && t.name == x;
    }
  }

  lemma DeleteStep(state: QueueState, ts: seq<TaskData>, i: nat, identifier: string, ids: set<string>, names: set<string>)
    requires Good(state, ts, ids, names) && i < |ts|
    requires Find(Everything(Abstract(state, ts)), identifier) == Some(ts[i])
    ensures ts[i].status.TaskRunning? ==> Perform(Abstract(state, ts), Delete(identifier)) == Err(TaskIsRunning)
    ensures !ts[i].status.TaskRunning? ==>
              var ts' := Splice(ts, i, []);
              var state' := if ts[i].status.TaskFailed? then QueueIdle else state;
              Refines(state, ts, Delete(identifier), state', ts') && Good(state', ts', ids, names)
  {
    hide Select, Coherent, Find;
    if !ts[i].status.TaskRunning? {
      DeleteRefines(state, ts, i, identifier);
      SpliceRecorded(ts, i, [], ids, names);
      Settled(state, ts, Delete(identifier), if ts[i].status.TaskFailed? then QueueIdle else state,
              Splice(ts, i, []), ids, names);
    }
  }

  lemma UpdateStep(state: QueueState, ts: seq<TaskData>, i: nat, identifier: string, command: string, name: string,
                   ids: set<string>, names: set<string>)
    requires Good(state, ts, ids, names) && i < |ts|
    requires Find(Everything(Abstract(state, ts)), identifier) == Some(ts[i])
    ensures var u := Updated(Abstract(state, ts), ts[i], command, name);
            match u
            case Err(e) => Perform(Abstract(state, ts), Update(identifier, command, name)) == Err(e)
            case Ok(t) =>
              var ts' := Splice(ts, i, [t]);
              && Refines(state, ts, Update(identifier, command, name), state, ts')
              && Good(state, ts', ids, names + {t.name})
  {
    hide Select, Coherent, Find, ValidName, IsBlank;
    var u := Updated(Abstract(state, ts), ts[i], command, name);
    if u.Ok? {
      UpdateRefines(state, ts, i, identifier, command, name);
      UpdatedIs(Abstract(state, ts), ts[i], command, name);
      assert u.value.id == ts[i].id && ts[i] in ts;
      assert Recorded(ts, ids, names + {u.value.name});
      SpliceRecorded(ts, i, [u.value], ids, names + {u.value.name});
      Settled(state, ts, Update(identifier, command, name), state, Splice(ts, i, [u.value]), ids, names + {u.value.name});
    }
  }

  /** How an update of task `t`, one of `ts`, is answered: with an error, or none. */
  ghost predicate RightAnswer(ts: seq<TaskData>, t: TaskData, command: string, name: string, e: Option<Error>) {
    var renames := !IsBlank(name) && name != t.name;
    && (e == Some(TaskIsRunning) <==> t.status == TaskRunning)
    && (e == Some(FailedImmutable) <==> t.status == TaskFailed)
    && (t.status == TaskPending ==>
          && (e == Some(NoUpdateFields) <==> IsBlank(command) && IsBlank(name))
          && (e == Some(InvalidName) <==> renames && !ValidName(name))
          && (e == Some(NameTaken) <==> renames && ValidName(name) && exists u :: u in ts && u.name == name)
          && (e.None? <==> e !in {Some(NoUpdateFields), Some(InvalidName), Some(NameTaken)}))
  }

  lemma UpdatedIs(q: Queue, t: TaskData, command: string, name: string)
    requires Updated(q, t, command, name).Ok?
    ensures Updated(q, t, command, name).value ==
            t.(command := if IsBlank(command) then t.command else command, name := if IsBlank(name) then t.name else name)
  {
    hide IsBlank, ValidName, Everything;
  }

  lemma GoodHasOneActive(state: QueueState, ts: seq<TaskData>, ids: set<string>, names: set<string>)
    requires Good(state, ts, ids, names)
    ensures OneActive(ts)
  {
  }

  lemma UpdatedAnswers(state: QueueState, ts: seq<TaskData>, t: TaskData, command: string, name: string)
    requires OneActive(ts)
    ensures var u := Updated(Abstract(state, ts), t, command, name);
            RightAnswer(ts, t, command, name, if u.Err? then Some(u.error) else None)
  {
    hide IsBlank, ValidName, Select, OneActive;
    EverythingIs(state, ts);
    NamesOf(Everything(Abstract(state, ts)), name);
  }

  lemma LookupMisses(state: QueueState, ts: seq<TaskData>, identifier: string)
    requires Find(Everything(Abstract(state, ts)), identifier).None?
    ensures Perform(Abstract(state, ts), Delete(identifier)) == Err(TaskNotFound)
    ensures forall command, name :: Perform(Abstract(state, ts), Update(identifier, command, name)) == Err(TaskNotFound)
  {
  }

  // ---------------------------------------------------------------------
  // queue.go
  // ---------------------------------------------------------------------

  class Task {
    const id: string
    const cwd: string
    const createdAt: int
    var name: string
    var command: string
    var status: TaskStatus
    var exitCode: Option<int>

    constructor (id: string, name: string, command: string, cwd: string, createdAt: int)
      ensures Data() == TaskData(id, name, command, cwd, TaskPending, None, createdAt)
    {
      this.id, this.name, this.command, this.cwd, this.createdAt := id, name, command, cwd, createdAt;
      status, exitCode := TaskPending, None;
    }

    constructor FromData(t: TaskData)
      ensures Data() == t
    {
      id, name, command, cwd, createdAt := t.id, t.name, t.command, t.cwd, t.createdAt;
      status, exitCode := t.status, t.exitCode;
    }

    function Data(): TaskData
      reads this
    {
      TaskData(id, name, command, cwd, status, exitCode, createdAt)
    }
  }

  ghost function Datas(tasks: seq<Task>): (ts: seq<TaskData>)
    reads tasks
    ensures |ts| == |tasks|
  {
    seq(|tasks|, i requires 0 <= i < |tasks| reads tasks => tasks[i].Data())
  }

  /** Assigning fields of the task at `i` only. */
  lemma OnlyChanged(tasks: seq<Task>, i: nat, before: seq<TaskData>)
    requires i < |tasks| == |before|
    requires forall j :: 0 <= j < |tasks| && j != i ==> tasks[j].Data() == before[j]
    ensures Datas(tasks) == Splice(before, i, [tasks[i].Data()])
  {
  }

  lemma DatasCut(tasks: seq<Task>, i: nat)
    requires i < |tasks| && Distinct(tasks)
    ensures Datas(tasks[..i] + tasks[i + 1..]) == Splice(Datas(tasks), i, [])
    ensures Distinct(tasks[..i] + tasks[i + 1..]) && tasks[i] !in tasks[..i] + tasks[i + 1..]
  {
  }

  lemma DatasInsert(tasks: seq<Task>, i: nat, t: Task)
    requires i <= |tasks| && Distinct(tasks) && t !in tasks
    ensures Datas(tasks[..i] + [t] + tasks[i..]) == InsertAt(Datas(tasks), i, t.Data())
    ensures Distinct(tasks[..i] + [t] + tasks[i..])
  {
  }

  class TaskQueue {
    var state: QueueState
    var tasks: seq<Task>
    const names: NameGenerator

    ghost function View(): Queue
      reads this, tasks
    {
      Abstract(state, Datas(tasks))
    }

    /**
     The tasks are distinct objects; at most one is not pending, a failed one
     exists iff the queue is halted, a running one only if it is running; IDs
     and names are distinct and recorded as used.
     */
    ghost predicate Valid()
      reads this, tasks, names
    {
      Distinct(tasks) && Good(state, Datas(tasks), names.usedIDs, names.usedNames)
    }

    constructor (names: NameGenerator)
      ensures Valid() && this.names == names
      ensures View() == Queue(QueueIdle, None, [])
    {
      this.names := names;
      state, tasks := QueueIdle, [];
    }

    /** A queue around tasks read back from a file. */
    constructor Restored(state: QueueState, tasks: seq<Task>, names: NameGenerator)
      ensures this.state == state && this.tasks == tasks && this.names == names
    {
      this.state, this.tasks, this.names := state, tasks, names;
    }

    /** runningTaskLocked, failedTaskLocked and the searches for a pending task: the first task with a status, or -1. */
    method IndexOf(status: TaskStatus) returns (idx: int)
      ensures idx == FirstWith(Datas(tasks), status)
    {
      ghost var ts := Datas(tasks);
      for i := 0 to |tasks|
        invariant forall j :: 0 <= j < i ==> ts[j].status != status
      {
        assert ts[i].status == tasks[i].status;
        if tasks[i].status == status {
          return i;
        }
      }
      return -1;
    }

    /** A copy of the running task. */
    method CurrentTask() returns (t: Option<TaskData>)
      ensures var i := FirstWith(Datas(tasks), TaskRunning); t == if i < 0 then None else Some(Datas(tasks)[i])
      ensures Valid() ==> t == if HasRunning(View()) then View().active else None
    {
      hide Good, Abstract, HasRunning, FirstWith;
      var idx := IndexOf(TaskRunning);
      if idx >= 0 {
        if Good(state, Datas(tasks), names.usedIDs, names.usedNames) {
          ActiveIs(state, Datas(tasks), idx, names.usedIDs, names.usedNames);
          RunningIsActive(state, Datas(tasks), idx, names.usedIDs, names.usedNames);
        }
        return Some(tasks[idx].Data());
      }
      FailWithoutRunning(state, Datas(tasks), 0);
      return None;
    }

    method PendingIndices() returns (indices: seq<nat>)
      ensures |indices| == |Select(Datas(tasks), true)|
      ensures forall k :: 0 <= k < |indices| ==>
                indices[k] < |tasks| && |Select(Datas(tasks)[..indices[k]], true)| == k
    {
      ghost var ts := Datas(tasks);
      indices := [];
      for i := 0 to |tasks|
        invariant |indices| == |Select(ts[..i], true)|
        invariant forall k :: 0 <= k < |indices| ==> indices[k] < i && |Select(ts[..indices[k]], true)| == k
      {
        assert ts[..i + 1] == ts[..i] + [ts[i]];
        SelectConcat(ts[..i], [ts[i]], true);
        if tasks[i].status == TaskPending {
          indices := indices + [i];
        }
      }
      assert ts[..|tasks|] == ts;
    }

    /** Starts the first pending task; null when there is nothing to start. */
    method StartNext() returns (t: Task?)
      requires Valid()
      modifies tasks
      ensures Valid() && tasks == old(tasks) && state == old(state)
      ensures Perform(old(View()), Start) == Ok(View())
      ensures var q := old(View());
              t != null <==> q.state.QueueRunning? && !HasRunning(q) && q.pending != []
      ensures t == null ==> View() == old(View())
      ensures t != null ==>
                && t in tasks && old(t.Data()) == old(View()).pending[0] && t.Data() == old(t.Data()).(status := TaskRunning)
                && View() == Queue(QueueRunning, Some(t.Data()), old(View()).pending[1..])
    {
      hide Good, Abstract, HasRunning, FirstWith;
      ghost var ts := Datas(tasks);
      if state != QueueRunning {
        NothingToStart(state, ts);
        return null;
      }
      var running := IndexOf(TaskRunning);
      if running >= 0 {
        RunningIsActive(state, ts, running, names.usedIDs, names.usedNames);
        NothingToStart(state, ts);
        return null;
      }
      FailWithoutRunning(state, ts, 0);
      var i := IndexOf(TaskPending);
      if i < 0 {
        NothingToStart(state, ts);
        return null;
      }
      t := tasks[i];
      StartStep(ts, i, names.usedIDs, names.usedNames);
      t.status := TaskRunning;
      OnlyChanged(tasks, i, ts);
      ActiveIs(state, Datas(tasks), i, names.usedIDs, names.usedNames);
      StartedHead(ts, i, names.usedIDs, names.usedNames);
    }

    method MarkComplete() returns (r: Result<Task, Error>)
      requires Valid()
      modifies this`state, this`tasks
      ensures Valid()
      ensures match r
              case Err(e) => View() == old(View()) && Perform(old(View()), Complete) == Err(e)
              case Ok(t) => Perform(old(View()), Complete) == Ok(View()) && old(View()).active == Some(t.Data())
      ensures r.Err? <==> !HasRunning(old(View()))
      ensures r.Ok? ==>
                var q := old(View());
                View() == Queue(if q.pending == [] then QueueIdle else q.state, None, q.pending)
    {
      hide Good, Abstract, Perform, FirstWith;
      ghost var ts := Datas(tasks);
      var idx := IndexOf(TaskRunning);
      if idx < 0 {
        FailWithoutRunning(state, ts, 0);
        return Err(NoRunningTask);
      }
      var task := tasks[idx];
      ActiveIs(state, ts, idx, names.usedIDs, names.usedNames);
      CompleteStep(state, ts, idx, names.usedIDs, names.usedNames);
      DatasCut(tasks, idx);
      tasks := tasks[..idx] + tasks[idx + 1..];
      var positions := PendingIndices();
      if |positions| == 0 {
        state := QueueIdle;
      }
      Completed(old(View()), View());
      return Ok(task);
    }

    /** The first running task fails; of a valid queue that is its active one. */
    method MarkFailed(code: int) returns (r: Result<Task, Error>)
      requires Distinct(tasks)
      modifies this`state, tasks
      ensures tasks == old(tasks)
      ensures var ts := old(Datas(tasks));
              var i := FirstWith(ts, TaskRunning);
              if i < 0 then r == Err(NoRunningTask) && state == old(state) && Datas(tasks) == ts
              else r == Ok(tasks[i]) && state == QueueHalted && Datas(tasks) == Splice(ts, i, [Failed(ts[i], code)])
      ensures old(Valid()) ==>
                && Valid()
                && match r
                   case Err(e) => View() == old(View()) && Perform(old(View()), Fail(code)) == Err(e)
                   case Ok(t) => Perform(old(View()), Fail(code)) == Ok(View()) && View().active == Some(t.Data())
      ensures old(Valid()) && r.Ok? ==>
                var q := old(View());
                HasRunning(q) && View() == Queue(QueueHalted, Some(Failed(q.active.value, code)), q.pending)
    {
      hide Good, Abstract, Perform, FirstWith, Splice;
      ghost var ts, valid := Datas(tasks), Good(state, Datas(tasks), names.usedIDs, names.usedNames);
      var idx := IndexOf(TaskRunning);
      if idx < 0 {
        FailWithoutRunning(state, ts, code);
        return Err(NoRunningTask);
      }
      var task := tasks[idx];
      if valid {
        FailStep(state, ts, idx, code, names.usedIDs, names.usedNames);
      }
      task.status := TaskFailed;
      task.exitCode := Some(code);
      state := QueueHalted;
      OnlyChanged(tasks, idx, ts);
      if valid {
        ActiveIs(state, Datas(tasks), idx, names.usedIDs, names.usedNames);
        FailedNow(old(View()), View(), code);
      }
      return Ok(task);
    }

    method Retry() returns (r: Result<Task, Error>)
      requires Valid()
      modifies this`state, this`tasks, tasks
      ensures Valid()
      ensures match r
              case Err(e) => View() == old(View()) && Perform(old(View()), Op.Retry) == Err(e)
              case Ok(t) => Perform(old(View()), Op.Retry) == Ok(View())
                            && t in old(tasks) && old(View()).active == Some(old(t.Data()))
                            && t.Data() == old(t.Data()).(status := TaskPending, exitCode := None)
                            && View() == Queue(QueueRunning, None, [t.Data()] + old(View()).pending)
      ensures r.Err? <==> !HasFailed(old(View()))
    {
      hide Good, Abstract, Perform, FirstPending, FirstWith, HasFailed, InsertAt;
      ghost var ts := Datas(tasks);
      var idx := IndexOf(TaskFailed);
      if idx < 0 {
        RetryWithoutFailed(state, ts);
        return Err(NoFailedTask);
      }
      var task := tasks[idx];
      ActiveIs(state, ts, idx, names.usedIDs, names.usedNames);
      task.status := TaskPending;
      task.exitCode := None;
      OnlyChanged(tasks, idx, ts);
      ghost var k := MoveToFrontOfPending(idx);
      assert Splice(Splice(ts, idx, [task.Data()]), idx, []) == Splice(ts, idx, []);
      RetryStep(state, ts, idx, k, names.usedIDs, names.usedNames);
      state := QueueRunning;
      Retried(old(View()), View());
      return Ok(task);
    }

    /** Takes the task at `idx` out and reinserts it before the first other pending task. */
    method MoveToFrontOfPending(idx: nat) returns (ghost k: nat)
      requires idx < |tasks| && Distinct(tasks)
      modifies this`tasks
      ensures Distinct(tasks)
      ensures var rest := Splice(old(Datas(tasks)), idx, []);
              FirstPending(rest, k) && Datas(tasks) == InsertAt(rest, k, old(Datas(tasks))[idx])
    {
      var task := tasks[idx];
      DatasCut(tasks, idx);
      tasks := tasks[..idx] + tasks[idx + 1..];
      var insertAt := |tasks|;
      var first := IndexOf(TaskPending);
      if first >= 0 {
        insertAt := first;
      }
      k := insertAt;
      DatasInsert(tasks, insertAt, task);
      tasks := tasks[..insertAt] + [task] + tasks[insertAt..];
    }

    method Skip() returns (r: Result<Task, Error>)
      requires Valid()
      modifies this`state, this`tasks
      ensures Valid()
      ensures match r
              case Err(e) => View() == old(View()) && Perform(old(View()), Op.Skip) == Err(e)
              case Ok(t) => Perform(old(View()), Op.Skip) == Ok(View()) && old(View()).active == Some(t.Data())
                            && View() == Queue(QueueRunning, None, old(View()).pending)
      ensures r.Err? <==> !HasFailed(old(View()))
    {
      hide Good, Abstract, Perform, FirstWith;
      ghost var ts := Datas(tasks);
      var idx := IndexOf(TaskFailed);
      if idx < 0 {
        RetryWithoutFailed(state, ts);
        return Err(NoFailedTask);
      }
      var task := tasks[idx];
      ActiveIs(state, ts, idx, names.usedIDs, names.usedNames);
      SkipStep(state, ts, idx, names.usedIDs, names.usedNames);
      DatasCut(tasks, idx);
      tasks := tasks[..idx] + tasks[idx + 1..];
      state := QueueRunning;
      Skipped(old(View()), View());
      return Ok(task);
    }

    /** Resumes an idle queue; `empty` tells that there was nothing to resume. */
    method Resume() returns (r: Result<bool, Error>)
      requires Valid()
      modifies this`state
      ensures Valid()
      ensures match r
              case Err(e) => View() == old(View()) && Perform(old(View()), Op.Resume) == Err(e)
              case Ok(empty) =>
                && Perform(old(View()), Op.Resume) == Ok(View()) && (empty <==> View().pending == [])
                && View() == old(View()).(state := if empty then QueueIdle else QueueRunning)
      ensures r == Err(AlreadyRunning) <==> old(state).QueueRunning?
      ensures r.Ok? <==> !old(state).QueueRunning? && !HasFailed(old(View()))
    {
      hide Good, Perform, Select, HasFailed, FirstWith;
      ghost var ts := Datas(tasks);
      ResumeStep(state, ts, names.usedIDs, names.usedNames);
      if state == QueueRunning {
        return Err(AlreadyRunning);
      }
      var idx := IndexOf(TaskFailed);
      if idx >= 0 {
        FailedIsActive(state, ts, idx, names.usedIDs, names.usedNames);
        return Err(Halted);
      }
      RetryWithoutFailed(state, ts);
      var positions := PendingIndices();
      if |positions| == 0 {
        state := QueueIdle;
        return Ok(true);
      }
      state := QueueRunning;
      return Ok(false);
    }

    /** The index of the task an identifier names, IDs first, or -1. */
    method FindLocked(identifier: string) returns (idx: int)
      requires Valid()
      ensures -1 <= idx < |tasks|
      ensures Find(Everything(View()), identifier) == if idx < 0 then None else Some(Datas(tasks)[idx])
      ensures idx < 0 <==> forall t :: t in Datas(tasks) ==> t.id != identifier && t.name != identifier
    {
      hide Coherent, Select, Find;
      ghost var ts := Datas(tasks);
      LookupAgrees(state, ts, identifier);
      for i := 0 to |tasks|
        invariant forall j :: 0 <= j < i ==> ts[j].id != identifier
      {
        if tasks[i].id == identifier {
          assert Resolves(ts, identifier, ts[i]);
          return i;
        }
      }
      for i := 0 to |tasks|
        invariant forall j :: 0 <= j < i ==> ts[j].name != identifier
      {
        if tasks[i].name == identifier {
          assert Resolves(ts, identifier, ts[i]);
          return i;
        }
      }
      return -1;
    }

    /** findByNameLocked(name) != nil */
    method HasName(name: string) returns (taken: bool)
      requires Valid()
      ensures taken <==> name in Names(Everything(View()))
      ensures taken <==> exists t :: t in Datas(tasks) && t.name == name
    {
      hide Select, Coherent, Everything;
      ghost var ts := Datas(tasks);
      EverythingIs(state, ts);
      NamesOf(Everything(View()), name);
      for i := 0 to |tasks|
        invariant forall j :: 0 <= j < i ==> ts[j].name != name
      {
        if tasks[i].name == name {
          assert ts[i] in ts;
          return true;
        }
      }
      return false;
    }

    method DeleteTask(identifier: string) returns (r: Result<Task, Error>)
      requires Valid()
      modifies this`state, this`tasks
      ensures Valid()
      ensures match r
              case Err(e) => View() == old(View()) && Perform(old(View()), Delete(identifier)) == Err(e)
              case Ok(t) => Perform(old(View()), Delete(identifier)) == Ok(View())
                            && Find(Everything(old(View())), identifier) == Some(t.Data())
      ensures r == Err(TaskNotFound) <==> forall t :: t in old(Datas(tasks)) ==> t.id != identifier && t.name != identifier
      ensures r == Err(TaskIsRunning) <==>
                var found := Find(Everything(old(View())), identifier); found.Some? && found.value.status.TaskRunning?
      ensures r.Ok? ==>
                && r.value in old(tasks)
                && (exists i :: 0 <= i < |old(tasks)| && old(tasks)[i] == r.value && tasks == old(tasks[..i] + tasks[i + 1..]))
                && state == if r.value.status == TaskFailed then QueueIdle else old(state)
    {
      hide Good, Abstract, Perform, Find;
      ghost var ts := Datas(tasks);
      var idx := FindLocked(identifier);
      if idx < 0 {
        LookupMisses(state, ts, identifier);
        return Err(TaskNotFound);
      }
      var task := tasks[idx];
      DeleteStep(state, ts, idx, identifier, names.usedIDs, names.usedNames);
      if task.status == TaskRunning {
        return Err(TaskIsRunning);
      }
      DatasCut(tasks, idx);
      tasks := tasks[..idx] + tasks[idx + 1..];
      if task.status == TaskFailed {
        state := QueueIdle;
      }
      return Ok(task);
    }

    method UpdateTask(identifier: string, command: string, name: string) returns (r: Result<Task, Error>)
      requires Valid()
      modifies names`usedNames, tasks
      ensures Valid() && tasks == old(tasks)
      ensures match r
              case Err(e) => View() == old(View()) && Perform(old(View()), Update(identifier, command, name)) == Err(e)
              case Ok(t) =>
                && Perform(old(View()), Update(identifier, command, name)) == Ok(View())
                && t in tasks && Find(Everything(old(View())), identifier) == Some(old(t.Data()))
      // What changes: the fields given, of that task only.
      ensures r.Ok? ==>
                && r.value.command == (if IsBlank(command) then old(r.value.command) else command)
                && r.value.name == (if IsBlank(name) then old(r.value.name) else name)
                && r.value.status == old(r.value.status) && r.value.exitCode == old(r.value.exitCode)
                && forall i :: 0 <= i < |tasks| && tasks[i] != r.value ==> tasks[i].Data() == old(tasks[i].Data())
      // When it is refused, and why.
      ensures r == Err(TaskNotFound) <==>
                forall t :: t in old(Datas(tasks)) ==> t.id != identifier && t.name != identifier
      ensures r != Err(TaskNotFound) ==>
                var found := Find(Everything(old(View())), identifier);
                found.Some? && RightAnswer(old(Datas(tasks)), found.value, command, name, if r.Ok? then None else Some(r.error))
    {
      hide Good, Abstract, Perform, Find, IsBlank, ValidName, Everything, Names, RightAnswer, Updated;
      ghost var ts := Datas(tasks);
      var idx := FindLocked(identifier);
      if idx < 0 {
        LookupMisses(state, ts, identifier);
        return Err(TaskNotFound);
      }
      var task := tasks[idx];
      UpdateStep(state, ts, idx, identifier, command, name, names.usedIDs, names.usedNames);
      GoodHasOneActive(state, ts, names.usedIDs, names.usedNames);
      UpdatedAnswers(state, ts, ts[idx], command, name);
      var refused := RefuseUpdate(idx, command, name);
      if refused.Some? {
        return Err(refused.value);
      }
      AlreadyRecorded(state, ts, idx, names.usedIDs, names.usedNames);
      ghost var used := names.usedNames;
      SetFields(idx, command, name);
      assert names.usedNames == used + {task.name};
      UpdatedIs(Abstract(state, ts), ts[idx], command, name);
      return Ok(task);
    }

    /** The first half of UpdateTask: the error it reports for the task found. */
    method RefuseUpdate(idx: nat, command: string, name: string) returns (e: Option<Error>)
      requires Valid() && idx < |tasks|
      ensures var u := Updated(View(), Datas(tasks)[idx], command, name);
              e == (if u.Err? then Some(u.error) else None) && e != Some(TaskNotFound)
    {
      hide Good, Abstract, IsBlank, ValidName, Everything, Names;
      var task := tasks[idx];
      if task.status == TaskRunning {
        return Some(TaskIsRunning);
      }
      if task.status == TaskFailed {
        return Some(FailedImmutable);
      }
      var newCommand, newName := !IsBlank(command), !IsBlank(name);
      if !newCommand && !newName {
        return Some(NoUpdateFields);
      }
      if newName && name != task.name {
        if !ValidName(name) {
          return Some(InvalidName);
        }
        var taken := HasName(name);
        if taken {
          return Some(NameTaken);
        }
      }
      return None;
    }

    /** The second half of UpdateTask: assigns the fields that are not blank. */
    method SetFields(idx: nat, command: string, name: string)
      requires idx < |tasks| && Distinct(tasks)
      modifies names`usedNames, tasks[idx]
      ensures var was, now := old(Datas(tasks))[idx], tasks[idx].Data();
              && now == was.(command := now.command, name := now.name)
              && now.command == (if IsBlank(command) then was.command else command)
              && now.name == (if IsBlank(name) then was.name else name)
              && Datas(tasks) == Splice(old(Datas(tasks)), idx, [now])
              && names.usedNames == old(names.usedNames) + if IsBlank(name) then {} else {name}
    {
      hide IsBlank;
      ghost var ts := Datas(tasks);
      var task := tasks[idx];
      var newCommand, newName := !IsBlank(command), !IsBlank(name);
      if newCommand {
        task.command := command;
      }
      if newName {
        var _ := names.ReserveName(name);
        task.name := name;
      }
      OnlyChanged(tasks, idx, ts);
    }

    method AddTask(command: string, name: string, cwd: string, position: Option<int>,
                   now: int, idDraws: seq<string>, nameDraws: seq<string>)
      returns (r: Result<Task, Error>)
      requires Valid()
      requires exists i :: 0 <= i < |idDraws| && idDraws[i] !in names.usedIDs
      requires exists i :: 0 <= i < |nameDraws| && nameDraws[i] !in names.usedNames
      requires forall id :: id in idDraws ==> id != ""
      requires forall n :: n in nameDraws ==> ValidName(n)
      modifies this`state, this`tasks, names
      ensures Valid()
      ensures match r
              case Err(e) => View() == old(View()) && AddError(old(View()), command, name, position) == Some(e)
              case Ok(t) =>
                && fresh(t) && Perform(old(View()), Add(t.Data(), position)) == Ok(View())
                && t.id in idDraws && t.id !in old(names.usedIDs)
                && (if name != "" then t.name == name else t.name in nameDraws && t.name !in old(names.usedNames))
                && t.Data() == TaskData(t.id, t.name, command, cwd, TaskPending, None, now)
                && InsertedAt(old(View()), t.Data(), position, View())
      ensures var early := IsBlank(command) || (position.Some? && position.value < 0);
              && (r == Err(EmptyCommand) <==> IsBlank(command))
              && (r == Err(InvalidPosition) <==> early && !IsBlank(command))
              && (r == Err(InvalidName) <==> !early && name != "" && !ValidName(name))
              && (r == Err(NameTaken) <==>
                    !early && name != "" && ValidName(name) && exists t :: t in old(Datas(tasks)) && t.name == name)
              && (r.Ok? || r.error in {EmptyCommand, InvalidPosition, InvalidName, NameTaken})
    {
      hide Coherent, Perform, Select, IsBlank, Everything, Names, Abstract, InsertedAt;
      if IsBlank(command) {
        return Err(EmptyCommand);
      }
      if position.Some? && position.value < 0 {
        return Err(InvalidPosition);
      }
      var resolvedName := name;
      if resolvedName != "" {
        if !ValidName(resolvedName) {
          return Err(InvalidName);
        }
        var taken := HasName(resolvedName);
        if taken {
          return Err(NameTaken);
        }
        var _ := names.ReserveName(resolvedName);
      } else {
        IdsRecorded(state, Datas(tasks), names.usedIDs, names.usedNames);
        resolvedName := names.GenerateName(nameDraws);
      }
      r := AddNew(command, resolvedName, cwd, position, now, idDraws);
    }

    /** The second half of AddTask: command, name and position have been accepted. */
    method AddNew(command: string, name: string, cwd: string, position: Option<int>,
                  now: int, idDraws: seq<string>)
      returns (r: Result<Task, Error>)
      requires Valid() && name in names.usedNames && name != ""
      requires AddError(View(), command, name, position).None?
      requires exists i :: 0 <= i < |idDraws| && idDraws[i] !in names.usedIDs
      requires forall id :: id in idDraws ==> id != ""
      modifies this`state, this`tasks, names`usedIDs
      ensures Valid() && r.Ok?
      ensures var t := r.value;
              && fresh(t) && Perform(old(View()), Add(t.Data(), position)) == Ok(View())
              && t.id in idDraws && t.id !in old(names.usedIDs)
              && t.Data() == TaskData(t.id, name, command, cwd, TaskPending, None, now)
              && InsertedAt(old(View()), t.Data(), position, View())
    {
      hide InsertedAt, Good, Abstract, Perform, AddError, Select, Everything, IsBlank, ValidName, Names, Distinct, InsertAt;
      AddErrorNone(View(), command, name, position);
      ghost var ts := Datas(tasks);
      var id := names.GenerateID(idDraws);
      var task := new Task(id, name, command, cwd, now);
      var positions := PendingIndices();
      var insertAt := |tasks|;
      if position.Some? && position.value < |positions| {
        insertAt := positions[position.value];
      }
      AddStep(state, ts, insertAt, task.Data(), position, old(names.usedIDs), names.usedNames);
      DatasInsert(tasks, insertAt, task);
      tasks := tasks[..insertAt] + [task] + tasks[insertAt..];
      if state == QueueIdle {
        state := QueueRunning;
      }
      Added(old(View()), task.Data(), position, View());
      return Ok(task);
    }

    /** The tasks in display order: running, pending in execution order, failed. No task is lost. */
    method ListTasks() returns (r: seq<Task>)
      requires Valid()
      ensures Datas(r) == List(View())
      ensures multiset(Datas(r)) == multiset(Datas(tasks))
      ensures forall i, j :: 0 <= i < j < |r| ==> r[i].status == TaskRunning || r[j].status != TaskRunning
      ensures forall i :: 0 <= i < |r| - 1 ==> r[i].status != TaskFailed
      ensures Select(Datas(r), true) == Select(Datas(tasks), true)
    {
      hide Coherent, Select, Everything, List;
      var running: Task?, failed: Task? := null, null;
      var pending: seq<Task> := [];
      ghost var ts := Datas(tasks);
      SelectNone();
      for i := 0 to |tasks|
        invariant Datas(pending) == Select(ts[..i], true)
        invariant IsActive(Select(ts[..i], false), running, failed)
      {
        assert ts[..i + 1] == ts[..i] + [ts[i]];
        SelectConcat(ts[..i], [ts[i]], true);
        SelectConcat(ts[..i], [ts[i]], false);
        SelectOne(ts[i], true);
        SelectOne(ts[i], false);
        match tasks[i].status
        case TaskRunning =>
          AroundActive(ts, i);
          running := tasks[i];
        case TaskFailed =>
          AroundActive(ts, i);
          failed := tasks[i];
        case TaskPending =>
          pending := pending + [tasks[i]];
      }
      assert ts[..|tasks|] == ts;
      r := [];
      if running != null {
        r := r + [running];
      }
      r := r + pending;
      if failed != null {
        r := r + [failed];
      }
      Displayed(state, ts, running, failed, pending, r);
      DisplayOrder(state, ts, names.usedIDs, names.usedNames);
      assert forall i :: 0 <= i < |r| ==> r[i].status == Datas(r)[i].status;
    }
  }

  lemma RunningIsActive(state: QueueState, ts: seq<TaskData>, i: nat, ids: set<string>, names: set<string>)
    requires Good(state, ts, ids, names) && i < |ts| && ts[i].status.TaskRunning?
    ensures HasRunning(Abstract(state, ts))
  {
    ActiveIs(state, ts, i, ids, names);
  }

  lemma FailedIsActive(state: QueueState, ts: seq<TaskData>, i: nat, ids: set<string>, names: set<string>)
    requires Good(state, ts, ids, names) && i < |ts| && ts[i].status.TaskFailed?
    ensures HasFailed(Abstract(state, ts))
  {
    ActiveIs(state, ts, i, ids, names);
  }

  lemma AlreadyRecorded(state: QueueState, ts: seq<TaskData>, i: nat, ids: set<string>, names: set<string>)
    requires Good(state, ts, ids, names) && i < |ts|
    ensures ts[i].name in names
  {
    assert ts[i] in ts;
  }

  lemma AddErrorNone(q: Queue, command: string, name: string, position: Option<int>)
    requires AddError(q, command, name, position).None?
    ensures position.Some? ==> position.value >= 0
  {
  }

  /** What List has seen of the active task. */
  ghost predicate IsActive(active: seq<TaskData>, running: Task?, failed: Task?)
    reads running, failed
  {
    if active == [] then running == null && failed == null
    else if active[0].status.TaskRunning? then running != null && running.Data() == active[0] && failed == null
    else active[0].status.TaskFailed? && failed != null && failed.Data() == active[0] && running == null
  }

  lemma Displayed(state: QueueState, ts: seq<TaskData>, running: Task?, failed: Task?, pending: seq<Task>, r: seq<Task>)
    requires OneActive(ts) && IsActive(Select(ts, false), running, failed) && Datas(pending) == Select(ts, true)
    requires r == (if running != null then [running] else []) + pending + (if failed != null then [failed] else [])
    ensures Datas(r) == List(Abstract(state, ts))
    ensures multiset(Datas(r)) == multiset(ts)
  {
    hide Select, Everything, OneActive;
    ListIsEverything(Abstract(state, ts));
    EverythingIs(state, ts);
  }

  lemma DisplayOrder(state: QueueState, ts: seq<TaskData>, ids: set<string>, names: set<string>)
    requires Good(state, ts, ids, names)
    ensures var r := List(Abstract(state, ts));
            && (forall i, j :: 0 <= i < j < |r| ==> r[i].status == TaskRunning || r[j].status != TaskRunning)
            && (forall i :: 0 <= i < |r| - 1 ==> r[i].status != TaskFailed)
            && Select(r, true) == Select(ts, true)
  {
    hide Identified, WellFormed, Recorded, OneActive, Select;
    var q := Abstract(state, ts);
    PendingSelected(q.pending);
    if q.active.Some? {
      SelectOne(q.active.value, true);
      SelectConcat([q.active.value], q.pending, true);
      SelectConcat(q.pending, [q.active.value], true);
      assert [] + q.pending == q.pending && q.pending + [] == q.pending;
    }
  }

  lemma {:induction false} PendingSelected(ts: seq<TaskData>)
    requires AllPending(ts)
    ensures Select(ts, true) == ts
  {
    if ts != [] {
      PendingSelected(ts[1..]);
    }
  }

  lemma SelectNone()
    ensures Select([], true) == [] && Select([], false) == []
  {
  }

  lemma NamesOf(ts: seq<TaskData>, name: string)
    ensures name in Names(ts) <==> exists t :: t in ts && t.name == name
  {
    if name in Names(ts) {
      var i :| 0 <= i < |ts| && Names(ts)[i] == name;
      assert ts[i] in ts;
    }
    if t :| t in ts && t.name == name {
      var i :| 0 <= i < |ts| && ts[i] == t;
      assert Names(ts)[i] == name;
    }
  }

  lemma {:induction false} SelectMember(ts: seq<TaskData>, pending: bool)
    requires Select(ts, pending) != []
    ensures exists i :: 0 <= i < |ts| && ts[i] == Select(ts, pending)[0] && ts[i].status.TaskPending? == pending
  {
    if ts[0].status.TaskPending? == pending {
      assert ts[0] == Select(ts, pending)[0];
    } else {
      SelectMember(ts[1..], pending);
      var i :| 0 <= i < |ts[1..]| && ts[1..][i] == Select(ts, pending)[0] && ts[1..][i].status.TaskPending? == pending;
      assert ts[i + 1] == ts[1..][i];
    }
  }
}
