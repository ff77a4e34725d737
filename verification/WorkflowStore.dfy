/** The in-memory workflow store of remote/store/workflow.go. */
module WorkflowStores {
  import opened Common

  datatype Status = Queued | Running | Completed | Failed | Cancelled

  datatype Workflow = Workflow(
    id: string, project: string, pipeline: string, variables: map<string, string>,
    status: Status, createdAt: int, startedAt: Option<int>, completedAt: Option<int>,
    error: string, exitCode: Option<int>, notBefore: Option<int>,
    containerID: string, cancelRequested: bool)

  const MAX_WORKFLOWS_PER_PROJECT: nat := 20

  predicate IsTerminal(s: Status) {
    s == Completed || s == Failed || s == Cancelled
  }

  // ---------------------------------------------------------------------
  // One project's workflows, in creation order
  // ---------------------------------------------------------------------

  /** In rate-limit backoff at time `now`. */
  predicate InBackoff(w: Workflow, now: int) {
    w.notBefore.Some? && now < w.notBefore.value
  }

  predicate Eligible(w: Workflow, now: int) {
    w.status.Queued? && !InBackoff(w, now)
  }

  predicate QueuedWaiting(w: Workflow, now: int) {
    w.status.Queued? && InBackoff(w, now)
  }

  predicate HasStatus(ws: seq<Workflow>, s: Status) {
    exists i :: 0 <= i < |ws| && ws[i].status == s
  }

  predicate HasQueuedWaiting(ws: seq<Workflow>, now: int) {
    exists i :: 0 <= i < |ws| && QueuedWaiting(ws[i], now)
  }

  /** The oldest eligible workflow. */
  ghost predicate IsNext(ws: seq<Workflow>, now: int, r: Option<Workflow>) {
    match r
    case None => forall i :: 0 <= i < |ws| ==> !Eligible(ws[i], now)
    case Some(w) =>
      exists i :: 0 <= i < |ws| && ws[i] == w && Eligible(w, now) && forall j :: 0 <= j < i ==> !Eligible(ws[j], now)
  }

  /** Drops the first `n` terminal workflows, or all of them if there are fewer. */
  function DropTerminal(ws: seq<Workflow>, n: nat): seq<Workflow>
    decreases |ws|
  {
    if ws == [] || n == 0 then ws
    else if IsTerminal(ws[0].status) then DropTerminal(ws[1..], n - 1)
    else [ws[0]] + DropTerminal(ws[1..], n)
  }

  function Evicted(ws: seq<Workflow>): seq<Workflow> {
    if |ws| <= MAX_WORKFLOWS_PER_PROJECT then ws else DropTerminal(ws, |ws| - MAX_WORKFLOWS_PER_PROJECT)
  }

  function NonTerminal(ws: seq<Workflow>): seq<Workflow> {
    if ws == [] then []
    else (if IsTerminal(ws[0].status) then [] else [ws[0]]) + NonTerminal(ws[1..])
  }

  lemma {:induction false} NonTerminalShrinks(ws: seq<Workflow>)
    ensures |NonTerminal(ws)| <= |ws|
    ensures forall w :: w in NonTerminal(ws) ==> w in ws && !IsTerminal(w.status)
    ensures forall w :: w in ws && !IsTerminal(w.status) ==> w in NonTerminal(ws)
  {
    if ws != [] {
      NonTerminalShrinks(ws[1..]);
      assert ws == [ws[0]] + ws[1..];
    }
  }

  lemma {:induction false} DropTerminalCuts(ws: seq<Workflow>, n: nat) returns (k: nat)
    ensures k <= |ws| && DropTerminal(ws, n) == NonTerminal(ws[..k]) + ws[k..]
    ensures |ws| - |DropTerminal(ws, n)| <= n
    ensures |ws| - |DropTerminal(ws, n)| == n || k == |ws|
    decreases |ws|
  {
    if ws == [] || n == 0 {
      k := 0;
    } else {
      k := DropTerminalCuts(ws[1..], if IsTerminal(ws[0].status) then n - 1 else n);
      k := k + 1;
      assert ws[..k][0] == ws[0] && ws[..k][1..] == ws[1..][..k - 1];
      assert ws[k..] == ws[1..][k - 1..];
      assert [ws[0]] + (NonTerminal(ws[1..][..k - 1]) + ws[k..]) == ([ws[0]] + NonTerminal(ws[1..][..k - 1])) + ws[k..];
    }
  }

  /**
   Eviction removes exactly the terminal workflows of some prefix, the
   shortest one that brings the project down to the cap: what remains is a
   subsequence that keeps every non-terminal workflow, the oldest terminal
   ones go first, and at most 20 remain unless nothing terminal does.
   */
  lemma EvictionDropsOldestTerminal(ws: seq<Workflow>) returns (k: nat)
    ensures k <= |ws| && Evicted(ws) == NonTerminal(ws[..k]) + ws[k..]
    ensures forall w :: w in ws && !IsTerminal(w.status) ==> w in Evicted(ws)
    ensures |ws| <= 20 ==> Evicted(ws) == ws
    ensures |ws| > 20 ==> |Evicted(ws)| >= 20
    ensures |Evicted(ws)| <= 20 || forall w :: w in Evicted(ws) ==> !IsTerminal(w.status)
  {
    if |ws| <= MAX_WORKFLOWS_PER_PROJECT {
      k := 0;
    } else {
      k := DropTerminalCuts(ws, |ws| - MAX_WORKFLOWS_PER_PROJECT);
      assert k == |ws| ==> ws[..k] == ws && ws[k..] == [];
    }
    NonTerminalShrinks(ws[..k]);
    assert ws == ws[..k] + ws[k..];
  }

  // ---------------------------------------------------------------------
  // The store
  // ---------------------------------------------------------------------

  class WorkflowStore {
    var workflows: map<string, Workflow>
    var byProject: map<string, seq<string>>  // project -> workflow IDs in creation order

    /** The index and the map agree exactly, and no workflow is indexed twice. */
    ghost predicate Valid()
      reads this
    {
      Agree(workflows, byProject)
    }

    /** s.byProject[project], nil when absent. */
    function Index(project: string): seq<string>
      reads this
    {
      Ids(byProject, project)
    }

    ghost function View(project: string): seq<Workflow>
      reads this
      requires Valid()
    {
      Listed(workflows, Ids(byProject, project))
    }

    constructor ()
      ensures Valid() && workflows == map[] && byProject == map[]
    {
      workflows, byProject := map[], map[];
    }

    /** The store stays consistent exactly when the ID is new. */
    method Add(w: Workflow)
      requires Valid()
      modifies this
      ensures Valid() <==> w.id !in old(workflows)
      ensures Valid() ==>
                && View(w.project) == old(View(w.project)) + [w]
                && forall p :: p != w.project ==> View(p) == old(View(p))
    {
      ghost var ws, index := workflows, byProject;
      workflows := workflows[w.id := w];
      byProject := byProject[w.project := Index(w.project) + [w.id]];
      AddAgrees(ws, index, w);
    }

    method Get(id: string) returns (w: Option<Workflow>)
      ensures w == if id in workflows then Some(workflows[id]) else None
    {
      return if id in workflows then Some(workflows[id]) else None;
    }

    /** Applies `f`, which keeps the ID and the project, to the workflow of that ID. */
    method Update(id: string, f: Workflow -> Workflow) returns (found: bool)
      requires Valid()
      requires forall w :: f(w).id == w.id && f(w).project == w.project
      modifies this`workflows
      ensures Valid() && workflows.Keys == old(workflows.Keys)
      ensures found <==> id in old(workflows)
      ensures forall p :: |View(p)| == |old(View(p))|
      ensures forall p, i :: 0 <= i < |View(p)| ==>
                View(p)[i] == if old(View(p))[i].id == id then f(old(View(p))[i]) else old(View(p))[i]
    {
      if id !in workflows {
        return false;
      }
      workflows := workflows[id := f(workflows[id])];
      return true;
    }

    method Remove(id: string)
      requires Valid()
      modifies this
      ensures Valid() && workflows == old(workflows) - {id}
      ensures forall p :: View(p) == WithoutID(old(View(p)), id)
    {
      ghost var all, index := workflows, byProject;
      if id !in workflows {
        forall p
          ensures View(p) == WithoutID(View(p), id)
        {
          NothingToRemove(View(p), id);
        }
        assert workflows == old(workflows) - {id};
        return;
      }
      var w := workflows[id];
      workflows := workflows - {id};
      var ids := Index(w.project);
      for i := 0 to |ids|
        invariant forall j :: 0 <= j < i ==> ids[j] != id
        invariant workflows == all - {id} && byProject == index
      {
        if ids[i] == id {
          byProject := byProject[w.project := ids[..i] + ids[i + 1..]];
          RemoveAgrees(all, index, id, i);
          return;
        }
      }
      assert false;
    }

    method NextQueued(project: string, now: int) returns (r: Option<Workflow>)
      requires Valid()
      ensures IsNext(View(project), now, r)
    {
      var ids := Index(project);
      for i := 0 to |ids|
        invariant forall j :: 0 <= j < i ==> !Eligible(View(project)[j], now)
      {
        assert View(project)[i] == workflows[ids[i]];
        var w := workflows[ids[i]];
        if w.status == Queued {
          if w.notBefore.Some? && now < w.notBefore.value {
            continue;
          }
          return Some(w);
        }
      }
      return None;
    }

    /** HasRunning and HasFailed. */
    method Has(project: string, status: Status) returns (r: bool)
      requires Valid()
      ensures r <==> HasStatus(View(project), status)
    {
      var ids := Index(project);
      for i := 0 to |ids|
        invariant forall j :: 0 <= j < i ==> View(project)[j].status != status
      {
        assert View(project)[i] == workflows[ids[i]];
        if workflows[ids[i]].status == status {
          return true;
        }
      }
      return false;
    }

    method HasWaiting(project: string, now: int) returns (r: bool)
      requires Valid()
      ensures r <==> HasQueuedWaiting(View(project), now)
    {
      var ids := Index(project);
      for i := 0 to |ids|
        invariant forall j :: 0 <= j < i ==> !QueuedWaiting(View(project)[j], now)
      {
        assert View(project)[i] == workflows[ids[i]];
        var w := workflows[ids[i]];
        if w.status == Queued && w.notBefore.Some? && now < w.notBefore.value {
          return true;
        }
      }
      return false;
    }

    method Evict(project: string)
      requires Valid()
      modifies this
      ensures Valid()
      ensures View(project) == Evicted(old(View(project)))
      ensures forall p :: p != project ==> View(p) == old(View(p))
    {
      var ids := Index(project);
      if |ids| <= MAX_WORKFLOWS_PER_PROJECT {
        return;
      }
      hide KeptSoFar, Agree, DropTerminal, Listed, AllIn;
      ghost var all, index := workflows, byProject;
      StartEvict(all, index, project);
      var kept := Keep(ids, |ids| - MAX_WORKFLOWS_PER_PROJECT);
      EvictAgrees(all, index, project, workflows, kept);
      byProject := byProject[project := kept];
    }

    /** Evict's loop: deletes the first `n` terminal workflows among `ids` and returns the other IDs. */
    method Keep(ids: seq<string>, n: nat) returns (kept: seq<string>)
      requires AllIn(workflows, ids) && Distinct(ids)
      modifies this`workflows
      ensures KeptSoFar(old(workflows), workflows, ids, |ids|, kept) && AllIn(old(workflows), kept)
      ensures Listed(old(workflows), kept) == DropTerminal(Listed(old(workflows), ids), n)
    {
      hide KeptSoFar, DropTerminal, Listed, AllIn;
      ghost var all := workflows;
      ghost var ws := Listed(all, ids);
      KeepNone(all, ids, n);
      var toRemove := n;
      kept := [];
      for i := 0 to |ids|
        invariant 0 <= toRemove
        invariant KeptSoFar(all, workflows, ids, i, kept) && AllIn(all, kept)
        invariant Listed(all, kept) + DropTerminal(ws[i..], toRemove) == DropTerminal(ws, n)
      {
        EvictStep(all, workflows, ids, i, kept, toRemove);
        if toRemove > 0 {
          if ids[i] in workflows && IsTerminal(workflows[ids[i]].status) {
            workflows := workflows - {ids[i]};
            toRemove := toRemove - 1;
            continue;
          }
        }
        kept := kept + [ids[i]];
      }
      assert ws[|ids|..] == [];
      DropNone(toRemove);
    }
  }

  // ---------------------------------------------------------------------
  // Agreement of the index and the map
  // ---------------------------------------------------------------------

  function Ids(index: map<string, seq<string>>, project: string): seq<string> {
    if project in index then index[project] else []
  }

  ghost predicate Agree(all: map<string, Workflow>, index: map<string, seq<string>>) {
    && (forall p :: Lists(all, Ids(index, p), p))
    && (forall id :: id in all ==> all[id].id == id)
  }

  /** `ids` are the project's workflows, each once. */
  ghost predicate Lists(all: map<string, Workflow>, ids: seq<string>, project: string) {
    Distinct(ids) && forall id :: id in ids <==> id in all && all[id].project == project
  }

  ghost predicate AllIn(all: map<string, Workflow>, ids: seq<string>) {
    forall i :: 0 <= i < |ids| ==> ids[i] in all
  }

  ghost function Listed(all: map<string, Workflow>, ids: seq<string>): (r: seq<Workflow>)
    requires AllIn(all, ids)
    ensures |r| == |ids|
  {
    seq(|ids|, i requires 0 <= i < |ids| => all[ids[i]])
  }

  function WithoutID(ws: seq<Workflow>, id: string): seq<Workflow> {
    if ws == [] then []
    else if ws[0].id == id then ws[1..]
    else [ws[0]] + WithoutID(ws[1..], id)
  }

  lemma {:induction false} NothingToRemove(ws: seq<Workflow>, id: string)
    requires forall i :: 0 <= i < |ws| ==> ws[i].id != id
    ensures WithoutID(ws, id) == ws
  {
    if ws != [] {
      NothingToRemove(ws[1..], id);
    }
  }

  lemma {:induction false} RemovesAt(ws: seq<Workflow>, id: string, i: nat)
    requires i < |ws| && ws[i].id == id && forall j :: 0 <= j < i ==> ws[j].id != id
    ensures WithoutID(ws, id) == ws[..i] + ws[i + 1..]
  {
    if i > 0 {
      RemovesAt(ws[1..], id, i - 1);
      assert ws[..i] == [ws[0]] + ws[1..][..i - 1];
    }
  }

  lemma AddAgrees(all: map<string, Workflow>, index: map<string, seq<string>>, w: Workflow)
    requires Agree(all, index)
    ensures var all', index' := all[w.id := w], index[w.project := Ids(index, w.project) + [w.id]];
            && (Agree(all', index') <==> w.id !in all)
            && (w.id !in all ==>
                  forall p ::
                    && AllIn(all, Ids(index, p)) && AllIn(all', Ids(index', p))
                    && Listed(all', Ids(index', p)) == Listed(all, Ids(index, p)) + if p == w.project then [w] else [])
  {
    var all', index' := all[w.id := w], index[w.project := Ids(index, w.project) + [w.id]];
    if w.id in all {
      var q := all[w.id].project;
      assert Lists(all, Ids(index, q), q);
      var ids := Ids(index, q);
      var i :| 0 <= i < |ids| && ids[i] == w.id;
      if q == w.project {
        assert Ids(index', q) == ids + [w.id] && (ids + [w.id])[i] == (ids + [w.id])[|ids|];
      } else {
        assert w.id in Ids(index', q) && all'[w.id].project != q;
      }
      assert !Lists(all', Ids(index', q), q);
    } else {
      forall p
        ensures Lists(all', Ids(index', p), p) && AllIn(all, Ids(index, p))
        ensures AllIn(all', Ids(index', p))
        ensures Listed(all', Ids(index', p)) == Listed(all, Ids(index, p)) + if p == w.project then [w] else []
      {
        AddLists(all, Ids(index, p), p, w);
      }
    }
  }

  lemma AddLists(all: map<string, Workflow>, ids: seq<string>, p: string, w: Workflow)
    requires Lists(all, ids, p) && w.id !in all
    ensures var all', ids' := all[w.id := w], if p == w.project then ids + [w.id] else ids;
            && Lists(all', ids', p) && AllIn(all, ids) && AllIn(all', ids')
            && Listed(all', ids') == Listed(all, ids) + if p == w.project then [w] else []
  {
  }

  lemma RemoveAgrees(all: map<string, Workflow>, index: map<string, seq<string>>, id: string, i: nat)
    requires Agree(all, index) && id in all
    requires var ids := Ids(index, all[id].project);
             i < |ids| && ids[i] == id && forall j :: 0 <= j < i ==> ids[j] != id
    ensures var p := all[id].project;
            var all', index' := all - {id}, index[p := Ids(index, p)[..i] + Ids(index, p)[i + 1..]];
            && Agree(all', index')
            && forall q ::
                 && AllIn(all, Ids(index, q)) && AllIn(all', Ids(index', q))
                 && Listed(all', Ids(index', q)) == WithoutID(Listed(all, Ids(index, q)), id)
  {
    hide Lists, Listed, AllIn, WithoutID;
    var p := all[id].project;
    var all', index' := all - {id}, index[p := Ids(index, p)[..i] + Ids(index, p)[i + 1..]];
    forall q
      ensures Lists(all', Ids(index', q), q)
      ensures AllIn(all, Ids(index, q)) && AllIn(all', Ids(index', q))
      ensures Listed(all', Ids(index', q)) == WithoutID(Listed(all, Ids(index, q)), id)
    {
      RemoveFrom(all, Ids(index, q), q, id, i);
    }
  }

  lemma RemoveFrom(all: map<string, Workflow>, ids: seq<string>, p: string, id: string, i: nat)
    requires Lists(all, ids, p) && id in all && forall x :: x in all ==> all[x].id == x
    requires all[id].project == p ==> i < |ids| && ids[i] == id
    ensures var all', ids' := all - {id}, if all[id].project == p then ids[..i] + ids[i + 1..] else ids;
            && Lists(all', ids', p) && AllIn(all, ids) && AllIn(all', ids')
            && Listed(all', ids') == WithoutID(Listed(all, ids), id)
  {
    hide WithoutID;
    if all[id].project == p {
      RemoveLists(all, ids, p, i);
      RemovesAt(Listed(all, ids), id, i);
    } else {
      NothingToRemove(Listed(all, ids), id);
    }
  }

  lemma RemoveLists(all: map<string, Workflow>, ids: seq<string>, p: string, i: nat)
    requires Lists(all, ids, p) && i < |ids|
    ensures var all', ids' := all - {ids[i]}, ids[..i] + ids[i + 1..];
            && Lists(all', ids', p) && AllIn(all, ids) && AllIn(all', ids')
            && Listed(all', ids') == Listed(all, ids)[..i] + Listed(all, ids)[i + 1..]
  {
  }

  /** After `i` IDs of a project: those kept are still in the map, the others are not, and nothing else changed. */
  ghost predicate KeptSoFar(all: map<string, Workflow>, now: map<string, Workflow>, ids: seq<string>, i: nat,
                            kept: seq<string>)
    requires i <= |ids|
  {
    && Distinct(kept)
    && (forall j :: 0 <= j < |kept| ==> kept[j] in ids[..i])
    && (forall id :: id in now <==> id in all && (id in ids[..i] ==> id in kept))
    && (forall id :: id in now ==> now[id] == all[id])
  }

  lemma DropNone(n: nat)
    ensures DropTerminal([], n) == []
  {
  }

  lemma StartEvict(all: map<string, Workflow>, index: map<string, seq<string>>, project: string)
    requires Agree(all, index)
    ensures AllIn(all, Ids(index, project)) && Distinct(Ids(index, project))
  {
    assert Lists(all, Ids(index, project), project);
  }

  lemma KeepNone(all: map<string, Workflow>, ids: seq<string>, n: nat)
    requires AllIn(all, ids)
    ensures KeptSoFar(all, all, ids, 0, []) && AllIn(all, [])
    ensures Listed(all, []) + DropTerminal(Listed(all, ids)[0..], n) == DropTerminal(Listed(all, ids), n)
  {
    assert Listed(all, ids)[0..] == Listed(all, ids);
  }

  /** One round of Evict's loop: the ID at `i` is dropped or kept. */
  lemma EvictStep(all: map<string, Workflow>, now: map<string, Workflow>, ids: seq<string>, i: nat,
                  kept: seq<string>, n: nat)
    requires i < |ids| && AllIn(all, ids) && Distinct(ids) && KeptSoFar(all, now, ids, i, kept) && AllIn(all, kept)
    ensures ids[i] in now && now[ids[i]] == all[ids[i]]
    ensures var ws := Listed(all, ids);
            if n > 0 && IsTerminal(all[ids[i]].status) then
              && KeptSoFar(all, now - {ids[i]}, ids, i + 1, kept)
              && DropTerminal(ws[i..], n) == DropTerminal(ws[i + 1..], n - 1)
            else
              && KeptSoFar(all, now, ids, i + 1, kept + [ids[i]]) && AllIn(all, kept + [ids[i]])
              && Listed(all, kept) + DropTerminal(ws[i..], n) == Listed(all, kept + [ids[i]]) + DropTerminal(ws[i + 1..], n)
  {
    hide KeptSoFar, DropTerminal;
    var ws := Listed(all, ids);
    assert ws[i..][0] == all[ids[i]] && ws[i..][1..] == ws[i + 1..];
    assert ids[i] !in ids[..i];
    KeptStep(all, now, ids, i, kept);
    DropStep(ws[i..], n);
    if !(n > 0 && IsTerminal(all[ids[i]].status)) {
      assert Listed(all, kept + [ids[i]]) == Listed(all, kept) + [ws[i]];
      assert Listed(all, kept) + ([ws[i]] + DropTerminal(ws[i + 1..], n)) == (Listed(all, kept) + [ws[i]]) + DropTerminal(ws[i + 1..], n);
    }
  }

  lemma DropStep(ws: seq<Workflow>, n: nat)
    requires ws != []
    ensures DropTerminal(ws, n) ==
            if n > 0 && IsTerminal(ws[0].status) then DropTerminal(ws[1..], n - 1) else [ws[0]] + DropTerminal(ws[1..], n)
  {
  }

  lemma KeptStep(all: map<string, Workflow>, now: map<string, Workflow>, ids: seq<string>, i: nat, kept: seq<string>)
    requires i < |ids| && ids[i] in all && ids[i] !in ids[..i] && KeptSoFar(all, now, ids, i, kept)
    ensures ids[i] in now && now[ids[i]] == all[ids[i]]
    ensures KeptSoFar(all, now - {ids[i]}, ids, i + 1, kept)
    ensures KeptSoFar(all, now, ids, i + 1, kept + [ids[i]])
  {
    assert ids[..i + 1] == ids[..i] + [ids[i]];
  }

  lemma EvictAgrees(all: map<string, Workflow>, index: map<string, seq<string>>, project: string,
                    now: map<string, Workflow>, kept: seq<string>)
    requires Agree(all, index)
    requires KeptSoFar(all, now, Ids(index, project), |Ids(index, project)|, kept)
    ensures Agree(now, index[project := kept])
    ensures AllIn(now, kept) && Listed(now, kept) == Listed(all, kept)
    ensures forall p :: p != project ==>
              && AllIn(now, Ids(index, p)) && AllIn(all, Ids(index, p))
              && Listed(now, Ids(index, p)) == Listed(all, Ids(index, p))
  {
    var ids, index' := Ids(index, project), index[project := kept];
    assert ids[..|ids|] == ids && Lists(all, ids, project);
    forall p
      ensures Lists(now, Ids(index', p), p)
      ensures p != project ==>
                && AllIn(now, Ids(index, p)) && AllIn(all, Ids(index, p))
                && Listed(now, Ids(index, p)) == Listed(all, Ids(index, p))
    {
      assert Lists(all, Ids(index, p), p);
    }
  }
}
