/**
 The task-slot scheduler as seen by all its callers at once
 (remote/docker/container.go). A caller waits, is granted a slot, and either
 notices the grant and later returns the slot, or finds its context done; the
 grant and the end of the context may race. Each event below is one critical
 section of the manager, so a run is an arbitrary interleaving of callers.
 */
module SlotProtocol {
  import opened Common
  import opened TaskSlots

  /** Where the caller of one acquireSlot call stands. */
  datatype Phase =
    | Waiting   // in the select, not dispatched
    | Granted   // dispatched, still in the select
    | Held      // acquireSlot returned nil; the slot will be released once
    | GaveUp    // context done first; the list entry stays, cancelled
    | Returned  // slot given back

  /** `phase[i]` belongs to the i-th acquireSlot call; `returned` logs who returned a slot. */
  datatype Sys = Sys(pool: Pool, phase: seq<Phase>, returned: seq<nat>)

  datatype Event =
    | Arrive(createdAt: int)
    | Receive(id: nat)
    | Cancel(id: nat)
    | Release(id: nat)

  function Init(limit: nat): Sys {
    Sys(Pool(limit, []), [], [])
  }

  predicate Enabled(s: Sys, e: Event) {
    match e
    case Arrive(_) => true
    case Receive(id) => id < |s.phase| && s.phase[id] == Granted
    case Cancel(id) => id < |s.phase| && s.phase[id] in {Waiting, Granted}
    case Release(id) => id < |s.phase| && s.phase[id] == Held
  }

  /** An event that puts a slot back. */
  predicate ReturnsSlot(s: Sys, e: Event) {
    match e
    case Cancel(id) => id < |s.phase| && s.phase[id] == Granted
    case Release(_) => true
    case _ => false
  }

  /** The pool an event hands to tryDispatch, and the callers' phases just before it. */
  function Request(s: Sys, e: Event): (r: Sys)
    requires Enabled(s, e)
    ensures |s.phase| <= |r.phase|
  {
    var Pool(free, pending) := s.pool;
    match e
    case Arrive(t) => Sys(Pool(free, Insert(pending, Waiter(|s.phase|, t, false))), s.phase + [Waiting], s.returned)
    case Receive(id) => s.(phase := s.phase[id := Held])
    case Cancel(id) =>
      if s.phase[id] == Granted then
        Sys(Pool(free + 1, pending), s.phase[id := Returned], s.returned + [id])
      else
        Sys(Pool(free, GiveUp(pending, id)), s.phase[id := GaveUp], s.returned)
    case Release(id) => Sys(Pool(free + 1, pending), s.phase[id := Returned], s.returned + [id])
  }

  predicate Dispatches(s: Sys, e: Event) {
    e.Arrive? || ReturnsSlot(s, e)
  }

  function Mark(phase: seq<Phase>, granted: seq<Waiter>): (r: seq<Phase>)
    ensures |r| == |phase|
    decreases |granted|
  {
    if granted == [] then phase
    else if granted[0].arrival < |phase| then Mark(phase[granted[0].arrival := Granted], granted[1..])
    else Mark(phase, granted[1..])
  }

  /** The waiters an event grants a slot to. */
  function GrantedBy(s: Sys, e: Event): seq<Waiter>
    requires Enabled(s, e)
  {
    if Dispatches(s, e) then Dispatch(Request(s, e).pool).granted else []
  }

  function Apply(s: Sys, e: Event): Sys
    requires Enabled(s, e)
  {
    var r := Request(s, e);
    if Dispatches(s, e) then
      var d := Dispatch(r.pool);
      Sys(d.pool, Mark(r.phase, d.granted), r.returned)
    else r
  }

  ghost predicate Ordered(s: Sys) {
    Sorted(s.pool.pending) && NumberedBelow(s.pool.pending, |s.phase|)
  }

  lemma GrantedBelow(s: Sys)
    requires Ordered(s)
    ensures forall w :: w in Dispatch(s.pool).granted ==> w in s.pool.pending && w.arrival < |s.phase|
  {
    var k := DispatchLeavesTail(s.pool);
  }

  lemma RequestOrdered(s: Sys, e: Event)
    requires Ordered(s) && Enabled(s, e)
    ensures Ordered(Request(s, e))
  {
    if e.Arrive? {
      InsertKeepsOrder(s.pool.pending, Waiter(|s.phase|, e.createdAt, false));
    }
  }

  // ---------------------------------------------------------------------
  // The invariant
  // ---------------------------------------------------------------------

  predicate IsOut(p: Phase) { p == Granted || p == Held }

  /** Slots granted and not yet returned. */
  function Out(phase: seq<Phase>): nat {
    if phase == [] then 0 else (if IsOut(phase[0]) then 1 else 0) + Out(phase[1..])
  }

  ghost predicate Inv(s: Sys, limit: nat) {
    && Ordered(s)
    && s.pool.free + Out(s.phase) == limit
    && (s.pool.free > 0 ==> s.pool.pending == [])
    && Agrees(s)
    && ReturnedOnce(s)
  }

  /** The list holds exactly the callers still waiting, and those that gave up in it. */
  ghost predicate Agrees(s: Sys)
    requires Ordered(s)
  {
    && (forall i :: 0 <= i < |s.pool.pending| ==>
          var w := s.pool.pending[i];
          s.phase[w.arrival] == if w.cancelled then GaveUp else Waiting)
    && (forall a :: 0 <= a < |s.phase| && s.phase[a] == Waiting ==> exists w :: w in s.pool.pending && w.arrival == a)
  }

  /** Every returned slot was returned once, by a caller that had been granted it. */
  ghost predicate ReturnedOnce(s: Sys) {
    && (forall a :: a in s.returned ==> a < |s.phase|)
    && (forall a :: 0 <= a < |s.phase| ==> multiset(s.returned)[a] == if s.phase[a] == Returned then 1 else 0)
  }

  lemma {:induction false} OutUpdate(phase: seq<Phase>, i: nat, p: Phase)
    requires i < |phase|
    ensures Out(phase[i := p]) == Out(phase) - (if IsOut(phase[i]) then 1 else 0) + (if IsOut(p) then 1 else 0)
  {
    if i == 0 {
      assert phase[0 := p][1..] == phase[1..];
    } else {
      OutUpdate(phase[1..], i - 1, p);
      assert phase[i := p][1..] == phase[1..][i - 1 := p];
    }
  }

  lemma {:induction false} OutAppend(phase: seq<Phase>, p: Phase)
    ensures Out(phase + [p]) == Out(phase) + (if IsOut(p) then 1 else 0)
  {
    if phase != [] {
      OutAppend(phase[1..], p);
      assert (phase + [p])[1..] == phase[1..] + [p];
    }
  }

  /** Marking distinct waiting callers as granted takes one slot for each of them. */
  lemma {:induction false} MarkCounts(phase: seq<Phase>, granted: seq<Waiter>)
    requires NumberedBelow(granted, |phase|)
    requires forall i :: 0 <= i < |granted| ==> phase[granted[i].arrival] == Waiting
    ensures Out(Mark(phase, granted)) == Out(phase) + |granted|
    ensures forall a :: 0 <= a < |phase| ==>
              Mark(phase, granted)[a] == if exists w :: w in granted && w.arrival == a then Granted else phase[a]
    decreases |granted|
  {
    if granted != [] {
      var next := phase[granted[0].arrival := Granted];
      OutUpdate(phase, granted[0].arrival, Granted);
      MarkCounts(next, granted[1..]);
      forall a | 0 <= a < |phase|
        ensures Mark(phase, granted)[a] == if exists w :: w in granted && w.arrival == a then Granted else phase[a]
      {
        assert forall w :: w in granted <==> w == granted[0] || w in granted[1..];
      }
    }
  }

  lemma InitInv(limit: nat)
    ensures Inv(Init(limit), limit)
  {
  }

  /** What an event leaves before its dispatch already satisfies all but the last clause. */
  ghost predicate Requested(r: Sys, limit: nat) {
    Ordered(r) && r.pool.free + Out(r.phase) == limit && Agrees(r) && ReturnedOnce(r)
  }

  lemma RequestKeeps(s: Sys, e: Event, limit: nat)
    requires Inv(s, limit) && Enabled(s, e)
    ensures Requested(Request(s, e), limit)
    ensures !Dispatches(s, e) ==> Inv(Request(s, e), limit)
  {
    RequestOrdered(s, e);
    match e
    case Arrive(t) => ArriveKeeps(s, t, limit);
    case Receive(id) => OutUpdate(s.phase, id, Held);
    case Cancel(id) =>
      if s.phase[id] == Granted {
        ReturnKeeps(s, id, limit);
      } else {
        GiveUpKeeps(s, id, limit);
      }
    case Release(id) => ReturnKeeps(s, id, limit);
  }

  lemma ArriveKeeps(s: Sys, t: int, limit: nat)
    requires Inv(s, limit)
    ensures Requested(Request(s, Arrive(t)), limit)
  {
    hide Position, Sorted, Out, Dispatch, Live;
    var r, w := Request(s, Arrive(t)), Waiter(|s.phase|, t, false);
    RequestOrdered(s, Arrive(t));
    OutAppend(s.phase, Waiting);
    assert |s.phase| !in s.returned;
    assert forall x :: x in r.pool.pending <==> x in s.pool.pending || x == w;
    forall i | 0 <= i < |r.pool.pending|
      ensures var x := r.pool.pending[i]; r.phase[x.arrival] == if x.cancelled then GaveUp else Waiting
    {
      var x := r.pool.pending[i];
      if x != w {
        var j :| 0 <= j < |s.pool.pending| && s.pool.pending[j] == x;
      }
    }
  }

  lemma GiveUpKeeps(s: Sys, id: nat, limit: nat)
    requires Inv(s, limit) && id < |s.phase| && s.phase[id] == Waiting
    ensures Requested(Request(s, Cancel(id)), limit)
  {
    var r := Request(s, Cancel(id));
    RequestOrdered(s, Cancel(id));
    OutUpdate(s.phase, id, GaveUp);
    forall a | 0 <= a < |r.phase| && r.phase[a] == Waiting
      ensures exists w :: w in r.pool.pending && w.arrival == a
    {
      var i :| 0 <= i < |s.pool.pending| && s.pool.pending[i].arrival == a;
      assert r.pool.pending[i] == s.pool.pending[i];
    }
  }

  lemma ReturnKeeps(s: Sys, id: nat, limit: nat)
    requires Inv(s, limit) && id < |s.phase| && IsOut(s.phase[id])
    ensures Requested(Sys(Pool(s.pool.free + 1, s.pool.pending), s.phase[id := Returned], s.returned + [id]), limit)
  {
    OutUpdate(s.phase, id, Returned);
  }

  lemma {:induction false} GrantedNumbered(p: Pool, n: nat)
    requires NumberedBelow(p.pending, n)
    ensures NumberedBelow(Dispatch(p).granted, n)
    decreases |p.pending|
  {
    if p.free > 0 && p.pending != [] {
      var rest := Pool(if p.pending[0].cancelled then p.free else p.free - 1, p.pending[1..]);
      GrantedNumbered(rest, n);
      var k := DispatchLeavesTail(rest);
    }
  }

  lemma GrantedNotLeft(p: Pool, n: nat)
    requires NumberedBelow(p.pending, n)
    ensures forall g, u :: g in Dispatch(p).granted && u in Dispatch(p).pool.pending ==> g.arrival != u.arrival
  {
    var d := Dispatch(p);
    var k := DispatchLeavesTail(p);
    forall g, u | g in d.granted && u in d.pool.pending
      ensures g.arrival != u.arrival
    {
      var i :| 0 <= i < k && p.pending[i] == g;
      var j :| 0 <= j < |d.pool.pending| && d.pool.pending[j] == u;
      assert p.pending[k + j] == u;
    }
  }

  /** A dispatch grants waiting callers only. */
  lemma GrantedWereWaiting(r: Sys)
    requires Ordered(r) && Agrees(r)
    ensures var d := Dispatch(r.pool);
            && NumberedBelow(d.granted, |r.phase|)
            && (forall i :: 0 <= i < |d.granted| ==> r.phase[d.granted[i].arrival] == Waiting)
  {
    var d := Dispatch(r.pool);
    var k := DispatchLeavesTail(r.pool);
    GrantedNumbered(r.pool, |r.phase|);
    forall i | 0 <= i < |d.granted|
      ensures r.phase[d.granted[i].arrival] == Waiting
    {
      assert d.granted[i] in d.granted;
    }
  }

  /** A caller that stays waiting stays listed. */
  lemma UngrantedStayListed(r: Sys, a: nat)
    requires Ordered(r) && Agrees(r) && a < |r.phase| && r.phase[a] == Waiting
    requires forall g :: g in Dispatch(r.pool).granted ==> g.arrival != a
    ensures exists w :: w in Dispatch(r.pool).pool.pending && w.arrival == a
  {
    hide Dispatch, Sorted, NumberedBelow;
    var k := DispatchLeavesTail(r.pool);
    var ws := r.pool.pending;
    var i :| 0 <= i < |ws| && ws[i].arrival == a;
    assert forall j :: 0 <= j < k ==> ws[..k][j] == ws[j];
    if i >= k {
      assert ws[k..][i - k] == ws[i];
    }
  }

  lemma DispatchKeeps(r: Sys, limit: nat)
    requires Requested(r, limit)
    requires forall w :: w in Dispatch(r.pool).granted ==> w.arrival < |r.phase|
    ensures var d := Dispatch(r.pool);
            Inv(Sys(d.pool, Mark(r.phase, d.granted), r.returned), limit)
  {
    var d := Dispatch(r.pool);
    DispatchExact(r.pool);
    DispatchKeepsOrder(r.pool, |r.phase|);
    GrantedWereWaiting(r);
    MarkCounts(r.phase, d.granted);
    DispatchAgrees(r);
  }

  lemma DispatchAgrees(r: Sys)
    requires Ordered(r) && Agrees(r)
    requires forall w :: w in Dispatch(r.pool).granted ==> w.arrival < |r.phase|
    ensures var d := Dispatch(r.pool);
            var s := Sys(d.pool, Mark(r.phase, d.granted), r.returned);
            Ordered(s) && Agrees(s)
  {
    hide Dispatch, Mark, Sorted, NumberedBelow;
    var d := Dispatch(r.pool);
    var s := Sys(d.pool, Mark(r.phase, d.granted), r.returned);
    DispatchKeepsOrder(r.pool, |r.phase|);
    GrantedWereWaiting(r);
    GrantedNotLeft(r.pool, |r.phase|);
    MarkCounts(r.phase, d.granted);
    var k := DispatchLeavesTail(r.pool);
    forall i | 0 <= i < |d.pool.pending|
      ensures var w := d.pool.pending[i]; s.phase[w.arrival] == if w.cancelled then GaveUp else Waiting
    {
      assert d.pool.pending[i] == r.pool.pending[k + i];
    }
    forall a | 0 <= a < |s.phase| && s.phase[a] == Waiting
      ensures exists w :: w in d.pool.pending && w.arrival == a
    {
      UngrantedStayListed(r, a);
    }
  }

  lemma StepInv(s: Sys, e: Event, limit: nat)
    requires Inv(s, limit) && Enabled(s, e)
    ensures Inv(Apply(s, e), limit)
  {
    RequestKeeps(s, e, limit);
    if Dispatches(s, e) {
      GrantedBelow(Request(s, e));
      DispatchKeeps(Request(s, e), limit);
    }
  }

  // ---------------------------------------------------------------------
  // Runs
  // ---------------------------------------------------------------------

  predicate Possible(s: Sys, es: seq<Event>)
    decreases |es|
  {
    es == [] || (Enabled(s, es[0]) && Possible(Apply(s, es[0]), es[1..]))
  }

  function After(s: Sys, es: seq<Event>): Sys
    requires Possible(s, es)
    decreases |es|
  {
    if es == [] then s else After(Apply(s, es[0]), es[1..])
  }

  lemma {:induction false} RunInv(s: Sys, es: seq<Event>, limit: nat)
    requires Inv(s, limit) && Possible(s, es)
    ensures Inv(After(s, es), limit)
    decreases |es|
  {
    if es != [] {
      StepInv(s, es[0], limit);
      RunInv(Apply(s, es[0]), es[1..], limit);
    }
  }

  /**
   In every state of every run: free slots plus grants not yet returned make up
   the limit, no slot is free while a caller waits, the list is in service
   order, and a caller has returned its slot once if it is in the phase
   Returned, and never otherwise.
   */
  lemma SlotsConserved(limit: nat, es: seq<Event>)
    requires Possible(Init(limit), es)
    ensures var s := After(Init(limit), es);
            && s.pool.free + Out(s.phase) == limit
            && (s.pool.free > 0 ==> forall a :: 0 <= a < |s.phase| ==> s.phase[a] != Waiting)
            && Sorted(s.pool.pending)
            && forall a :: 0 <= a < |s.phase| ==> multiset(s.returned)[a] == if s.phase[a] == Returned then 1 else 0
  {
    InitInv(limit);
    RunInv(Init(limit), es, limit);
  }

  lemma GrantsInOrder(s: Sys, e: Event, limit: nat)
    requires Inv(s, limit) && Enabled(s, e)
    ensures forall g, u :: g in GrantedBy(s, e) && u in Live(Apply(s, e).pool.pending) ==> Before(g, u)
    ensures forall a :: 0 <= a < |s.phase| && s.phase[a] != Granted && Apply(s, e).phase[a] == Granted ==>
              exists g :: g in GrantedBy(s, e) && g.arrival == a && !g.cancelled
  {
    if Dispatches(s, e) {
      var r := Request(s, e);
      RequestKeeps(s, e, limit);
      GrantedBelow(r);
      GrantedPrecede(r.pool);
      GrantedWereWaiting(r);
      var d := Dispatch(r.pool);
      MarkCounts(r.phase, d.granted);
      var k := DispatchLeavesTail(r.pool);
    }
  }

  /** In every run each grant goes to callers that come before all those left waiting. */
  lemma GrantsGoToTheLeast(limit: nat, es: seq<Event>, e: Event)
    requires Possible(Init(limit), es) && Enabled(After(Init(limit), es), e)
    ensures var s := After(Init(limit), es);
            && (forall g, u :: g in GrantedBy(s, e) && u in Live(Apply(s, e).pool.pending) ==>
                  g.createdAt < u.createdAt || (g.createdAt == u.createdAt && g.arrival < u.arrival))
            && forall a :: 0 <= a < |s.phase| && s.phase[a] != Granted && Apply(s, e).phase[a] == Granted ==>
                 exists g :: g in GrantedBy(s, e) && g.arrival == a && !g.cancelled
  {
    hide GrantedBy, Apply, Live, Before, Inv, Enabled;
    InitInv(limit);
    RunInv(Init(limit), es, limit);
    var s := After(Init(limit), es);
    GrantsInOrder(s, e, limit);
    forall g, u | g in GrantedBy(s, e) && u in Live(Apply(s, e).pool.pending)
      ensures g.createdAt < u.createdAt || (g.createdAt == u.createdAt && g.arrival < u.arrival)
    {
      BeforeIs(g, u);
    }
  }

  lemma BeforeIs(a: Waiter, b: Waiter)
    ensures Before(a, b) <==> a.createdAt < b.createdAt || (a.createdAt == b.createdAt && a.arrival < b.arrival)
  {
  }

  lemma GrantedPrecede(p: Pool)
    requires Sorted(p.pending)
    ensures forall g, u :: g in Dispatch(p).granted && u in Dispatch(p).pool.pending ==> Before(g, u)
  {
    var d := Dispatch(p);
    var k := DispatchLeavesTail(p);
    forall g, u | g in d.granted && u in d.pool.pending
      ensures Before(g, u)
    {
      var i :| 0 <= i < k && p.pending[i] == g;
      var j :| 0 <= j < |d.pool.pending| && d.pool.pending[j] == u;
      assert p.pending[k + j] == u;
    }
  }

  // ---------------------------------------------------------------------
  // Bounded wait
  // ---------------------------------------------------------------------

  lemma {:induction false} LiveConcat(a: seq<Waiter>, b: seq<Waiter>)
    ensures Live(a + b) == Live(a) + Live(b)
  {
    if a == [] {
      assert a + b == b;
    } else {
      hide Live;
      LiveConcat(a[1..], b);
      LiveStep(a);
      LiveStep(a + b);
      assert (a + b)[0] == a[0] && (a + b)[1..] == a[1..] + b;
      var first := if a[0].cancelled then [] else [a[0]];
      assert first + (Live(a[1..]) + Live(b)) == (first + Live(a[1..])) + Live(b);
    }
  }

  /** Another waiter giving up moves nobody back. */
  lemma {:induction false} GiveUpMovesForward(ws: seq<Waiter>, a: nat, k: nat) returns (k': nat)
    requires k < |Live(ws)| && Live(ws)[k].arrival != a
    ensures k' <= k && k' < |Live(GiveUp(ws, a))| && Live(GiveUp(ws, a))[k'] == Live(ws)[k]
    decreases |ws|
  {
    hide GiveUp, Live;
    NoneLive();
    GiveUpStep(ws, a);
    LiveStep(ws);
    LiveStep(GiveUp(ws, a));
    if ws[0].cancelled {
      k' := GiveUpMovesForward(ws[1..], a, k);
    } else if k == 0 {
      k' := 0;
    } else {
      k' := GiveUpMovesForward(ws[1..], a, k - 1);
      if ws[0].arrival != a {
        k' := k' + 1;
      }
    }
  }

  lemma GiveUpStep(ws: seq<Waiter>, a: nat)
    requires ws != []
    ensures GiveUp(ws, a) == [if ws[0].arrival == a then ws[0].(cancelled := true) else ws[0]] + GiveUp(ws[1..], a)
    ensures GiveUp(ws, a)[1..] == GiveUp(ws[1..], a)
  {
  }

  /** A later insertion leaves the waiter at its rank. */
  lemma InsertBehind(ws: seq<Waiter>, x: Waiter, k: nat)
    requires Sorted(ws) && k < |Live(ws)| && Live(ws)[k].createdAt <= x.createdAt && !x.cancelled
    ensures k < |Live(Insert(ws, x))| && Live(Insert(ws, x))[k] == Live(ws)[k]
  {
    var p, w := Position(ws, x.createdAt), Live(ws)[k];
    PositionSplits(ws, x.createdAt);
    assert ws == ws[..p] + ws[p..];
    LiveConcat(ws[..p], ws[p..]);
    assert k < |Live(ws[..p])|;
    LiveConcat(ws[..p], [x] + ws[p..]);
    assert Insert(ws, x) == ws[..p] + ([x] + ws[p..]);
  }

  /** The events that the bound on waiting allows for the waiter `w`. */
  predicate Spares(e: Event, w: Waiter) {
    e != Cancel(w.arrival) && (e.Arrive? ==> w.createdAt <= e.createdAt)
  }

  /** The waiter is granted by the event, or is at a rank at most `k` after it. */
  ghost predicate MovedTo(s: Sys, e: Event, w: Waiter, k: nat, k': nat)
    requires Enabled(s, e)
  {
    var live := Live(Apply(s, e).pool.pending);
    k' <= k && k' < |live| && live[k'] == w
  }

  lemma ReturnMovesUp(s: Sys, e: Event, limit: nat, k: nat)
    requires Inv(s, limit) && Enabled(s, e) && ReturnsSlot(s, e)
    requires k < |Live(s.pool.pending)|
    ensures var w := Live(s.pool.pending)[k];
            if k == 0 then w in GrantedBy(s, e) else MovedTo(s, e, w, k - 1, k - 1)
  {
    var live := Live(s.pool.pending);
    assert live[k] in s.pool.pending;
    assert Request(s, e).pool == Pool(1, s.pool.pending);
    DispatchExact(Pool(1, s.pool.pending));
  }

  lemma OthersKeepRank(s: Sys, e: Event, limit: nat, k: nat) returns (k': nat)
    requires Inv(s, limit) && Enabled(s, e) && !ReturnsSlot(s, e)
    requires k < |Live(s.pool.pending)| && Spares(e, Live(s.pool.pending)[k])
    ensures MovedTo(s, e, Live(s.pool.pending)[k], k, k')
  {
    var live := Live(s.pool.pending);
    assert live[k] in s.pool.pending;
    assert s.pool.free == 0;
    k' := k;
    if e.Arrive? {
      InsertBehind(s.pool.pending, Waiter(|s.phase|, e.createdAt, false), k);
    } else if e.Cancel? {
      k' := GiveUpMovesForward(s.pool.pending, e.id, k);
    }
  }

  /** One event: the waiter is granted, or moves up by one place per slot returned. */
  lemma StepMovesUp(s: Sys, e: Event, limit: nat, k: nat) returns (k': nat)
    requires Inv(s, limit) && Enabled(s, e)
    requires k < |Live(s.pool.pending)| && Spares(e, Live(s.pool.pending)[k])
    ensures var w := Live(s.pool.pending)[k];
            if !ReturnsSlot(s, e) then MovedTo(s, e, w, k, k')
            else if k == 0 then w in GrantedBy(s, e)
            else MovedTo(s, e, w, k - 1, k')
  {
    k' := k;
    if ReturnsSlot(s, e) {
      ReturnMovesUp(s, e, limit, k);
      k' := if k == 0 then 0 else k - 1;
    } else {
      k' := OthersKeepRank(s, e, limit, k);
    }
  }

  /** Slots returned along a run. */
  function Returns(s: Sys, es: seq<Event>): nat
    requires Possible(s, es)
    decreases |es|
  {
    if es == [] then 0
    else (if ReturnsSlot(s, es[0]) then 1 else 0) + Returns(Apply(s, es[0]), es[1..])
  }

  /** Some event of the run grants a slot to `w`. */
  predicate GrantedDuring(s: Sys, es: seq<Event>, w: Waiter)
    requires Possible(s, es)
    decreases |es|
  {
    es != [] && (w in GrantedBy(s, es[0]) || GrantedDuring(Apply(s, es[0]), es[1..], w))
  }

  lemma {:induction false} GrantedInTime(s: Sys, es: seq<Event>, limit: nat, k: nat)
    requires Inv(s, limit) && Possible(s, es)
    requires k < |Live(s.pool.pending)|
    requires forall e :: e in es ==> Spares(e, Live(s.pool.pending)[k])
    requires Returns(s, es) > k
    ensures GrantedDuring(s, es, Live(s.pool.pending)[k])
    decreases |es|
  {
    var k' := StepMovesUp(s, es[0], limit, k);
    if !(ReturnsSlot(s, es[0]) && k == 0) {
      StepInv(s, es[0], limit);
      GrantedInTime(Apply(s, es[0]), es[1..], limit, k');
    }
  }

  /**
   From any reachable state, a waiter with k uncancelled waiters ahead, that
   does not give up and is not overtaken by an earlier createdAt, is granted by
   the (k+1)-th slot return.
   */
  lemma BoundedWait(limit: nat, before: seq<Event>, es: seq<Event>, k: nat)
    requires Possible(Init(limit), before) && Possible(After(Init(limit), before), es)
    requires var s := After(Init(limit), before);
             && k < |Live(s.pool.pending)|
             && (forall e :: e in es ==> Spares(e, Live(s.pool.pending)[k]))
             && Returns(s, es) > k
    ensures var s := After(Init(limit), before);
            GrantedDuring(s, es, Live(s.pool.pending)[k])
  {
    InitInv(limit);
    RunInv(Init(limit), before, limit);
    GrantedInTime(After(Init(limit), before), es, limit, k);
  }
}
