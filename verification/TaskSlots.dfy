/**
 The task-slot scheduler of remote/docker/container.go: a counting semaphore
 whose waiters are granted slots in (createdAt, arrival) order.

 `Pool` and the functions on it say what one critical section does to the
 slots and the waiting list; the class keeps that state the way the program
 does, in fields and flags of waiting items that are updated in place.
 */
module TaskSlots {
  import opened Common

  /** A waiter in the list. `arrival` numbers the acquireSlot calls. */
  datatype Waiter = Waiter(arrival: nat, createdAt: int, cancelled: bool)

  datatype Pool = Pool(free: nat, pending: seq<Waiter>)

  /** The service order: oldest createdAt first, ties by arrival. */
  predicate Before(a: Waiter, b: Waiter) {
    a.createdAt < b.createdAt || (a.createdAt == b.createdAt && a.arrival < b.arrival)
  }

  predicate Sorted(ws: seq<Waiter>) {
    forall i, j :: 0 <= i < j < |ws| ==> Before(ws[i], ws[j])
  }

  /** The waiters that have not given up, in list order. */
  function Live(ws: seq<Waiter>): (live: seq<Waiter>)
    ensures forall w :: w in live <==> w in ws && !w.cancelled
  {
    if ws == [] then []
    else if ws[0].cancelled then Live(ws[1..])
    else [ws[0]] + Live(ws[1..])
  }

  lemma NoneLive()
    ensures Live([]) == []
  {
  }

  lemma LiveStep(ws: seq<Waiter>)
    requires ws != []
    ensures Live(ws) == (if ws[0].cancelled then [] else [ws[0]]) + Live(ws[1..])
  {
  }

  datatype Dispatched = Dispatched(pool: Pool, granted: seq<Waiter>)

  /** What tryDispatch does: pop waiters, skipping cancelled ones, while a slot is free. */
  function Dispatch(p: Pool): Dispatched
    decreases |p.pending|
  {
    if p.free == 0 || p.pending == [] then Dispatched(p, [])
    else if p.pending[0].cancelled then Dispatch(Pool(p.free, p.pending[1..]))
    else
      var d := Dispatch(Pool(p.free - 1, p.pending[1..]));
      Dispatched(d.pool, [p.pending[0]] + d.granted)
  }

  /** The number of waiters, from the front, with createdAt not after `t`. */
  function Position(ws: seq<Waiter>, t: int): (k: nat)
    ensures k <= |ws|
  {
    if ws == [] || ws[0].createdAt > t then 0 else 1 + Position(ws[1..], t)
  }

  function Insert(ws: seq<Waiter>, w: Waiter): seq<Waiter> {
    var k := Position(ws, w.createdAt);
    ws[..k] + [w] + ws[k..]
  }

  /** A dispatch grants exactly the first waiters that have not given up, as many as there are slots. */
  lemma {:induction false} DispatchExact(p: Pool)
    ensures var d, live := Dispatch(p), Live(p.pending);
            var k := Min(p.free, |live|);
            && d.granted == live[..k]
            && Live(d.pool.pending) == live[k..]
            && d.pool.free == p.free - k
            && (d.pool.free > 0 ==> d.pool.pending == [])
    decreases |p.pending|
  {
    hide Live;
    NoneLive();
    if p.pending != [] {
      LiveStep(p.pending);
    }
    if p.free == 0 || p.pending == [] {
    } else if p.pending[0].cancelled {
      DispatchExact(Pool(p.free, p.pending[1..]));
    } else {
      DispatchExact(Pool(p.free - 1, p.pending[1..]));
      var live := Live(p.pending[1..]);
      var k := Min(p.free - 1, |live|);
      assert [p.pending[0]] + live[..k] == ([p.pending[0]] + live)[..k + 1];
      assert ([p.pending[0]] + live)[k + 1..] == live[k..];
    }
  }

  /** What a dispatch leaves is the tail of the list, cancelled entries in it included. */
  lemma {:induction false} DispatchLeavesTail(p: Pool) returns (k: nat)
    ensures k <= |p.pending| && Dispatch(p).pool.pending == p.pending[k..]
    ensures forall w :: w in Dispatch(p).granted ==> w in p.pending[..k] && !w.cancelled
    ensures forall w :: w in p.pending[..k] && !w.cancelled ==> w in Dispatch(p).granted
    decreases |p.pending|
  {
    if p.free == 0 || p.pending == [] {
      k := 0;
    } else {
      var rest := p.pending[1..];
      k := DispatchLeavesTail(Pool(if p.pending[0].cancelled then p.free else p.free - 1, rest));
      assert p.pending[..k + 1] == [p.pending[0]] + rest[..k];
      assert rest[k..] == p.pending[k + 1..];
      k := k + 1;
    }
  }

  /** A dispatch keeps the list in order and leaves no slot idle while anyone is listed. */
  lemma DispatchKeepsOrder(p: Pool, n: nat)
    requires Sorted(p.pending) && NumberedBelow(p.pending, n)
    ensures var q := Dispatch(p).pool;
            && Sorted(q.pending) && NumberedBelow(q.pending, n)
            && (q.free > 0 ==> q.pending == [])
  {
    DispatchExact(p);
    var k := DispatchLeavesTail(p);
  }

  lemma {:induction false} PositionSplits(ws: seq<Waiter>, t: int)
    requires Sorted(ws)
    ensures var k := Position(ws, t);
            && (forall i :: 0 <= i < k ==> ws[i].createdAt <= t)
            && (forall i :: k <= i < |ws| ==> ws[i].createdAt > t)
  {
    if ws == [] || ws[0].createdAt > t {
    } else {
      PositionSplits(ws[1..], t);
    }
  }

  /** Arrival numbers identify the waiters. */
  predicate NumberedBelow(ws: seq<Waiter>, n: nat) {
    && (forall i :: 0 <= i < |ws| ==> ws[i].arrival < n)
    && (forall i, j :: 0 <= i < j < |ws| ==> ws[i].arrival != ws[j].arrival)
  }

  function GiveUp(ws: seq<Waiter>, arrival: nat): (r: seq<Waiter>)
    ensures |r| == |ws|
  {
    seq(|ws|, i requires 0 <= i < |ws| =>
      if ws[i].arrival == arrival then ws[i].(cancelled := true) else ws[i])
  }

  lemma {:induction false} PositionIs(ws: seq<Waiter>, t: int, k: nat)
    requires k <= |ws|
    requires forall i :: 0 <= i < k ==> ws[i].createdAt <= t
    requires k < |ws| ==> ws[k].createdAt > t
    ensures Position(ws, t) == k
  {
    if k > 0 {
      PositionIs(ws[1..], t, k - 1);
    }
  }

  /** Inserting the newest arrival keeps the list in service order. */
  lemma InsertKeepsOrder(ws: seq<Waiter>, w: Waiter)
    requires Sorted(ws) && NumberedBelow(ws, w.arrival)
    ensures Sorted(Insert(ws, w)) && NumberedBelow(Insert(ws, w), w.arrival + 1)
  {
    PositionSplits(ws, w.createdAt);
  }

  // ---------------------------------------------------------------------
  // The program's own state
  // ---------------------------------------------------------------------

  lemma DispatchStep(p: Pool)
    requires p.free > 0 && p.pending != []
    ensures Dispatch(p).pool ==
            Dispatch(Pool(if p.pending[0].cancelled then p.free else p.free - 1, p.pending[1..])).pool
  {
  }

  lemma DispatchDone(p: Pool)
    requires p.free == 0 || p.pending == []
    ensures Dispatch(p).pool == p
  {
  }

  class PendingItem {
    const createdAt: int
    ghost const arrival: nat
    var cancelled: bool
    var dispatched: bool  // set together with closing the item's ready channel

    constructor (createdAt: int, ghost arrival: nat)
      ensures this.createdAt == createdAt && this.arrival == arrival
      ensures !cancelled && !dispatched
    {
      this.createdAt, this.arrival := createdAt, arrival;
      cancelled, dispatched := false, false;
    }

    ghost function View(): Waiter
      reads this
    {
      Waiter(arrival, createdAt, cancelled)
    }
  }

  ghost function Views(items: seq<PendingItem>): (ws: seq<Waiter>)
    reads items
    ensures |ws| == |items|
  {
    seq(|items|, i requires 0 <= i < |items| reads items => items[i].View())
  }

  class ContainerManager {
    const limit: nat
    var taskSlots: nat
    var pending: seq<PendingItem>
    ghost var arrivals: nat  // acquireSlot calls so far
    ghost var held: nat      // slots granted and not yet returned

    /** What holds whenever the mutex is held, also in the middle of a critical section. */
    ghost predicate Consistent()
      reads this, pending
    {
      && taskSlots + held == limit
      && (forall i, j :: 0 <= i < j < |pending| ==> pending[i] != pending[j])
      && (forall i :: 0 <= i < |pending| ==> !pending[i].dispatched)
    }

    /** What holds whenever the mutex is free: the list is sorted and no slot is idle while anyone is listed. */
    ghost predicate Valid()
      reads this, pending
    {
      && Consistent()
      && Sorted(Views(pending))
      && NumberedBelow(Views(pending), arrivals)
      && (taskSlots > 0 ==> pending == [])
    }

    ghost function View(): Pool
      reads this, pending
    {
      Pool(taskSlots, Views(pending))
    }

    constructor (maxConcurrentTasks: nat)
      ensures Valid() && limit == maxConcurrentTasks
      ensures View() == Pool(limit, []) && held == 0
    {
      limit, taskSlots, pending := maxConcurrentTasks, maxConcurrentTasks, [];
      arrivals, held := 0, 0;
    }

    /** One round of tryDispatch: pop the head and, unless it gave up, grant it a slot. */
    method PopHead()
      requires Consistent() && taskSlots > 0 && |pending| > 0
      modifies this`taskSlots, this`pending, this`held, pending[0]
      ensures Consistent()
      ensures pending == old(pending)[1..]
      ensures var item := old(pending)[0];
              && item.cancelled == old(item.cancelled)
              && item.dispatched == !item.cancelled
              && taskSlots == old(taskSlots) - (if item.cancelled then 0 else 1)
    {
      var item := pending[0];
      pending := pending[1..];
      assert forall i :: 0 <= i < |pending| ==> pending[i] == old(pending)[i + 1];
      if item.cancelled {
        return;
      }
      taskSlots, held := taskSlots - 1, held + 1;
      item.dispatched := true;
    }

    /** Grants free slots to the oldest waiters that have not given up. */
    method TryDispatch()
      requires Consistent()
      modifies this`taskSlots, this`pending, this`held, pending
      ensures Consistent()
      ensures View() == old(Dispatch(View()).pool)
      ensures var k := |old(pending)| - |pending|;
              && k >= 0 && pending == old(pending)[k..]
              && (forall i :: 0 <= i < k ==> old(pending)[i].dispatched == !old(pending)[i].cancelled)
      ensures forall i :: 0 <= i < |old(pending)| ==> old(pending)[i].cancelled == old(pending[i].cancelled)
    {
      hide Dispatch;
      ghost var items, k, ws, goal := pending, 0, Views(pending), Dispatch(View()).pool;
      while taskSlots > 0 && |pending| > 0
        invariant Consistent()
        invariant 0 <= k <= |items| && pending == items[k..]
        invariant Dispatch(Pool(taskSlots, ws[k..])).pool == goal
        invariant forall i :: 0 <= i < |items| ==> items[i].View() == ws[i]
        invariant forall i :: 0 <= i < k ==> items[i].dispatched == !items[i].cancelled
        decreases |pending|
      {
        assert ws[k..][1..] == ws[k + 1..] && ws[k..][0].cancelled == items[k].cancelled;
        DispatchStep(Pool(taskSlots, ws[k..]));
        PopHead();
        k := k + 1;
      }
      assert Views(pending) == ws[k..];
      DispatchDone(View());
    }

    /** The first index whose createdAt is after `t`, by binary search. */
    method Search(t: int) returns (idx: nat)
      requires Sorted(Views(pending))
      ensures idx == Position(Views(pending), t)
    {
      ghost var ws := Views(pending);
      var i, j := 0, |pending|;
      while i < j
        invariant 0 <= i <= j <= |pending|
        invariant i > 0 ==> ws[i - 1].createdAt <= t
        invariant j < |pending| ==> ws[j].createdAt > t
      {
        var h := (i + j) / 2;
        assert pending[h].createdAt == ws[h].createdAt;
        if !(pending[h].createdAt > t) {
          i := h + 1;
        } else {
          j := h;
        }
      }
      assert forall k :: 0 <= k < i - 1 ==> Before(ws[k], ws[i - 1]);
      PositionIs(ws, t, i);
      idx := i;
    }

    method InsertPendingSorted(item: PendingItem)
      requires Consistent() && Sorted(Views(pending))
      requires item !in pending && !item.dispatched
      modifies this`pending
      ensures Consistent()
      ensures View() == old(Pool(taskSlots, Insert(Views(pending), item.View())))
      ensures forall x :: x in pending <==> x in old(pending) || x == item
    {
      hide Position, Sorted, Before;
      var idx := Search(item.createdAt);
      pending := pending[..idx] + [item] + pending[idx..];
    }

    /** The first critical section of acquireSlot: join the list and dispatch. */
    method Enter(createdAt: int) returns (item: PendingItem)
      requires Valid()
      modifies this, pending
      ensures Valid() && fresh(item)
      ensures arrivals == old(arrivals) + 1
      ensures item.View() == Waiter(old(arrivals), createdAt, false)
      ensures View() == old(Dispatch(Pool(taskSlots, Insert(Views(pending), Waiter(arrivals, createdAt, false)))).pool)
      ensures item.dispatched <==> item !in pending
    {
      item := Join(createdAt);
      DispatchKeepsOrder(View(), arrivals);
      DispatchAll(item);
    }

    method Join(createdAt: int) returns (item: PendingItem)
      requires Valid()
      modifies this`pending, this`arrivals
      ensures fresh(item) && item in pending && !item.cancelled
      ensures item.View() == Waiter(old(arrivals), createdAt, false)
      ensures arrivals == old(arrivals) + 1
      ensures Consistent() && Sorted(Views(pending)) && NumberedBelow(Views(pending), arrivals)
      ensures View() == old(Pool(taskSlots, Insert(Views(pending), Waiter(arrivals, createdAt, false))))
      ensures forall i :: 0 <= i < |pending| ==> pending[i] in old(pending) || fresh(pending[i])
    {
      item := new PendingItem(createdAt, arrivals);
      InsertKeepsOrder(Views(pending), item.View());
      InsertPendingSorted(item);
      arrivals := arrivals + 1;
    }

    /** tryDispatch, seen from the waiter that has just joined. */
    method DispatchAll(item: PendingItem)
      requires Consistent() && item in pending
      modifies this`taskSlots, this`pending, this`held, pending
      ensures Consistent() && View() == old(Dispatch(View()).pool)
      ensures item.cancelled == old(item.cancelled)
      ensures !item.cancelled ==> (item.dispatched <==> item !in pending)
    {
      hide Dispatch;
      ghost var items := pending;
      ghost var i :| 0 <= i < |items| && items[i] == item;
      TryDispatch();
      assert i >= |items| - |pending| ==> pending[i - (|items| - |pending|)] == item;
    }

    /** The second critical section of acquireSlot, reached when the context ends first. */
    method Leave(item: PendingItem)
      requires Valid()
      requires if item.dispatched then held > 0 && item !in pending else item in pending
      modifies this`taskSlots, this`pending, this`held, pending, item
      ensures Valid() && arrivals == old(arrivals)
      ensures View() == old(if item.dispatched then Dispatch(Pool(taskSlots + 1, Views(pending))).pool
                            else Pool(taskSlots, GiveUp(Views(pending), item.arrival)))
    {
      hide Dispatch;
      if item.dispatched {
        ReleaseSlot();
      } else {
        ghost var ws := Views(pending);
        ghost var k :| 0 <= k < |pending| && pending[k] == item;
        assert ws[k].arrival == item.arrival;
        item.cancelled := true;
        forall i | 0 <= i < |pending|
          ensures Views(pending)[i] == GiveUp(ws, item.arrival)[i]
        {
          assert ws[i].arrival == pending[i].arrival;
        }
        assert View().pending == old(GiveUp(Views(pending), item.arrival));
      }
    }

    method ReleaseSlot()
      requires Valid() && held > 0
      modifies this`taskSlots, this`pending, this`held, pending
      ensures Valid() && arrivals == old(arrivals)
      ensures View() == old(Dispatch(Pool(taskSlots + 1, Views(pending))).pool)
    {
      taskSlots, held := taskSlots + 1, held - 1;
      DispatchKeepsOrder(View(), arrivals);
      TryDispatch();
    }
  }

  /** The pool after one slot has been returned. */
  function Released(p: Pool): Pool {
    Dispatch(Pool(p.free + 1, p.pending)).pool
  }

  /** A running one-shot container; it owns the slot its caller acquired until it is closed. */
  class OneShotStream {
    const manager: ContainerManager
    var closed: bool  // the closeOnce guard

    constructor (manager: ContainerManager)
      ensures this.manager == manager && !closed
    {
      this.manager := manager;
      closed := false;
    }

    /** Returns the slot at the first call and does nothing at later ones. */
    method Close()
      requires manager.Valid() && (!closed ==> manager.held > 0)
      modifies this, manager`taskSlots, manager`pending, manager`held, manager.pending
      ensures manager.Valid() && closed
      ensures manager.View() == if old(closed) then old(manager.View()) else Released(old(manager.View()))
    {
      if !closed {
        closed := true;
        manager.ReleaseSlot();
      }
    }
  }

  /**
   What RunOneShotStreaming does once it holds a slot, given which of its
   container calls succeed: every failing path returns the slot once, and
   success leaves it to the stream.
   */
  method RunOneShotStreaming(m: ContainerManager, created: bool, attached: bool, hasReader: bool, started: bool)
    returns (stream: OneShotStream?)
    requires m.Valid() && m.held > 0
    modifies m`taskSlots, m`pending, m`held, m.pending
    ensures m.Valid()
    ensures stream != null <==> created && attached && hasReader && started
    ensures stream == null ==> m.View() == Released(old(m.View()))
    ensures stream != null ==>
              fresh(stream) && stream.manager == m && !stream.closed && m.View() == old(m.View()) && m.held > 0
  {
    if !created {
      m.ReleaseSlot();
      return null;
    }
    if !attached {
      m.ReleaseSlot();
      return null;
    }
    if !hasReader {
      m.ReleaseSlot();
      return null;
    }
    if !started {
      m.ReleaseSlot();
      return null;
    }
    stream := new OneShotStream(m);
  }
}
