/**
 A log subscriber joining a running workflow: the writer of
 remote/api/workflow_queue.go and streamRunning and drainRemaining of
 workflow_handler.go. The writer first appends a chunk to the ring buffer,
 then collects the subscribers under the store lock, then sends to them; the
 subscriber may join between any two of these steps.
 */
module LogJoin {
  import opened Common

  const LOG_BUFFER_SIZE: nat := 10485760
  const SUB_BUFFER: nat := 4096

  type Chunk = seq<byte>

  datatype Writer =
    | Idle
    | Written(chunk: Chunk)                     // in the ring buffer
    | Sending(chunk: Chunk, subscribed: bool)   // subscribers collected
    | Closed                                    // output stream ended

  datatype Phase = Streaming | Draining | Finished

  /**
   `joined`, `from` and `dropped` are history: the chunks in the buffer at the
   join, the first one meant for the channel, and those whose send timed out.
   */
  datatype Subscriber =
    | NotJoined
    | Joined(snapshot: seq<byte>, channel: seq<Chunk>, received: seq<Chunk>, phase: Phase, joined: nat, from: nat,
             dropped: seq<int>)

  datatype Sys = Sys(chunks: seq<Chunk>, writer: Writer, terminal: bool, sub: Subscriber)

  datatype Event =
    | Output(chunk: Chunk)  // Write: the ring buffer
    | Collect               // Write: the subscribers, under the store lock
    | Send                  // Write: the channel send, or none
    | TimeOut               // Write: 100 ms passed with the channel full; the chunk is dropped
    | CloseStream
    | Finalize              // finishWorkflow, after the output has been copied
    | Join                  // streamRunning: snapshot and subscribe, under the store lock
    | Receive
    | SeeTerminal
    | Drain
    | Finish                // the "finished" message

  predicate Enabled(s: Sys, e: Event) {
    match e
    case Output(_) => s.writer.Idle?
    case Collect => s.writer.Written?
    case Send => s.writer.Sending? && (s.writer.subscribed ==> s.sub.Joined? && |s.sub.channel| < SUB_BUFFER)
    case TimeOut => s.writer.Sending? && s.writer.subscribed && s.sub.Joined? && |s.sub.channel| == SUB_BUFFER
    case CloseStream => s.writer.Idle?
    case Finalize => s.writer.Closed?
    case Join => s.sub.NotJoined?
    case Receive => s.sub.Joined? && s.sub.phase.Streaming? && s.sub.channel != []
    case SeeTerminal => s.sub.Joined? && s.sub.phase.Streaming? && s.terminal
    case Drain => s.sub.Joined? && s.sub.phase.Draining? && s.sub.channel != []
    case Finish => s.sub.Joined? && s.sub.phase.Draining? && s.sub.channel == []
  }

  /** RingBuffer.String: the last bytes of everything written to the buffer. */
  function Buffered(chunks: seq<Chunk>): seq<byte> {
    Suffix(Flatten(chunks), LOG_BUFFER_SIZE)
  }

  function Take(sub: Subscriber): Subscriber
    requires sub.Joined? && sub.channel != []
  {
    sub.(channel := sub.channel[1..], received := sub.received + [sub.channel[0]])
  }

  function Apply(s: Sys, e: Event): Sys
    requires Enabled(s, e)
  {
    match e
    case Output(chunk) => s.(chunks := s.chunks + [chunk], writer := Written(chunk))
    case Collect => s.(writer := Sending(s.writer.chunk, s.sub.Joined?))
    case Send =>
      if s.writer.subscribed
      then s.(writer := Idle, sub := s.sub.(channel := s.sub.channel + [s.writer.chunk]))
      else s.(writer := Idle)
    case TimeOut => s.(writer := Idle, sub := s.sub.(dropped := s.sub.dropped + [|s.chunks| - 1]))
    case CloseStream => s.(writer := Closed)
    case Finalize => s.(terminal := true)
    case Join =>
      s.(sub := Joined(Buffered(s.chunks), [], [], Streaming, |s.chunks|,
                       if s.writer.Written? && s.chunks != [] then |s.chunks| - 1 else |s.chunks|, []))
    case Receive => s.(sub := Take(s.sub))
    case SeeTerminal => s.(sub := s.sub.(phase := Draining))
    case Drain => s.(sub := Take(s.sub))
    case Finish => s.(sub := s.sub.(phase := Finished))
  }

  const INIT := Sys([], Idle, false, NotJoined)

  predicate Possible(s: Sys, es: seq<Event>)
    decreases |es|
  {
    es == [] || (Enabled(s, es[0]) && Possible(Apply(s, es[0]), es[1..]))
  }

  function After(s: Sys, es: seq<Event>): Sys
    requires Possible(s, es)
    decreases |es|
  {
    if es == [] then s else After(Apply(s, es[0]), es[1..])
  }

  /** The chunk the writer has still to send to the subscriber. */
  function InFlight(s: Sys): seq<Chunk> {
    if s.writer.Written? || (s.writer.Sending? && s.writer.subscribed) then [s.writer.chunk] else []
  }

  /** The chunks from number `from` on, without the dropped ones. */
  function Delivered(chunks: seq<Chunk>, from: nat, dropped: seq<int>): seq<Chunk>
    requires from <= |chunks|
    decreases |chunks|
  {
    var last := |chunks| - 1;
    if last < from then []
    else Delivered(chunks[..last], from, dropped) + if last in dropped then [] else [chunks[last]]
  }

  ghost predicate Inv(s: Sys) {
    && (s.writer.Written? || s.writer.Sending? ==> s.chunks != [] && s.chunks[|s.chunks| - 1] == s.writer.chunk)
    && (s.writer.Sending? && s.writer.subscribed ==> s.sub.Joined?)
    && (s.terminal ==> s.writer.Closed?)
    && (s.sub.Joined? ==> SubInv(s))
  }

  ghost predicate SubInv(s: Sys)
    requires s.sub.Joined?
  {
    var sub := s.sub;
    && sub.from <= sub.joined <= sub.from + 1 && sub.joined <= |s.chunks|
    && sub.snapshot == Buffered(s.chunks[..sub.joined])
    && Delivered(s.chunks, sub.from, sub.dropped) == sub.received + sub.channel + InFlight(s)
    && (forall i :: 0 <= i < |sub.dropped| ==> sub.from <= sub.dropped[i] < |s.chunks|)
    && (InFlight(s) != [] ==> sub.from < |s.chunks| && |s.chunks| - 1 !in sub.dropped)
    && (!sub.phase.Streaming? ==> s.terminal)
    && (sub.phase.Finished? ==> sub.channel == [])
  }

  lemma StepInv(s: Sys, e: Event)
    requires Inv(s) && Enabled(s, e)
    ensures Inv(Apply(s, e))
  {
    hide Suffix, Flatten, Delivered;
    match e
    case Output(chunk) => OutputInv(s, chunk);
    case Send => SendInv(s);
    case TimeOut => TimeOutInv(s);
    case Join => JoinInv(s);
    case Receive => TakeInv(s);
    case Drain => TakeInv(s);
    case _ =>
  }

  lemma OutputInv(s: Sys, chunk: Chunk)
    requires Inv(s) && s.writer.Idle?
    ensures Inv(Apply(s, Output(chunk)))
  {
    hide Buffered;
    var s' := Apply(s, Output(chunk));
    if s.sub.Joined? {
      assert s'.chunks[..s.sub.joined] == s.chunks[..s.sub.joined];
      assert s'.chunks[..|s.chunks|] == s.chunks;
      assert s.sub.received + s.sub.channel + [] == s.sub.received + s.sub.channel;
    }
  }

  lemma SendInv(s: Sys)
    requires Inv(s) && Enabled(s, Send)
    ensures Inv(Apply(s, Send))
  {
    hide Buffered, Delivered;
  }

  /** What is dropped later does not matter. */
  lemma {:induction false} DeliveredIgnores(chunks: seq<Chunk>, from: nat, dropped: seq<int>, n: nat)
    requires from <= |chunks| <= n
    ensures Delivered(chunks, from, dropped + [n]) == Delivered(chunks, from, dropped)
    decreases |chunks|
  {
    if from < |chunks| {
      DeliveredIgnores(chunks[..|chunks| - 1], from, dropped, n);
    }
  }

  lemma TimeOutInv(s: Sys)
    requires Inv(s) && Enabled(s, TimeOut)
    ensures Inv(Apply(s, TimeOut))
  {
    hide Buffered;
    var sub, last := s.sub, |s.chunks| - 1;
    DeliveredIgnores(s.chunks[..last], sub.from, sub.dropped, last);
    var before := Delivered(s.chunks[..last], sub.from, sub.dropped);
    assert before + [s.chunks[last]] == (sub.received + sub.channel) + [s.writer.chunk];
    assert before + [] == before == (before + [s.chunks[last]])[..|before|];
    assert sub.received + sub.channel + [] == sub.received + sub.channel;
  }

  lemma JoinInv(s: Sys)
    requires Inv(s) && Enabled(s, Join)
    ensures Inv(Apply(s, Join))
  {
    hide Buffered;
    assert s.chunks[..|s.chunks|] == s.chunks;
    var r := Apply(s, Join);
    DeliveredAll(r.chunks, r.sub.from, []);
    assert r.chunks[r.sub.from..] == [] + [] + InFlight(r);
  }

  lemma TakeInv(s: Sys)
    requires Inv(s) && s.sub.Joined? && s.sub.channel != [] && !s.sub.phase.Finished?
    ensures Inv(s.(sub := Take(s.sub)))
  {
    hide Buffered, Delivered;
  }

  /** No send ran into its 100 ms limit. */
  predicate NoTimeOut(es: seq<Event>) {
    forall i :: 0 <= i < |es| ==> !es[i].TimeOut?
  }

  function Dropped(s: Sys): seq<int> {
    if s.sub.Joined? then s.sub.dropped else []
  }

  lemma {:induction false} RunInv(s: Sys, es: seq<Event>)
    requires Inv(s) && Possible(s, es)
    ensures Inv(After(s, es))
    ensures Dropped(s) == [] ==> (Dropped(After(s, es)) == [] <==> NoTimeOut(es))
    ensures |Dropped(s)| <= |Dropped(After(s, es))|
    decreases |es|
  {
    hide Inv;
    if es != [] {
      StepInv(s, es[0]);
      RunInv(Apply(s, es[0]), es[1..]);
      assert NoTimeOut(es) <==> !es[0].TimeOut? && NoTimeOut(es[1..]);
      DropsGrow(s, es[0]);
    }
  }

  lemma DropsGrow(s: Sys, e: Event)
    requires Enabled(s, e)
    ensures |Dropped(Apply(s, e))| == |Dropped(s)| + if e.TimeOut? then 1 else 0
  {
  }

  /** Dropping nothing is the only way to deliver everything. */
  lemma {:induction false} DeliveredAll(chunks: seq<Chunk>, from: nat, dropped: seq<int>)
    requires from <= |chunks|
    ensures |Delivered(chunks, from, dropped)| <= |chunks| - from
    ensures Delivered(chunks, from, dropped) == chunks[from..] <==> forall i :: from <= i < |chunks| ==> i !in dropped
    decreases |chunks|
  {
    var last := |chunks| - 1;
    if from <= last {
      var head := Delivered(chunks[..last], from, dropped);
      DeliveredAll(chunks[..last], from, dropped);
      assert chunks[from..] == chunks[..last][from..] + [chunks[last]];
      if last !in dropped && Delivered(chunks, from, dropped) == chunks[from..] {
        assert head == Delivered(chunks, from, dropped)[..|head|];
        assert head == chunks[..last][from..];
      }
    }
  }

  /**
   Whenever "finished" is sent: the snapshot is the end of the log at the join,
   the client has received every later chunk whose send did not time out, once
   and in order, and it has received all of them if and only if none did.
   */
  lemma NothingMissedAfterJoin(es: seq<Event>)
    requires Possible(INIT, es)
    requires var s := After(INIT, es); s.sub.Joined? && s.sub.phase.Finished?
    ensures var s := After(INIT, es);
            && s.sub.from <= s.sub.joined <= s.sub.from + 1 && s.sub.joined <= |s.chunks|
            && s.sub.snapshot == Suffix(Flatten(s.chunks[..s.sub.joined]), LOG_BUFFER_SIZE)
            && s.sub.received == Delivered(s.chunks, s.sub.from, s.sub.dropped)
            && (s.sub.received == s.chunks[s.sub.from..] <==> NoTimeOut(es))
  {
    hide Flatten, Possible, After;
    RunInv(INIT, es);
    var s := After(INIT, es);
    var sub := s.sub;
    assert sub.received + [] + [] == sub.received;
    DeliveredAll(s.chunks, sub.from, sub.dropped);
    if sub.dropped != [] {
      var i := sub.dropped[0];
      assert i in sub.dropped && sub.from <= i < |s.chunks|;
    }
  }

  /** Everything the client was sent before "finished". */
  function Sent(sub: Subscriber): seq<byte>
    requires sub.Joined?
  {
    sub.snapshot + Flatten(sub.received)
  }

  /**
   Without a timed-out send the client has received the whole log, wherever
   the join fell: the log up to some chunk boundary and then everything from
   there, or from one chunk earlier when that chunk was in flight.
   */
  lemma JoinMissesNothing(es: seq<Event>)
    requires Possible(INIT, es) && NoTimeOut(es)
    requires var s := After(INIT, es); s.sub.Joined? && s.sub.phase.Finished?
    requires |Flatten(After(INIT, es).chunks)| <= LOG_BUFFER_SIZE
    ensures var s := After(INIT, es);
            var j, k := s.sub.joined, s.sub.from;
            && s.writer.Closed?
            && k <= j <= k + 1 && j <= |s.chunks|
            && Sent(s.sub) == Flatten(s.chunks[..j]) + Flatten(s.chunks[k..])
            && Flatten(s.chunks) == Flatten(s.chunks[..j]) + Flatten(s.chunks[j..])
  {
    RunInv(INIT, es);
    NothingMissedAfterJoin(es);
    var s := After(INIT, es);
    var j := s.sub.joined;
    hide Flatten, Delivered;
    assert s.chunks == s.chunks[..j] + s.chunks[j..];
    FlattenAppend(s.chunks[..j], s.chunks[j..]);
  }
}
