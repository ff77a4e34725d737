/** Which clocks can strand a workflow in backoff: the waiting and leaving of a processor in remote/api/workflow_queue.go. */
module WorkflowClocks {
  import opened Common
  import opened WorkflowStores
  import opened WorkflowQueue
  import opened WorkflowCancels

  /** A queued workflow that nobody will look at: no processor, and no caller due to start one. */
  predicate Stranded(s: Sys) {
    HasStatus(s.ws, Queued) && s.due == 0 && forall n :: 0 <= n < |s.procs| ==> s.procs[n].Gone?
  }

  predicate Nondecreasing(readings: seq<int>) {
    forall i, j :: 0 <= i < j < |readings| ==> readings[i] <= readings[j]
  }

  /** Whoever is stranded has seen the clock cross the end of its backoff four times. */
  lemma StrandedHasSwung(s: Sys, readings: seq<int>) returns (instant: int)
    requires Holds(s, readings) && Stranded(s)
    ensures Swings(readings, 0, instant) == 4
  {
    var i :| 0 <= i < |s.ws| && s.ws[i].status == Queued;
    assert Current(s).Gone?;
    instant := s.ws[i].notBefore.value;
    AtMostFour(readings, 0, instant);
  }

  lemma {:induction false} AtMostFour(readings: seq<int>, z: nat, instant: int)
    requires z <= 4
    ensures Swings(readings, z, instant) <= 4
  {
    if readings != [] {
      AtMostFour(readings[1..], Swing(z, readings[0], instant), instant);
    }
  }

  lemma {:induction false} SteadyClockCrossesOnce(readings: seq<int>, instant: int)
    requires Nondecreasing(readings)
    ensures Swings(readings, 0, instant) <= 2
    ensures Swings(readings, 0, instant) == 2 ==> readings != [] && readings[|readings| - 1] >= instant
    decreases |readings|
  {
    if readings != [] {
      var before, last := readings[..|readings| - 1], readings[|readings| - 1];
      SteadyClockCrossesOnce(before, instant);
      assert readings == before + [last];
      OneMoreReading(before, last, 0, instant);
    }
  }

  /**
   No queued workflow, in backoff or not, is ever stranded while the clock does
   not go back: the project has an active processor or a caller that has still
   to call Enqueue.
   */
  lemma NeverStranded(s0: Sys, es: seq<Event>)
    requires Init(s0) && Possible(s0, es) && Nondecreasing(Readings([s0.clock], es))
    ensures !Stranded(After(s0, es))
  {
    HoldsInRuns(s0, es);
    if Stranded(After(s0, es)) {
      var instant := StrandedHasSwung(After(s0, es), Readings([s0.clock], es));
      SteadyClockCrossesOnce(Readings([s0.clock], es), instant);
    }
  }

  // ---------------------------------------------------------------------
  // Which clocks strand
  // ---------------------------------------------------------------------

  /** The clock is read low, high, low and high again, both lows below both highs. */
  predicate SwingsTwice(readings: seq<int>) {
    exists a, b, c, d :: 0 <= a < b < c < d < |readings| && TwoSwings(readings, a, b, c, d)
  }

  predicate TwoSwings(readings: seq<int>, a: nat, b: nat, c: nat, d: nat)
    requires a < b < c < d < |readings|
  {
    Max(readings[a], readings[c]) < Min(readings[b], readings[d])
  }

  function Max(a: int, b: int): int {
    if a >= b then a else b
  }

  /** The reading at which the `z`-th crossing happened. */
  lemma {:induction false} CrossingAt(readings: seq<int>, instant: int, z: nat) returns (i: nat)
    requires 0 < z <= Swings(readings, 0, instant) && z <= 4
    ensures i < |readings| && Swings(readings[..i], 0, instant) == z - 1
    ensures if z % 2 == 1 then readings[i] < instant else readings[i] >= instant
    decreases |readings|
  {
    var before, last := readings[..|readings| - 1], readings[|readings| - 1];
    assert readings == before + [last];
    OneMoreReading(before, last, 0, instant);
    if z <= Swings(before, 0, instant) {
      i := CrossingAt(before, instant, z);
      assert readings[..i] == before[..i];
    } else {
      i := |before|;
    }
  }

  lemma SwungMeansSwingsTwice(readings: seq<int>, instant: int)
    requires Swings(readings, 0, instant) == 4
    ensures SwingsTwice(readings)
  {
    var d := CrossingAt(readings, instant, 4);
    var c := CrossingAt(readings[..d], instant, 3);
    assert readings[..d][..c] == readings[..c];
    var b := CrossingAt(readings[..c], instant, 2);
    assert readings[..c][..b] == readings[..b];
    var a := CrossingAt(readings[..b], instant, 1);
    assert TwoSwings(readings, a, b, c, d);
  }

  /** After `z` crossings, one more reading on the other side makes it more than `z`. */
  lemma SwingsGrow(readings: seq<int>, instant: int, i: nat, z: nat)
    requires i < |readings| && z < 4 && Swings(readings[..i], 0, instant) >= z
    requires if z % 2 == 0 then readings[i] < instant else readings[i] >= instant
    ensures forall j :: i < j <= |readings| ==> Swings(readings[..j], 0, instant) >= z + 1
  {
    assert readings[..i + 1] == readings[..i] + [readings[i]];
    OneMoreReading(readings[..i], readings[i], 0, instant);
    for j := i + 1 to |readings|
      invariant forall m :: i < m <= j ==> Swings(readings[..m], 0, instant) >= z + 1
    {
      assert readings[..j + 1] == readings[..j] + [readings[j]];
      OneMoreReading(readings[..j], readings[j], 0, instant);
    }
  }

  lemma SwingsTwiceMeansSwung(readings: seq<int>) returns (instant: int)
    requires SwingsTwice(readings)
    ensures Swings(readings, 0, instant) == 4
  {
    var a, b, c, d :| 0 <= a < b < c < d < |readings| && TwoSwings(readings, a, b, c, d);
    instant := Min(readings[b], readings[d]);
    SwingsGrow(readings, instant, a, 0);
    SwingsGrow(readings, instant, b, 1);
    SwingsGrow(readings, instant, c, 2);
    SwingsGrow(readings, instant, d, 3);
    assert readings[..|readings|] == readings;
    AtMostFour(readings, 0, instant);
  }

  function Backoff(instant: int): Workflow {
    Workflow("w", "p", "tasks/t", map[], Queued, 0, None, None, "", None, Some(instant), "", false)
  }

  /** The only processor, on its way out after `z` crossings of the instant. */
  function Leaving(instant: int, clock: int, z: nat): Sys {
    Alone(Backoff(instant), clock,
          if z == 0 then Pick else if z == 1 then CheckWaiting else if z == 2 then LockedNext
          else if z == 3 then LockedWaiting else Gone)
  }

  /** A crossing lets the processor take its next step towards the exit. */
  lemma CrossingStep(instant: int, clock: int, z: nat, rest: seq<Event>) returns (es: seq<Event>)
    requires z < 4 && Swing(z, clock, instant) == z + 1 && Possible(Leaving(instant, clock, z + 1), rest)
    ensures Possible(Leaving(instant, clock, z), es)
    ensures After(Leaving(instant, clock, z), es) == After(Leaving(instant, clock, z + 1), rest)
    ensures forall before :: Readings(before, es) == Readings(before, rest)
  {
    var s, t := Leaving(instant, clock, z), Leaving(instant, clock, z + 1);
    var w := Backoff(instant);
    assert s.ws[0] == w && s.ws[1..] == [];
    if z == 1 {
      var mid := s.(procs := [Locking]);
      First(mid, Step(0), t, rest);
      First(s, Step(0), mid, [Step(0)] + rest);
      es := [Step(0)] + ([Step(0)] + rest);
    } else if z == 3 {
      var mid := s.(procs := [LockedExit]);
      First(mid, Step(0), t, rest);
      First(s, Step(0), mid, [Step(0)] + rest);
      es := [Step(0)] + ([Step(0)] + rest);
    } else {
      First(s, Step(0), t, rest);
      es := [Step(0)] + rest;
    }
  }

  /** The processor leaves the workflow behind while the clock runs through the given readings. */
  lemma {:induction false} LeavesBehind(instant: int, readings: seq<int>, z: nat) returns (es: seq<Event>)
    requires readings != [] && z <= 4 && Swings(readings, z, instant) == 4
    ensures Possible(Leaving(instant, readings[0], z), es)
    ensures Readings([readings[0]], es) == readings
    ensures exists clock :: After(Leaving(instant, readings[0], z), es) == Leaving(instant, clock, 4)
    decreases |readings|
  {
    var clock := readings[0];
    var z' := Swing(z, clock, instant);
    var rest: seq<Event> := [];
    if |readings| > 1 {
      var later := LeavesBehind(instant, readings[1..], z');
      First(Leaving(instant, clock, z'), Clock(readings[1]), Leaving(instant, readings[1], z'), later);
      rest := [Clock(readings[1])] + later;
      assert [clock] + [readings[1]] == [clock, readings[1]];
      ReadingsAppend([clock], [readings[1]], later);
      assert [clock] + readings[1..] == readings;
    } else {
      assert readings == [clock] && readings[1..] == [];
    }
    if z' > z {
      es := CrossingStep(instant, clock, z, rest);
    } else {
      es := rest;
    }
  }

  lemma {:induction false} ReadingsAppend(a: seq<int>, b: seq<int>, es: seq<Event>)
    ensures Readings(a + b, es) == a + Readings(b, es)
    decreases |es|
  {
    if es != [] {
      assert es[0].Clock? ==> (a + b) + [es[0].now] == a + (b + [es[0].now]);
      ReadingsAppend(a, Read(b, es[0]), es[1..]);
    }
  }

  ghost predicate StrandingRun(s0: Sys, es: seq<Event>, readings: seq<int>) {
    Init(s0) && Possible(s0, es) && Readings([s0.clock], es) == readings && Stranded(After(s0, es))
  }

  lemma Stranding(readings: seq<int>, instant: int) returns (s0: Sys, es: seq<Event>)
    requires readings != [] && Swings(readings, 0, instant) == 4
    ensures StrandingRun(s0, es, readings)
  {
    var rest := LeavesBehind(instant, readings, 0);
    s0, es := ToPick(Backoff(instant), readings[0], rest);
    var end :| After(s0, es) == Leaving(instant, end, 4);
    assert After(s0, es).ws[0].status == Queued;
  }

  /**
   Which clocks can strand a workflow: there is a run with the given readings
   that leaves one behind if and only if the clock swings twice across one
   instant, from below to it or above, back, and up to it again.
   */
  lemma StrandsIffClockSwingsTwice(readings: seq<int>)
    requires readings != []
    ensures (exists s0, es :: StrandingRun(s0, es, readings)) <==> SwingsTwice(readings)
  {
    if s0, es :| StrandingRun(s0, es, readings) {
      HoldsInRuns(s0, es);
      var instant := StrandedHasSwung(After(s0, es), readings);
      SwungMeansSwingsTwice(readings, instant);
    }
    if SwingsTwice(readings) {
      var instant := SwingsTwiceMeansSwung(readings);
      var s0, es := Stranding(readings, instant);
    }
  }

  /** A clock that is set back and reaches the end of the backoff again strands; one that stays back does not. */
  lemma ClockSetBackStrands()
    ensures exists s0, es :: StrandingRun(s0, es, [0, 10, 0, 10])
    ensures !exists s0, es :: StrandingRun(s0, es, [0, 10, 0])
  {
    assert TwoSwings([0, 10, 0, 10], 0, 1, 2, 3);
    StrandsIffClockSwingsTwice([0, 10, 0, 10]);
    StrandsIffClockSwingsTwice([0, 10, 0]);
  }
}
