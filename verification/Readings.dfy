/**
 The batching of read counters in lib/network/controllers/groupcontroller.cpp: a raised counter is
 stored at once and reported to the server when a one-shot timer fires.
 */
module Readings {
  const TWO_31: int := 0x8000_0000
  const TWO_32: int := 0x1_0000_0000
  const TWO_64: int := 0x1_0000_0000_0000_0000

  type Size = n: int | 0 <= n < TWO_64

  // A count goes into the model as an unsigned 32-bit number and is kept as an int.
  function Stored(count: Size): (n: int)
    ensures -TWO_31 <= n < TWO_31 && (count - n) % TWO_32 == 0
  {
    if count % TWO_32 < TWO_31 then count % TWO_32 else count % TWO_32 - TWO_32
  }

  // An int compared with a size_t is taken modulo 2^64.
  function AsSize(n: int): (r: Size)
    requires -TWO_31 <= n < TWO_31
    ensures r == n || (n < 0 && r == n + TWO_64)
  {
    if n < 0 then n + TWO_64 else n
  }

  predicate Ints(readings: map<int, int>) {
    forall room :: room in readings ==> -TWO_31 <= readings[room] < TWO_31
  }

  datatype Batch = Batch(readings: map<int, int>, queue: seq<int>, timerActive: bool)

  predicate Raises(b: Batch, room: int, count: Size) {
    room in b.readings && -TWO_31 <= b.readings[room] < TWO_31 && AsSize(b.readings[room]) < count
  }

  function Submitted(b: Batch, room: int, count: Size): Batch {
    if Raises(b, room, count) then Batch(b.readings[room := Stored(count)], b.queue + [room], true) else b
  }

  // The calls that a drain makes: room and count.
  function Reports(readings: map<int, int>, queue: seq<int>): seq<(int, int)> {
    if queue == [] then []
    else if queue[0] in readings then [(queue[0], readings[queue[0]])] + Reports(readings, queue[1..])
    else Reports(readings, queue[1..])
  }

  class CallerController {
    var localReadings: map<int, int>
    var readingsUpdateQueue: seq<int>
    var timerActive: bool

    function State(): Batch
      reads this
    {
      Batch(localReadings, readingsUpdateQueue, timerActive)
    }

    constructor (readings: map<int, int>)
      ensures State() == Batch(readings, [], false)
    {
      localReadings, readingsUpdateQueue, timerActive := readings, [], false;
    }

    method SetLocalReadings(room: int, count: Size) returns (known: bool)
      requires Ints(localReadings)
      modifies this
      ensures known == (room in old(localReadings))
      ensures State() == Submitted(old(State()), room, count)
      ensures forall r :: r in localReadings <==> r in old(localReadings)
      ensures forall r :: r in localReadings && r != room ==> localReadings[r] == old(localReadings)[r]
      ensures var raises := known && AsSize(old(localReadings)[room]) < count;
              && (raises ==> localReadings[room] == Stored(count) && timerActive)
              && (!raises ==> State() == old(State()))
              && readingsUpdateQueue == old(readingsUpdateQueue) + (if raises then [room] else [])
    {
      if room !in localReadings {
        return false;
      }
      if AsSize(localReadings[room]) >= count {
        return true;
      }
      localReadings := localReadings[room := Stored(count)];
      readingsUpdateQueue := readingsUpdateQueue + [room];
      if !timerActive {
        timerActive := true;
      }
      return true;
    }

    method OnTimeout() returns (reports: seq<(int, int)>)
      modifies this`readingsUpdateQueue, this`timerActive
      ensures State() == Batch(localReadings, [], false)
      ensures reports == Reports(localReadings, old(readingsUpdateQueue))
    {
      timerActive := false;
      reports := [];
      ghost var all := Reports(localReadings, readingsUpdateQueue);
      while |readingsUpdateQueue| > 0
        invariant !timerActive && reports + Reports(localReadings, readingsUpdateQueue) == all
        decreases |readingsUpdateQueue|
      {
        var room := readingsUpdateQueue[0];
        ghost var rest := Reports(localReadings, readingsUpdateQueue[1..]);
        if room in localReadings {
          assert reports + ([(room, localReadings[room])] + rest) == reports + [(room, localReadings[room])] + rest;
          reports := reports + [(room, localReadings[room])];
        }
        readingsUpdateQueue := readingsUpdateQueue[1..];
      }
    }
  }

  /** A count that raises a counter is stored as submitted exactly when it fits an int; the next one
      past that is stored as the least int, and nothing up to 2^64 - 2^31 raises it again. */
  lemma StoredAsSubmitted(b: Batch, room: int, count: Size)
    requires Raises(b, room, count)
    ensures Submitted(b, room, count).readings[room] == count <==> count < TWO_31
    ensures count < TWO_31 && b.readings[room] >= 0 ==> Submitted(b, room, count).readings[room] > b.readings[room]
    ensures count == TWO_31 ==>
              Submitted(b, room, count).readings[room] == -TWO_31 &&
              forall later: Size :: later <= TWO_64 - TWO_31 ==> !Raises(Submitted(b, room, count), room, later)
  {
  }

  // ----- Runs; `server` is the last count each room was reported with -----

  datatype State = State(batch: Batch, server: map<int, int>)

  datatype Step = Submit(room: int, count: Size) | TimerFires

  function Reported(server: map<int, int>, reports: seq<(int, int)>): map<int, int>
    decreases |reports|
  {
    if reports == [] then server
    else Reported(server[reports[0].0 := reports[0].1], reports[1..])
  }

  function Start(readings: map<int, int>): State {
    State(Batch(readings, [], false), readings)
  }

  // A one-shot timer fires only while it is active.
  predicate Enabled(s: State, step: Step) {
    step.TimerFires? ==> s.batch.timerActive
  }

  function Do(s: State, step: Step): State
    requires Enabled(s, step)
  {
    match step
    case Submit(room, count) => s.(batch := Submitted(s.batch, room, count))
    case TimerFires =>
      State(Batch(s.batch.readings, [], false), Reported(s.server, Reports(s.batch.readings, s.batch.queue)))
  }

  predicate Legal(s: State, steps: seq<Step>)
    decreases |steps|
  {
    steps == [] || (Enabled(s, steps[0]) && Legal(Do(s, steps[0]), steps[1..]))
  }

  function Run(s: State, steps: seq<Step>): State
    requires Legal(s, steps)
    decreases |steps|
  {
    if steps == [] then s else Run(Do(s, steps[0]), steps[1..])
  }

  // The largest of the initial count and those submitted for the room.
  function Highest(initial: int, steps: seq<Step>, room: int): int
    decreases |steps|
  {
    if steps == [] then initial
    else
      Highest(if steps[0].Submit? && steps[0].room == room && steps[0].count > initial then steps[0].count else initial,
              steps[1..], room)
  }

  predicate Fits(step: Step, room: int) {
    step.Submit? && step.room == room ==> step.count < TWO_31
  }

  predicate FitInts(steps: seq<Step>, room: int) {
    forall i :: 0 <= i < |steps| ==> Fits(steps[i], room)
  }

  // At every point of the run the counter is the largest count so far.
  predicate AlwaysHighest(s: State, steps: seq<Step>, room: int, highest: int)
    requires Legal(s, steps)
    decreases |steps|
  {
    && room in s.batch.readings && s.batch.readings[room] == highest
    && (steps == [] || AlwaysHighest(Do(s, steps[0]), steps[1..], room, Highest(highest, steps[..1], room)))
  }

  ghost predicate Inv(s: State, room: int) {
    && room in s.batch.readings && 0 <= s.batch.readings[room] < TWO_31
    && s.server.Keys == s.batch.readings.Keys
    && (s.batch.queue != [] ==> s.batch.timerActive)
    && (room !in s.batch.queue ==> s.server[room] == s.batch.readings[room])
  }

  lemma {:induction false} ReportedAt(server: map<int, int>, readings: map<int, int>, queue: seq<int>, room: int)
    requires server.Keys == readings.Keys
    ensures var after := Reported(server, Reports(readings, queue));
            && after.Keys == readings.Keys
            && (room in readings ==> after[room] == if room in queue then readings[room] else server[room])
    decreases |queue|
  {
    if queue != [] {
      var first := queue[0];
      if first in readings {
        var reports := Reports(readings, queue);
        assert reports[0] == (first, readings[first]) && reports[1..] == Reports(readings, queue[1..]);
        ReportedAt(server[first := readings[first]], readings, queue[1..], room);
      } else {
        assert Reports(readings, queue) == Reports(readings, queue[1..]);
        ReportedAt(server, readings, queue[1..], room);
      }
    }
  }

  lemma StepInv(s: State, step: Step, room: int)
    requires Inv(s, room) && Enabled(s, step)
    ensures room in Do(s, step).batch.readings
    ensures Do(s, step).batch.readings[room] == Highest(s.batch.readings[room], [step], room) <==> Fits(step, room)
    ensures Fits(step, room) ==> Inv(Do(s, step), room)
  {
    assert Highest(s.batch.readings[room], [step], room) ==
           if step.Submit? && step.room == room && step.count > s.batch.readings[room] then step.count
           else s.batch.readings[room];
    if step.TimerFires? {
      ReportedAt(s.server, s.batch.readings, s.batch.queue, room);
    }
  }

  lemma {:induction false} RunInv(s: State, steps: seq<Step>, room: int)
    requires Inv(s, room) && Legal(s, steps)
    ensures AlwaysHighest(s, steps, room, s.batch.readings[room]) <==> FitInts(steps, room)
    ensures FitInts(steps, room) ==>
              Inv(Run(s, steps), room) &&
              Run(s, steps).batch.readings[room] == Highest(s.batch.readings[room], steps, room)
    decreases |steps|
  {
    if steps != [] {
      assert steps[..1] == [steps[0]];
      StepInv(s, steps[0], room);
      assert FitInts(steps, room) <==> Fits(steps[0], room) && FitInts(steps[1..], room) by {
        assert forall i :: 1 <= i < |steps| ==> steps[i] == steps[1..][i - 1];
      }
      if Fits(steps[0], room) {
        RunInv(Do(s, steps[0]), steps[1..], room);
        assert Highest(s.batch.readings[room], steps, room) ==
               Highest(Do(s, steps[0]).batch.readings[room], steps[1..], room);
      }
    }
  }

  lemma {:induction false} HighestGrows(initial: int, steps: seq<Step>, room: int)
    ensures Highest(initial, steps, room) >= initial
    ensures forall i :: 0 <= i < |steps| && steps[i].Submit? && steps[i].room == room ==>
              steps[i].count <= Highest(initial, steps, room)
    decreases |steps|
  {
    if steps != [] {
      var raises := steps[0].Submit? && steps[0].room == room && steps[0].count > initial;
      HighestGrows(if raises then steps[0].count else initial, steps[1..], room);
      assert forall i :: 1 <= i < |steps| ==> steps[i] == steps[1..][i - 1];
    }
  }

  /** A room's counter is throughout the largest count submitted for it, exactly when all of those fit
      an int. Then it never falls; anything waiting to be reported has the timer running; and
      once it has fired the server's last count for the room is that largest one. */
  lemma BatchingDeliversTheMaximum(readings: map<int, int>, steps: seq<Step>, room: int)
    requires room in readings && 0 <= readings[room] < TWO_31 && Legal(Start(readings), steps)
    ensures AlwaysHighest(Start(readings), steps, room, readings[room]) <==> FitInts(steps, room)
    ensures FitInts(steps, room) ==>
              var s := Run(Start(readings), steps);
              && room in s.batch.readings
              && s.batch.readings[room] == Highest(readings[room], steps, room) >= readings[room]
              && (s.batch.queue != [] ==> s.batch.timerActive)
              && (Enabled(s, TimerFires) ==>
                    Do(s, TimerFires).batch == Batch(s.batch.readings, [], false) &&
                    room in Do(s, TimerFires).server &&
                    Do(s, TimerFires).server[room] == Highest(readings[room], steps, room))
  {
    RunInv(Start(readings), steps, room);
    HighestGrows(readings[room], steps, room);
    if FitInts(steps, room) {
      var s := Run(Start(readings), steps);
      ReportedAt(s.server, s.batch.readings, s.batch.queue, room);
    }
  }
}
