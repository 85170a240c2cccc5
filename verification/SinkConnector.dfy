/**
 The video sink of lib/media/media.cpp as a listener of a frame pipe: it keeps the frame it shows
 and releases it only when the next one has arrived.
 */
module VideoSink {
  import opened Common
  import opened MediaPipe
  import opened PipeProtocol

  // The initial pipe index: -1 as an unsigned 64-bit number.
  const NO_FRAME: nat := SIZE_MAX

  datatype Connector = Connector(current: nat, prev: nat)

  // The callback up to the release, and the release with the swap after it.
  function Entered(c: Connector, index: nat): Connector {
    c.(current := index)
  }

  function Left(c: Connector): (Connector, Option<nat>) {
    (Connector(c.prev, c.current), if c.prev == NO_FRAME then None else Some(c.prev))
  }

  class SinkConnector {
    var current: nat
    var prev: nat

    function State(): Connector
      reads this
    {
      Connector(current, prev)
    }

    constructor ()
      ensures State() == Connector(NO_FRAME, NO_FRAME)
    {
      current, prev := NO_FRAME, NO_FRAME;
    }

    method OnFrame(index: nat) returns (released: Option<nat>)
      modifies this
      ensures (State(), released) == Left(Entered(old(State()), index))
      ensures prev == index && current == old(prev)
      ensures released == if old(prev) == NO_FRAME then None else Some(old(prev))
    {
      released := None;
      current := index;
      if prev != NO_FRAME {
        released := Some(prev);
      }
      prev, current := current, prev;
    }
  }

  // The callback runs inside the delivery loop, which waits for it; everybody else goes on.
  datatype State = State(
    sys: System,
    sink: Connector,
    inCallback: bool,
    frames: seq<nat>,     // delivered to the sink
    released: seq<nat>)   // released by the sink

  datatype SinkStep = Enter | Leave | Other(step: Step)

  function Start(size: nat): State {
    State(Initial(size), Connector(NO_FRAME, NO_FRAME), false, [], [])
  }

  predicate CanStep(s: State, step: SinkStep, me: int) {
    match step
    case Enter => !s.inCallback && Enabled(s.sys, Call(me))
    case Leave => s.inCallback
    case Other(o) => StepOfOthers(o, me) && Enabled(s.sys, o) && (s.inCallback ==> !o.Call? && !o.EndDelivery?)
  }

  function Do(s: State, step: SinkStep, me: int): State
    requires CanStep(s, step, me)
  {
    match step
    case Enter =>
      var slot := s.sys.delivery.value.slot;
      s.(sys := Apply(s.sys, Call(me)), sink := Entered(s.sink, slot), inCallback := true, frames := s.frames + [slot])
    case Leave =>
      var (sink, released) := Left(s.sink);
      var t := s.(sink := sink, inCallback := false);
      (match released
       case Some(slot) => t.(sys := Releasing(s.sys, slot, me), released := s.released + [slot])
       case None => t)
    case Other(o) => s.(sys := Apply(s.sys, o))
  }

  predicate Legal(s: State, steps: seq<SinkStep>, me: int)
    decreases |steps|
  {
    steps == [] || (CanStep(s, steps[0], me) && Legal(Do(s, steps[0], me), steps[1..], me))
  }

  function Run(s: State, steps: seq<SinkStep>, me: int): State
    requires Legal(s, steps, me)
    decreases |steps|
  {
    if steps == [] then s else Run(Do(s, steps[0], me), steps[1..], me)
  }

  function Shown(s: State): nat {
    |s.frames| - (if s.inCallback && |s.frames| > 0 then 1 else 0)
  }

  // What the sink holds: the frame it shows and, inside a callback, the new one.
  function Holds(s: State): set<nat> {
    (if s.sink.prev == NO_FRAME then {} else {s.sink.prev}) + (if s.inCallback then {s.sink.current} else {})
  }

  ghost predicate SinkInv(s: State, me: int) {
    && Inv(s.sys)
    && |s.sys.pipe.slots| <= NO_FRAME
    && Outstanding(s.sys, me) == Holds(s)
    && (s.inCallback ==> |s.frames| > 0 && s.frames[|s.frames| - 1] == s.sink.current != s.sink.prev)
    && (s.sink.prev == NO_FRAME <==> Shown(s) == 0)
    && (Shown(s) > 0 ==> s.frames[Shown(s) - 1] == s.sink.prev && s.released == s.frames[..Shown(s) - 1])
    && (Shown(s) == 0 ==> s.released == [])
  }

  lemma StepKeepsSinkInv(s: State, step: SinkStep, me: int)
    requires SinkInv(s, me) && CanStep(s, step, me)
    ensures SinkInv(Do(s, step, me), me)
  {
    match step
    case Enter => EnterKeepsSinkInv(s, me);
    case Leave => LeaveKeepsSinkInv(s, me);
    case Other(o) => OtherKeepsSinkInv(s, o, me);
  }

  lemma EnterKeepsSinkInv(s: State, me: int)
    requires SinkInv(s, me) && CanStep(s, Enter, me)
    ensures SinkInv(Do(s, Enter, me), me)
  {
    CallAddsOutstanding(s.sys, me);
    StepInv(s.sys, Call(me));
  }

  lemma LeaveKeepsSinkInv(s: State, me: int)
    requires SinkInv(s, me) && CanStep(s, Leave, me)
    ensures SinkInv(Do(s, Leave, me), me)
  {
    ReleaseDropsOutstanding(s.sys, s.sink.prev, me);
    if s.sink.prev != NO_FRAME { StepInv(s.sys, Release(s.sink.prev, me)); }
  }

  lemma OtherKeepsSinkInv(s: State, o: Step, me: int)
    requires SinkInv(s, me) && CanStep(s, Other(o), me)
    ensures SinkInv(Do(s, Other(o), me), me)
  {
    OthersKeepOutstanding(s.sys, o, me);
    StepInv(s.sys, o);
  }

  lemma {:induction false} RunKeepsSinkInv(s: State, steps: seq<SinkStep>, me: int)
    requires SinkInv(s, me) && Legal(s, steps, me)
    ensures SinkInv(Run(s, steps, me), me)
    decreases |steps|
  {
    if steps != [] {
      StepKeepsSinkInv(s, steps[0], me);
      RunKeepsSinkInv(Do(s, steps[0], me), steps[1..], me);
    }
  }

  /** After k frames the sink has released frames 1 to k-1 in order and once each, every release is
      one the pipe owed it, and it holds one slot between frames and at most two inside a callback. */
  lemma SinkMeetsItsObligation(size: nat, steps: seq<SinkStep>, me: int)
    requires size <= NO_FRAME && Legal(Start(size), steps, me)
    ensures var t := Run(Start(size), steps, me);
            && Outstanding(t.sys, me) == Holds(t)
            && |Holds(t)| <= (if t.inCallback then 2 else 1)
            && (!t.inCallback ==> t.released == if |t.frames| == 0 then [] else t.frames[..|t.frames| - 1])
            && (t.inCallback && t.sink.prev != NO_FRAME ==> Enabled(t.sys, Release(t.sink.prev, me)))
  {
    InitialInv(size);
    assert Outstanding(Initial(size), me) == {};
    RunKeepsSinkInv(Start(size), steps, me);
    var t := Run(Start(size), steps, me);
    ReleaseDropsOutstanding(t.sys, t.sink.prev, me);
  }
}
