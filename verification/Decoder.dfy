/**
 The packet callback of lib/media/decoder.cpp: a listener of the packet pipe that writes the
 frame pipe. What the codec answers is an input of the model.
 */
module Decoder {
  import opened Common
  import opened MediaPipe
  import opened PipeProtocol

  // One round of the receive loop: no output slot in time, or the slot held and the codec's answer.
  datatype Outcome =
    | Overflow
    | Frame(slot: nat)
    | Again(slot: nat)
    | EndOfStream(slot: nat)
    | Error(slot: nat)

  // What one packet did: the input slots released, the output slots unmapped with their
  // notification flag, and whether the packet's own slot was dropped on the way.
  datatype Effect = Effect(released: seq<nat>, unmapped: seq<(nat, bool)>, dropped: bool)

  // `_holdingIndex` is a stack: front() reads its bottom and pop() removes its top.
  function Pop(holding: seq<nat>): seq<nat>
    requires holding != []
  {
    holding[..|holding| - 1]
  }

  function DrainReleases(holding: seq<nat>): (r: seq<nat>)
    ensures |r| == |holding|
    ensures forall i :: 0 <= i < |r| ==> r[i] == holding[0]
  {
    if holding == [] then [] else [holding[0]] + DrainReleases(Pop(holding))
  }

  predicate Distinct(s: seq<nat>) {
    forall i, j :: 0 <= i < j < |s| ==> s[i] != s[j]
  }

  /** The drain releases each held slot once exactly when it finds at most one. */
  lemma DrainIsExact(holding: seq<nat>)
    requires Distinct(holding)
    ensures multiset(DrainReleases(holding)) == multiset(holding) <==> |holding| <= 1
  {
    var r := DrainReleases(holding);
    if |holding| == 1 {
      assert r == holding;
    } else if |holding| >= 2 {
      assert holding[1] in multiset(holding);
      assert holding[1] !in r;
    }
  }

  // Two held slots: the bottom one goes back twice and the other never.
  lemma DrainOfTwo(a: nat, b: nat)
    requires a != b
    ensures DrainReleases([a, b]) == [a, a]
  {
    assert Pop([a, b]) == [a];
  }

  // The rounds end with the first answer that is not a frame.
  predicate Rounds(rounds: seq<Outcome>) {
    |rounds| > 0 && forall i :: 0 <= i < |rounds| ==> (rounds[i].Frame? <==> i < |rounds| - 1)
  }

  predicate DecodesAFrame(rounds: seq<Outcome>) {
    |rounds| > 1
  }

  class AbstractDecoder {
    var holdingIndex: seq<nat>

    constructor ()
      ensures holdingIndex == []
    {
      holdingIndex := [];
    }

    method DrainHeld() returns (released: seq<nat>)
      modifies this
      ensures released == DrainReleases(old(holdingIndex)) && holdingIndex == []
    {
      released := [];
      while |holdingIndex| > 0
        invariant released + DrainReleases(holdingIndex) == DrainReleases(old(holdingIndex))
        decreases |holdingIndex|
      {
        released := released + [holdingIndex[0]];
        holdingIndex := Pop(holdingIndex);
      }
    }

    /** Every output slot taken is unmapped once and at once, with a notification just for frames;
        the packet's own slot is released at once when it is refused, held when the codec wants
        more, and otherwise dropped; the first frame drains what was held. */
    method OnPacket(index: nat, accepted: bool, rounds: seq<Outcome>) returns (e: Effect)
      requires Rounds(rounds)
      modifies this
      ensures !accepted ==> e == Effect([index], [], false) && holdingIndex == old(holdingIndex)
      ensures accepted ==> e.released == if DecodesAFrame(rounds) then DrainReleases(old(holdingIndex)) else []
      ensures accepted ==> |e.unmapped| == |rounds| - (if rounds[|rounds| - 1].Overflow? then 1 else 0)
      ensures forall i :: 0 <= i < |e.unmapped| ==>
                i < |rounds| && !rounds[i].Overflow? && e.unmapped[i] == (rounds[i].slot, rounds[i].Frame?)
      ensures accepted ==> e.dropped == (rounds[|rounds| - 1].Overflow? || rounds[|rounds| - 1].Error?)
      ensures accepted ==> holdingIndex == (if DecodesAFrame(rounds) then [] else old(holdingIndex))
                                         + (if e.dropped then [] else [index])
    {
      e := Effect([], [], false);
      if !accepted {
        e := Effect([index], [], false);
        return;
      }
      var k := 0;
      while true
        invariant k < |rounds|
        invariant holdingIndex == if k == 0 then old(holdingIndex) else []
        invariant e.released == if k == 0 then [] else DrainReleases(old(holdingIndex))
        invariant !e.dropped && |e.unmapped| == k
        invariant forall i :: 0 <= i < k ==>
                    !rounds[i].Overflow? && e.unmapped[i] == (rounds[i].slot, rounds[i].Frame?)
        decreases |rounds| - k
      {
        if rounds[k].Overflow? {
          e := e.(dropped := true);
          return;
        }
        e := e.(unmapped := e.unmapped + [(rounds[k].slot, rounds[k].Frame?)]);
        if !rounds[k].Frame? {
          if rounds[k].Error? {
            e := e.(dropped := true);
          } else {
            holdingIndex := holdingIndex + [index];
          }
          return;
        }
        var drained := DrainHeld();
        e := e.(released := e.released + drained);
        k := k + 1;
      }
    }
  }

  // ----- The decoder on a shared packet pipe, interleaved with everybody else -----

  // Where the pool's one worker stands with the packet whose slot is `index`.
  datatype Worker =
    | Idle
    | Receiving(index: nat)
    | Answering(index: nat, out: nat)   // an output slot is held for the codec
    | Draining(index: nat)

  datatype Answer = GotFrame | WantsMore | Failed

  datatype State = State(
    sys: System,
    holding: seq<nat>,
    worker: Worker,
    queue: seq<nat>,      // packets handed to the pool
    lost: set<nat>,       // slots dropped by an overflow or a decode error
    released: seq<nat>,   // input slots released
    taken: seq<nat>,      // output slots taken
    unmapped: seq<nat>)   // output slots unmapped

  datatype DecoderStep =
    | Deliver
    | Begin(accepted: bool)
    | TakeOutput(slot: nat)
    | OutputOverflow
    | Codec(answer: Answer)
    | DrainOne
    | EndDrain
    | Other(step: Step)

  function Start(size: nat): State {
    State(Initial(size), [], Idle, [], {}, [], [], [])
  }

  predicate CanStep(s: State, step: DecoderStep, me: int) {
    match step
    case Deliver => Enabled(s.sys, Call(me))
    case Begin(_) => s.worker.Idle? && s.queue != []
    case TakeOutput(_) => s.worker.Receiving?
    case OutputOverflow => s.worker.Receiving?
    case Codec(_) => s.worker.Answering?
    case DrainOne => s.worker.Draining? && s.holding != []
    case EndDrain => s.worker.Draining? && s.holding == []
    case Other(o) => StepOfOthers(o, me) && Enabled(s.sys, o)
  }

  function Do(s: State, step: DecoderStep, me: int): State
    requires CanStep(s, step, me)
  {
    match step
    case Deliver => s.(sys := Apply(s.sys, Call(me)), queue := s.queue + [s.sys.delivery.value.slot])
    case Begin(accepted) =>
      if accepted then s.(worker := Receiving(s.queue[0]), queue := s.queue[1..])
      else s.(sys := Releasing(s.sys, s.queue[0], me), queue := s.queue[1..], released := s.released + [s.queue[0]])
    case TakeOutput(slot) => s.(worker := Answering(s.worker.index, slot), taken := s.taken + [slot])
    case OutputOverflow => s.(worker := Idle, lost := s.lost + {s.worker.index})
    case Codec(answer) =>
      var t := s.(unmapped := s.unmapped + [s.worker.out]);
      (match answer
       case GotFrame => t.(worker := Draining(s.worker.index))
       case WantsMore => t.(worker := Idle, holding := s.holding + [s.worker.index])
       case Failed => t.(worker := Idle, lost := s.lost + {s.worker.index}))
    case DrainOne =>
      s.(sys := Releasing(s.sys, s.holding[0], me), holding := Pop(s.holding), released := s.released + [s.holding[0]])
    case EndDrain => s.(worker := Receiving(s.worker.index))
    case Other(o) => s.(sys := Apply(s.sys, o))
  }

  predicate Legal(s: State, steps: seq<DecoderStep>, me: int)
    decreases |steps|
  {
    steps == [] || (CanStep(s, steps[0], me) && Legal(Do(s, steps[0], me), steps[1..], me))
  }

  function Run(s: State, steps: seq<DecoderStep>, me: int): State
    requires Legal(s, steps, me)
    decreases |steps|
  {
    if steps == [] then s else Run(Do(s, steps[0], me), steps[1..], me)
  }

  function InHand(s: State): seq<nat> {
    s.holding + (if s.worker.Idle? then [] else [s.worker.index]) + s.queue
  }

  function Elements(s: seq<nat>): set<nat> {
    set x | x in s
  }

  // Each slot the pipe has delivered and not got back is in one place: held, being decoded,
  // queued, or lost.
  ghost predicate Accounted(s: State, me: int) {
    && Inv(s.sys)
    && Distinct(InHand(s)) && Elements(InHand(s)) !! s.lost
    && Outstanding(s.sys, me) == Elements(InHand(s)) + s.lost
  }

  ghost predicate AlwaysAccounted(s: State, steps: seq<DecoderStep>, me: int)
    requires Legal(s, steps, me)
    decreases |steps|
  {
    Accounted(s, me) && (steps == [] || AlwaysAccounted(Do(s, steps[0], me), steps[1..], me))
  }

  ghost predicate DrainsAtMostOne(s: State, steps: seq<DecoderStep>, me: int)
    requires Legal(s, steps, me)
    decreases |steps|
  {
    steps == [] ||
    ((steps[0] == DrainOne ==> |s.holding| == 1) && DrainsAtMostOne(Do(s, steps[0], me), steps[1..], me))
  }

  lemma WithoutOne(s: seq<nat>, k: nat)
    requires Distinct(s) && k < |s|
    ensures Distinct(s[..k] + s[k + 1..]) && Elements(s[..k] + s[k + 1..]) == Elements(s) - {s[k]}
  {
    var t := s[..k] + s[k + 1..];
    forall x
      ensures x in t <==> x in s && x != s[k]
    {
      if x in s && x != s[k] {
        var i :| 0 <= i < |s| && s[i] == x;
        assert t[if i < k then i else i - 1] == x;
      }
    }
  }

  lemma StepAccounting(s: State, step: DecoderStep, me: int)
    requires Accounted(s, me) && CanStep(s, step, me)
    ensures Accounted(Do(s, step, me), me) <==> (step == DrainOne ==> |s.holding| == 1)
  {
    var t := Do(s, step, me);
    match step
    case Deliver => DeliverAccounting(s, me);
    case Begin(accepted) => BeginAccounting(s, accepted, me);
    case TakeOutput(_) => assert InHand(t) == InHand(s);
    case OutputOverflow => DropKeepsAccount(s, t, me);
    case Codec(answer) => CodecAccounting(s, answer, me);
    case DrainOne => DrainAccounting(s, me);
    case EndDrain => assert InHand(t) == InHand(s);
    case Other(o) => OtherAccounting(s, o, me);
  }

  lemma DeliverAccounting(s: State, me: int)
    requires Accounted(s, me) && CanStep(s, Deliver, me)
    ensures Accounted(Do(s, Deliver, me), me)
  {
    CallAddsOutstanding(s.sys, me);
    StepInv(s.sys, Call(me));
    assert InHand(Do(s, Deliver, me)) == InHand(s) + [s.sys.delivery.value.slot];
  }

  lemma BeginAccounting(s: State, accepted: bool, me: int)
    requires Accounted(s, me) && CanStep(s, Begin(accepted), me)
    ensures Accounted(Do(s, Begin(accepted), me), me)
  {
    var t := Do(s, Begin(accepted), me);
    if accepted {
      assert InHand(t) == InHand(s);
    } else {
      ReleaseKeepsAccount(s, t, |s.holding|, me);
    }
  }

  lemma CodecAccounting(s: State, answer: Answer, me: int)
    requires Accounted(s, me) && CanStep(s, Codec(answer), me)
    ensures Accounted(Do(s, Codec(answer), me), me)
  {
    var t := Do(s, Codec(answer), me);
    if answer == Failed {
      DropKeepsAccount(s, t, me);
    } else {
      assert InHand(t) == InHand(s);
    }
  }

  // The first of two or more held slots goes back and is still held afterwards.
  lemma DrainAccounting(s: State, me: int)
    requires Accounted(s, me) && CanStep(s, DrainOne, me)
    ensures Accounted(Do(s, DrainOne, me), me) <==> |s.holding| == 1
  {
    var t := Do(s, DrainOne, me);
    assert InHand(s)[0] == s.holding[0];
    if |s.holding| == 1 {
      ReleaseKeepsAccount(s, t, 0, me);
    } else {
      ReleaseDropsOutstanding(s.sys, s.holding[0], me);
      assert InHand(t)[0] == s.holding[0];
      assert s.holding[0] in Elements(InHand(t)) && s.holding[0] !in Outstanding(t.sys, me);
    }
  }

  lemma OtherAccounting(s: State, o: Step, me: int)
    requires Accounted(s, me) && CanStep(s, Other(o), me)
    ensures Accounted(Do(s, Other(o), me), me)
  {
    OthersKeepOutstanding(s.sys, o, me);
    StepInv(s.sys, o);
    assert InHand(Do(s, Other(o), me)) == InHand(s);
  }

  lemma ReleaseKeepsAccount(s: State, t: State, k: nat, me: int)
    requires Accounted(s, me) && k < |InHand(s)| && t.lost == s.lost
    requires InHand(t) == InHand(s)[..k] + InHand(s)[k + 1..]
    requires t.sys == Releasing(s.sys, InHand(s)[k], me)
    ensures Accounted(t, me)
  {
    var slot := InHand(s)[k];
    WithoutOne(InHand(s), k);
    ReleaseDropsOutstanding(s.sys, slot, me);
    StepInv(s.sys, Release(slot, me));
  }

  lemma DropKeepsAccount(s: State, t: State, me: int)
    requires Accounted(s, me) && !s.worker.Idle? && t.worker.Idle?
    requires t.sys == s.sys && t.holding == s.holding && t.queue == s.queue
    requires t.lost == s.lost + {s.worker.index}
    ensures Accounted(t, me)
  {
    var k := |s.holding|;
    assert InHand(s)[k] == s.worker.index;
    assert InHand(t) == InHand(s)[..k] + InHand(s)[k + 1..];
    WithoutOne(InHand(s), k);
  }

  lemma {:induction false} RunAccounting(s: State, steps: seq<DecoderStep>, me: int)
    requires Accounted(s, me) && Legal(s, steps, me)
    ensures AlwaysAccounted(s, steps, me) <==> DrainsAtMostOne(s, steps, me)
    decreases |steps|
  {
    if steps != [] {
      var t := Do(s, steps[0], me);
      StepAccounting(s, steps[0], me);
      if Accounted(t, me) { RunAccounting(t, steps[1..], me); }
    }
  }

  /** Over every interleaving, each slot delivered to the decoder stays released, held, queued, being
      decoded or lost, once each, exactly when no drain ever finds more than one held slot. */
  lemma DecoderMeetsItsObligation(size: nat, steps: seq<DecoderStep>, me: int)
    requires Legal(Start(size), steps, me)
    ensures AlwaysAccounted(Start(size), steps, me) <==> DrainsAtMostOne(Start(size), steps, me)
  {
    InitialInv(size);
    assert Outstanding(Initial(size), me) == {};
    RunAccounting(Start(size), steps, me);
  }

  /** A packet delivered joins the queue, and the worker takes the first; one that the codec refuses goes
      straight back to the pipe, neither held nor lost, and the worker is free for the next. */
  lemma PacketInOrBack(s: State, me: int)
    requires Accounted(s, me)
    ensures CanStep(s, Deliver, me) ==>
              var slot, t := s.sys.delivery.value.slot, Do(s, Deliver, me);
              && t == s.(sys := t.sys, queue := s.queue + [slot])
              && Outstanding(t.sys, me) == Outstanding(s.sys, me) + {slot}
    ensures CanStep(s, Begin(true), me) ==>
              Do(s, Begin(true), me) == s.(worker := Receiving(s.queue[0]), queue := s.queue[1..])
    ensures CanStep(s, Begin(false), me) ==>
              var slot, t := s.queue[0], Do(s, Begin(false), me);
              && t == s.(sys := t.sys, queue := s.queue[1..], released := s.released + [slot])
              && slot in Outstanding(s.sys, me) && Outstanding(t.sys, me) == Outstanding(s.sys, me) - {slot}
  {
    if CanStep(s, Deliver, me) { CallAddsOutstanding(s.sys, me); }
    if CanStep(s, Begin(false), me) {
      assert InHand(s)[|s.holding|] == s.queue[0];
      ReleaseDropsOutstanding(s.sys, s.queue[0], me);
    }
  }

  /** Every output slot taken is unmapped once, in order, before the next one is taken. */
  lemma {:induction false} OutputReturned(s: State, steps: seq<DecoderStep>, me: int)
    requires Legal(s, steps, me)
    requires s.taken == s.unmapped + (if s.worker.Answering? then [s.worker.out] else [])
    ensures var t := Run(s, steps, me);
            t.taken == t.unmapped + (if t.worker.Answering? then [t.worker.out] else [])
    decreases |steps|
  {
    if steps != [] {
      OutputReturned(Do(s, steps[0], me), steps[1..], me);
    }
  }

  // ----- The callback as a run of these steps -----

  function RoundSteps(o: Outcome, held: nat): seq<DecoderStep> {
    match o
    case Overflow => [OutputOverflow]
    case Frame(slot) => [TakeOutput(slot), Codec(GotFrame)] + (seq(held, i => DrainOne) + [EndDrain])
    case Again(slot) => [TakeOutput(slot), Codec(WantsMore)]
    case EndOfStream(slot) => [TakeOutput(slot), Codec(WantsMore)]
    case Error(slot) => [TakeOutput(slot), Codec(Failed)]
  }

  function PacketSteps(rounds: seq<Outcome>, held: nat): seq<DecoderStep> {
    if rounds == [] then []
    else RoundSteps(rounds[0], held) + PacketSteps(rounds[1..], if rounds[0].Frame? then 0 else held)
  }

  function SlotsOf(rounds: seq<Outcome>): seq<nat> {
    if rounds == [] then []
    else (if rounds[0].Overflow? then [] else [rounds[0].slot]) + SlotsOf(rounds[1..])
  }

  lemma {:induction false} RunAppend(s: State, a: seq<DecoderStep>, b: seq<DecoderStep>, me: int)
    requires Legal(s, a, me) && Legal(Run(s, a, me), b, me)
    ensures Legal(s, a + b, me) && Run(s, a + b, me) == Run(Run(s, a, me), b, me)
    decreases |a|
  {
    if a == [] {
      assert a + b == b;
    } else {
      assert (a + b)[0] == a[0] && (a + b)[1..] == a[1..] + b;
      RunAppend(Do(s, a[0], me), a[1..], b, me);
    }
  }

  lemma TwoSteps(s: State, a: DecoderStep, b: DecoderStep, me: int)
    requires CanStep(s, a, me) && CanStep(Do(s, a, me), b, me)
    ensures Legal(s, [a, b], me) && Run(s, [a, b], me) == Do(Do(s, a, me), b, me)
  {
    OneStep(Do(s, a, me), b, me);
    assert [a, b][1..] == [b];
  }

  lemma OneStep(s: State, a: DecoderStep, me: int)
    requires CanStep(s, a, me)
    ensures Legal(s, [a], me) && Run(s, [a], me) == Do(s, a, me)
  {
    assert Legal(Do(s, a, me), [a][1..], me);
  }

  lemma {:induction false} DrainSteps(s: State, me: int)
    requires s.worker.Draining?
    ensures var steps := seq(|s.holding|, i => DrainOne) + [EndDrain];
            Legal(s, steps, me) &&
            var t := Run(s, steps, me);
            t == s.(sys := t.sys, holding := [], worker := Receiving(s.worker.index),
                    released := s.released + DrainReleases(s.holding))
    decreases |s.holding|
  {
    var steps := seq(|s.holding|, i => DrainOne) + [EndDrain];
    if s.holding == [] {
      assert steps == [EndDrain];
      assert Legal(Do(s, EndDrain, me), [], me) && steps[1..] == [];
    } else {
      var t := Do(s, DrainOne, me);
      DrainSteps(t, me);
      assert steps[0] == DrainOne;
      assert steps[1..] == seq(|t.holding|, i => DrainOne) + [EndDrain];
      assert s.released + ([s.holding[0]] + DrainReleases(t.holding)) == t.released + DrainReleases(t.holding);
    }
  }

  lemma FrameSteps(s: State, slot: nat, me: int)
    requires s.worker.Receiving?
    ensures var steps := RoundSteps(Frame(slot), |s.holding|);
            Legal(s, steps, me) &&
            var t := Run(s, steps, me);
            t == s.(sys := t.sys, holding := [], released := s.released + DrainReleases(s.holding),
                    taken := s.taken + [slot], unmapped := s.unmapped + [slot])
  {
    TwoSteps(s, TakeOutput(slot), Codec(GotFrame), me);
    var t := Do(Do(s, TakeOutput(slot), me), Codec(GotFrame), me);
    DrainSteps(t, me);
    RunAppend(s, [TakeOutput(slot), Codec(GotFrame)], seq(|s.holding|, i => DrainOne) + [EndDrain], me);
  }

  lemma LastRoundSteps(s: State, o: Outcome, me: int)
    requires s.worker.Receiving? && !o.Frame?
    ensures var steps := RoundSteps(o, |s.holding|);
            var dropped := o.Overflow? || o.Error?;
            var slots := if o.Overflow? then [] else [o.slot];
            Legal(s, steps, me) &&
            Run(s, steps, me) ==
              s.(worker := Idle, holding := s.holding + (if dropped then [] else [s.worker.index]),
                 lost := if dropped then s.lost + {s.worker.index} else s.lost,
                 taken := s.taken + slots, unmapped := s.unmapped + slots)
  {
    match o
    case Overflow =>
      var t := Do(s, OutputOverflow, me);
      assert Legal(t, [], me) && [OutputOverflow][1..] == [];
      assert s.taken + [] == s.taken && s.unmapped + [] == s.unmapped;
    case Again(slot) => TwoSteps(s, TakeOutput(slot), Codec(WantsMore), me);
    case EndOfStream(slot) => TwoSteps(s, TakeOutput(slot), Codec(WantsMore), me);
    case Error(slot) => TwoSteps(s, TakeOutput(slot), Codec(Failed), me);
  }

  // What OnPacket states, of an accepted packet in the worker's hands; `sys` is the pipe afterwards.
  function AfterPacket(s: State, rounds: seq<Outcome>, sys: System): State
    requires s.worker.Receiving? && Rounds(rounds)
  {
    var last := rounds[|rounds| - 1];
    var dropped := last.Overflow? || last.Error?;
    s.(sys := sys, worker := Idle,
       holding := (if DecodesAFrame(rounds) then [] else s.holding) + (if dropped then [] else [s.worker.index]),
       lost := if dropped then s.lost + {s.worker.index} else s.lost,
       released := s.released + (if DecodesAFrame(rounds) then DrainReleases(s.holding) else []),
       taken := s.taken + SlotsOf(rounds), unmapped := s.unmapped + SlotsOf(rounds))
  }

  lemma FrameThenRest(s: State, rounds: seq<Outcome>, t: State, sys: System)
    requires s.worker.Receiving? && Rounds(rounds) && |rounds| > 1
    requires t == s.(sys := t.sys, holding := [], released := s.released + DrainReleases(s.holding),
                     taken := s.taken + [rounds[0].slot], unmapped := s.unmapped + [rounds[0].slot])
    ensures Rounds(rounds[1..]) && AfterPacket(t, rounds[1..], sys) == AfterPacket(s, rounds, sys)
  {
    var rest := rounds[1..];
    assert rest[|rest| - 1] == rounds[|rounds| - 1];
    assert SlotsOf(rounds) == [rounds[0].slot] + SlotsOf(rest);
    assert DrainReleases([]) == [];
  }

  /** Left to itself, the worker's steps for an accepted packet have the effect that OnPacket states. */
  lemma {:induction false} PacketAsSteps(s: State, rounds: seq<Outcome>, me: int)
    requires s.worker.Receiving? && Rounds(rounds)
    ensures var steps := PacketSteps(rounds, |s.holding|);
            Legal(s, steps, me) && Run(s, steps, me) == AfterPacket(s, rounds, Run(s, steps, me).sys)
    decreases |rounds|
  {
    var first, rest := RoundSteps(rounds[0], |s.holding|), rounds[1..];
    if |rounds| == 1 {
      LastRoundSteps(s, rounds[0], me);
      assert PacketSteps(rounds, |s.holding|) == first + [] == first;
      assert SlotsOf(rounds) == (if rounds[0].Overflow? then [] else [rounds[0].slot]) + SlotsOf([]);
    } else {
      FrameSteps(s, rounds[0].slot, me);
      var t := Run(s, first, me);
      FrameThenRest(s, rounds, t, t.sys);
      PacketAsSteps(t, rest, me);
      RunAppend(s, first, PacketSteps(rest, 0), me);
      FrameThenRest(s, rounds, t, Run(t, PacketSteps(rest, 0), me).sys);
    }
  }

  // ----- A run that drains two held slots -----

  // The first k slots are held by the decoder, listener 1, and by a slower listener 2, and nothing
  // else goes on.
  ghost predicate Quiet(s: State, size: nat, k: nat) {
    && Holds(s.sys, size, k) && s.sys.pipe.sem == size - k
    && s.worker.Idle? && s.queue == [] && s.lost == {} && s.released == []
    && s.holding == Numbers(k)
  }

  ghost predicate Holds(sys: System, size: nat, k: nat) {
    && Inv(sys) && |sys.pipe.slots| == size && k <= size
    && sys.delivery == None && sys.permits == 0 && sys.held == {} && sys.issued == {1, 2}
    && (forall i :: 0 <= i < size ==> (sys.pipe.slots[i].isFree <==> i >= k))
    && (forall i :: 0 <= i < k ==> sys.readers[i] == {1, 2})
  }

  function Numbers(n: nat): seq<nat> {
    seq(n, i => i)
  }

  // A packet is written into slot k and published,
  function Publication(k: nat): seq<DecoderStep> {
    [Other(Acquire), Other(Take), Other(Publish(k, true))]
  }

  // delivered to both,
  function BothCalled(): seq<DecoderStep> {
    [Deliver, Other(Call(2)), Other(EndDelivery)]
  }

  // and sent to the codec, which answers.
  function Answered(answer: Answer): seq<DecoderStep> {
    [Begin(true), TakeOutput(0), Codec(answer)]
  }

  function DecodeSteps(k: nat, answer: Answer): seq<DecoderStep> {
    Publication(k) + (BothCalled() + Answered(answer))
  }

  function HoldSteps(k: nat): seq<DecoderStep> {
    if k == 0 then [Other(Register), Other(Register)]
    else HoldSteps(k - 1) + DecodeSteps(k - 1, WantsMore)
  }

  ghost predicate Reaches(size: nat, steps: seq<DecoderStep>, k: nat) {
    Legal(Start(size), steps, 1) && Quiet(Run(Start(size), steps, 1), size, k)
  }

  lemma ThreeSteps(s: State, a: DecoderStep, b: DecoderStep, c: DecoderStep)
    requires CanStep(s, a, 1) && CanStep(Do(s, a, 1), b, 1) && CanStep(Do(Do(s, a, 1), b, 1), c, 1)
    ensures Legal(s, [a, b, c], 1) && Run(s, [a, b, c], 1) == Do(Do(Do(s, a, 1), b, 1), c, 1)
  {
    TwoSteps(Do(s, a, 1), b, c, 1);
    assert [a, b, c][1..] == [b, c];
  }

  lemma Registered(size: nat)
    ensures Reaches(size, HoldSteps(0), 0)
  {
    TwoSteps(Start(size), Other(Register), Other(Register), 1);
    RegisteredIsQuiet(size);
  }

  lemma RegisteredIsQuiet(size: nat)
    ensures Quiet(Do(Do(Start(size), Other(Register), 1), Other(Register), 1), size, 0)
  {
    var t := RegisteredHolds(size);
    assert Do(Do(Start(size), Other(Register), 1), Other(Register), 1) == Start(size).(sys := t);
  }

  lemma RegisteredHolds(size: nat) returns (t: System)
    ensures t == Apply(Apply(Initial(size), Register), Register) && Holds(t, size, 0) && t.pipe.sem == size
  {
    InitialInv(size);
    StepInv(Initial(size), Register);
    var one := Apply(Initial(size), Register);
    assert one == Initial(size).(pipe := one.pipe, issued := {1});
    assert one.pipe == NewPipe(size).(addQueue := [1], listenerFreeIndex := 1);
    t := Apply(one, Register);
    StepInv(one, Register);
    assert t == one.(pipe := t.pipe, issued := {1, 2});
  }

  // The writer's part: slot k is taken.
  lemma SlotTaken(sys: System, size: nat, k: nat)
    requires Holds(sys, size, k) && sys.pipe.sem > 0 && k < size
    ensures Enabled(Apply(sys, Acquire), Take)
    ensures var t := Apply(Apply(sys, Acquire), Take);
            && Inv(t) && t.held == {k} && t.permits == 0 && t.readers == sys.readers
            && t == sys.(pipe := t.pipe, held := t.held, taken := t.taken)
            && t.pipe == sys.pipe.(slots := t.pipe.slots, sem := sys.pipe.sem - 1)
            && |t.pipe.slots| == size
            && forall i :: 0 <= i < size ==> (t.pipe.slots[i].isFree <==> i >= k + 1)
  {
    var a := Apply(sys, Acquire);
    StepInv(sys, Acquire);
    assert a.pipe.slots[k].isFree;
    assert FirstFree(a.pipe.slots, 0) == Some(k);
    StepInv(a, Take);
  }

  // Slot k is on its way to both listeners.
  ghost predicate OnTheWay(sys: System, size: nat, k: nat) {
    && Inv(sys) && |sys.pipe.slots| == size && k < size
    && sys.delivery == Some(Delivery(k, 0)) && sys.pipe.listeners == sys.issued == {1, 2}
    && sys.permits == 0 && sys.held == {}
    && (forall i :: 0 <= i < size ==> (sys.pipe.slots[i].isFree <==> i >= k + 1))
    && (forall i :: 0 <= i < k ==> sys.readers[i] == {1, 2}) && sys.readers[k] == {}
  }

  lemma SlotPublished(sys: System, size: nat, k: nat)
    requires Holds(sys, size, k) && sys.pipe.sem > 0 && k < size
    ensures Enabled(Apply(sys, Acquire), Take)
    ensures var t := Apply(Apply(sys, Acquire), Take);
            && Enabled(t, Publish(k, true))
            && OnTheWay(Apply(t, Publish(k, true)), size, k)
            && Apply(t, Publish(k, true)).pipe.sem == sys.pipe.sem - 1
  {
    SlotTaken(sys, size, k);
    var t := Apply(Apply(sys, Acquire), Take);
    assert SlotOk(t, k);
    assert Drained(t.pipe) == {1, 2};
    StepInv(t, Publish(k, true));
  }

  lemma SlotDelivered(sys: System, size: nat, k: nat)
    requires OnTheWay(sys, size, k)
    ensures Enabled(sys, Call(1)) && Enabled(Apply(sys, Call(1)), Call(2))
    ensures var t := Apply(Apply(sys, Call(1)), Call(2));
            && Enabled(t, EndDelivery) && Holds(Apply(t, EndDelivery), size, k + 1)
            && Apply(t, EndDelivery).pipe.sem == sys.pipe.sem
  {
    assert Pending(sys, k) == {1, 2};
    StepInv(sys, Call(1));
    var one := Apply(sys, Call(1));
    assert Pending(one, k) == {2};
    StepInv(one, Call(2));
    var two := Apply(one, Call(2));
    assert Pending(two, k) == {};
    StepInv(two, EndDelivery);
    assert two.readers[k] == {1, 2};
  }

  lemma PublicationRun(s: State, size: nat, k: nat)
    requires Quiet(s, size, k) && k < size
    ensures Legal(s, Publication(k), 1)
    ensures var t := Run(s, Publication(k), 1);
            t == s.(sys := t.sys) && OnTheWay(t.sys, size, k) && t.sys.pipe.sem == size - k - 1
  {
    SlotPublished(s.sys, size, k);
    ThreeSteps(s, Other(Acquire), Other(Take), Other(Publish(k, true)));
  }

  lemma CallsRun(s: State, size: nat, k: nat)
    requires OnTheWay(s.sys, size, k)
    ensures Legal(s, BothCalled(), 1)
    ensures var t := Run(s, BothCalled(), 1);
            && t == s.(sys := t.sys, queue := s.queue + [k])
            && Holds(t.sys, size, k + 1) && t.sys.pipe.sem == s.sys.pipe.sem
  {
    SlotDelivered(s.sys, size, k);
    ThreeSteps(s, Deliver, Other(Call(2)), Other(EndDelivery));
  }

  lemma AnswerRun(s: State, k: nat, answer: Answer)
    requires s.worker.Idle? && s.queue == [k] && answer != Failed
    ensures Legal(s, Answered(answer), 1)
    ensures var t := Run(s, Answered(answer), 1);
            && t == s.(queue := [], worker := t.worker, holding := t.holding, taken := t.taken, unmapped := t.unmapped)
            && (answer == WantsMore ==> t.worker.Idle? && t.holding == s.holding + [k])
            && (answer == GotFrame ==> t.worker == Draining(k) && t.holding == s.holding)
  {
    ThreeSteps(s, Begin(true), TakeOutput(0), Codec(answer));
  }

  // The packet is with both listeners, and the codec has answered.
  lemma Decoded(s: State, size: nat, k: nat, answer: Answer)
    requires Quiet(s, size, k) && k < size && answer != Failed
    ensures Legal(s, DecodeSteps(k, answer), 1)
    ensures var t := Run(s, DecodeSteps(k, answer), 1);
            && Holds(t.sys, size, k + 1) && t.sys.pipe.sem == size - k - 1
            && t.queue == [] && t.released == [] && t.lost == {}
            && (answer == WantsMore ==> t.worker.Idle? && t.holding == s.holding + [k])
            && (answer == GotFrame ==> t.worker == Draining(k) && t.holding == s.holding)
  {
    PublicationRun(s, size, k);
    var a := Run(s, Publication(k), 1);
    CallsRun(a, size, k);
    var b := Run(a, BothCalled(), 1);
    AnswerRun(b, k, answer);
    RunAppend(a, BothCalled(), Answered(answer), 1);
    RunAppend(s, Publication(k), BothCalled() + Answered(answer), 1);
  }

  lemma {:induction false} HoldsMany(size: nat, k: nat)
    requires k <= size
    ensures Reaches(size, HoldSteps(k), k)
  {
    if k == 0 {
      Registered(size);
    } else {
      HoldsMany(size, k - 1);
      Decoded(Run(Start(size), HoldSteps(k - 1), 1), size, k - 1, WantsMore);
      assert Numbers(k) == Numbers(k - 1) + [k - 1];
      RunAppend(Start(size), HoldSteps(k - 1), DecodeSteps(k - 1, WantsMore), 1);
    }
  }

  // About to drain the first two slots, with a third packet decoded to a frame.
  ghost predicate AboutToDrainTwo(s: State, size: nat) {
    && Holds(s.sys, size, 3) && s.worker == Draining(2) && s.holding == [0, 1]
    && s.released == [] && s.queue == [] && s.lost == {}
  }

  // The drain finds two slots: the first goes back twice, and the second is in nobody's hands after.
  ghost predicate DrainLosesOne(s: State) {
    && CanStep(s, DrainOne, 1) && s.holding == [0, 1] && CanStep(Do(s, DrainOne, 1), DrainOne, 1)
    && var t := Do(Do(s, DrainOne, 1), DrainOne, 1);
       t.holding == [] && t.released == [0, 0] && 1 in Outstanding(t.sys, 1) && 1 !in InHand(t) && 1 !in t.lost
  }

  // After those two releases the next writer gets the first slot, while listener 2 still reads it.
  ghost predicate WriterMeetsReader(sys: System) {
    var t := Releasing(Releasing(sys, 0, 1), 0, 1);
    && Enabled(t, Acquire) && Enabled(Apply(t, Acquire), Take)
    && var u := Apply(Apply(t, Acquire), Take);
       u.held == {0} && 0 in Outstanding(u, 2)
  }

  lemma DrainsTwo(s: State, size: nat)
    requires AboutToDrainTwo(s, size)
    ensures DrainLosesOne(s)
  {
    var d := Do(s, DrainOne, 1);
    assert d.holding == [0];
    assert 1 in Outstanding(s.sys, 1);
    ReleasingKeepsReaders(s.sys, 0, 1);
    ReleasingKeepsReaders(d.sys, 0, 1);
  }

  lemma FreesUnderTheOther(sys: System, size: nat)
    requires Holds(sys, size, 3)
    ensures WriterMeetsReader(sys)
  {
    assert Enabled(sys, Release(0, 1));
    var d := Apply(sys, Release(0, 1));
    StepInv(sys, Release(0, 1));
    assert d.readers[0] == {2} && Pending(d, 0) == {};
    FreedUnderReader(d, 0, 1, 2);
    assert FirstFree(Releasing(d, 0, 1).pipe.slots, 0) == Some(0);
  }

  lemma ThirdDrains(s: State, size: nat)
    requires Quiet(s, size, 2) && size >= 3
    ensures Legal(s, DecodeSteps(2, GotFrame), 1)
    ensures var t := Run(s, DecodeSteps(2, GotFrame), 1); DrainLosesOne(t) && WriterMeetsReader(t.sys)
  {
    Decoded(s, size, 2, GotFrame);
    var t := Run(s, DecodeSteps(2, GotFrame), 1);
    assert Numbers(2) == [0, 1];
    DrainsTwo(t, size);
    FreesUnderTheOther(t.sys, size);
  }

  /** And so it comes about: with two packets held and a third one decoded to a frame, the drain releases
      the first slot twice and loses the second one. If another listener still reads the first, it
      is free all the same, and the next writer gets it. */
  lemma DoubleReleaseReached(size: nat)
    requires size >= 3
    ensures var steps := HoldSteps(2) + DecodeSteps(2, GotFrame);
            Legal(Start(size), steps, 1) &&
            var s := Run(Start(size), steps, 1);
            DrainLosesOne(s) && WriterMeetsReader(s.sys)
  {
    HoldsMany(size, 2);
    ThirdDrains(Run(Start(size), HoldSteps(2), 1), size);
    RunAppend(Start(size), HoldSteps(2), DecodeSteps(2, GotFrame), 1);
  }
}
