/**
 The decoder of lib/media/decoder.cpp together with the frame pipe it writes: its steps there are
 the pipe's own, and everybody else on both pipes goes on in between. The worker waits inside
 unmapWriting until the delivery is over; the packet pipe's thread and readers do not.
 */
module DecoderOutput {
  import opened Common
  import opened MediaPipe
  import P = PipeProtocol
  import D = Decoder

  datatype State = State(decoder: D.State, out: P.System)

  datatype Step =
    | AcquireOutput
    | TakeFrame
    | Answer(answer: D.Answer)
    | Inner(inner: D.DecoderStep)   // whatever the decoder does apart from its output slot
    | Outer(outer: P.Step)          // readers, the delivery loop and registrations of the frame pipe

  function Start(size: nat, outSize: nat): State {
    State(D.Start(size), P.Initial(outSize))
  }

  // The worker's own steps, as opposed to packets coming in and what others do.
  predicate OfWorker(step: D.DecoderStep) {
    !step.Deliver? && !step.Other?
  }

  predicate CanStep(s: State, step: Step, me: int) {
    match step
    case AcquireOutput =>
      s.decoder.worker.Receiving? && s.out.delivery == None && s.out.permits == 0 && P.Enabled(s.out, P.Acquire)
    case TakeFrame => s.decoder.worker.Receiving? && P.Enabled(s.out, P.Take) && GetFree(s.out.pipe).1.Some?
    case Answer(answer) =>
      s.decoder.worker.Answering? && P.Enabled(s.out, P.Publish(s.decoder.worker.out, answer == D.GotFrame))
    case Inner(d) =>
      && !d.TakeOutput? && !d.Codec? && D.CanStep(s.decoder, d, me)
      && (OfWorker(d) ==> s.out.delivery == None && s.out.permits == 0)
    case Outer(o) => P.NotAWriter(o) && P.Enabled(s.out, o)
  }

  // The decoder's own step, if it is one.
  function DecoderPart(s: State, step: Step, me: int): Option<D.DecoderStep>
    requires CanStep(s, step, me)
  {
    match step
    case AcquireOutput => None
    case TakeFrame => Some(D.TakeOutput(GetFree(s.out.pipe).1.value))
    case Answer(answer) => Some(D.Codec(answer))
    case Inner(d) => Some(d)
    case Outer(_) => None
  }

  // The frame pipe's own step, if it is one.
  function PipePart(s: State, step: Step, me: int): Option<P.Step>
    requires CanStep(s, step, me)
  {
    match step
    case AcquireOutput => Some(P.Acquire)
    case TakeFrame => Some(P.Take)
    case Answer(answer) => Some(P.Publish(s.decoder.worker.out, answer == D.GotFrame))
    case Inner(_) => None
    case Outer(o) => Some(o)
  }

  function Do(s: State, step: Step, me: int): State
    requires CanStep(s, step, me)
  {
    State(match DecoderPart(s, step, me) case Some(d) => D.Do(s.decoder, d, me) case None => s.decoder,
          match PipePart(s, step, me) case Some(p) => P.Apply(s.out, p) case None => s.out)
  }

  predicate Legal(s: State, steps: seq<Step>, me: int)
    decreases |steps|
  {
    steps == [] || (CanStep(s, steps[0], me) && Legal(Do(s, steps[0], me), steps[1..], me))
  }

  function Run(s: State, steps: seq<Step>, me: int): State
    requires Legal(s, steps, me)
    decreases |steps|
  {
    if steps == [] then s else Run(Do(s, steps[0], me), steps[1..], me)
  }

  // The frame pipe's only writer holds the slot it decodes into, and no other.
  ghost predicate WriterInv(s: State) {
    && P.Inv(s.out)
    && s.out.held == (if s.decoder.worker.Answering? then {s.decoder.worker.out} else {})
    && s.out.permits <= (if s.decoder.worker.Receiving? then 1 else 0)
    && (s.out.delivery.Some? ==> s.decoder.worker.Draining?)
  }

  lemma StepKeepsWriterInv(s: State, step: Step, me: int)
    requires WriterInv(s) && CanStep(s, step, me)
    ensures WriterInv(Do(s, step, me))
  {
    match step
    case AcquireOutput => AcquireKeepsWriterInv(s, me);
    case TakeFrame => TakeKeepsWriterInv(s, me);
    case Answer(answer) => AnswerKeepsWriterInv(s, answer, me);
    case Inner(inner) => InnerKeepsWriterInv(s, inner, me);
    case Outer(outer) => OuterKeepsWriterInv(s, outer, me);
  }

  lemma AcquireKeepsWriterInv(s: State, me: int)
    requires WriterInv(s) && CanStep(s, AcquireOutput, me)
    ensures WriterInv(Do(s, AcquireOutput, me))
  {
    P.StepInv(s.out, P.Acquire);
  }

  lemma TakeKeepsWriterInv(s: State, me: int)
    requires WriterInv(s) && CanStep(s, TakeFrame, me)
    ensures WriterInv(Do(s, TakeFrame, me))
  {
    P.StepInv(s.out, P.Take);
  }

  lemma AnswerKeepsWriterInv(s: State, answer: D.Answer, me: int)
    requires WriterInv(s) && CanStep(s, Answer(answer), me)
    ensures WriterInv(Do(s, Answer(answer), me))
  {
    var slot, frame := s.decoder.worker.out, answer == D.GotFrame;
    var out := P.Apply(s.out, P.Publish(slot, frame));
    P.StepInv(s.out, P.Publish(slot, frame));
    P.PublishEffect(s.out, slot, frame);
    AfterAnswer(s.decoder, answer, me);
    assert Do(s, Answer(answer), me) == State(D.Do(s.decoder, D.Codec(answer), me), out);
  }

  lemma AfterAnswer(d: D.State, answer: D.Answer, me: int)
    requires D.CanStep(d, D.Codec(answer), me)
    ensures var t := D.Do(d, D.Codec(answer), me);
            !t.worker.Answering? && !t.worker.Receiving? && (answer == D.GotFrame ==> t.worker.Draining?)
  {
  }

  lemma InnerKeepsWriterInv(s: State, inner: D.DecoderStep, me: int)
    requires WriterInv(s) && CanStep(s, Inner(inner), me)
    ensures WriterInv(Do(s, Inner(inner), me))
  {
  }

  lemma OuterKeepsWriterInv(s: State, outer: P.Step, me: int)
    requires WriterInv(s) && CanStep(s, Outer(outer), me)
    ensures WriterInv(Do(s, Outer(outer), me))
  {
    P.StepInv(s.out, outer);
    P.OthersKeepWriters(s.out, outer);
  }

  lemma {:induction false} RunKeepsWriterInv(s: State, steps: seq<Step>, me: int)
    requires WriterInv(s) && Legal(s, steps, me)
    ensures WriterInv(Run(s, steps, me)) && |Run(s, steps, me).out.pipe.slots| == |s.out.pipe.slots|
    decreases |steps|
  {
    if steps != [] {
      StepKeepsWriterInv(s, steps[0], me);
      RunKeepsWriterInv(Do(s, steps[0], me), steps[1..], me);
    }
  }

  /** In every run the decoder meets a writer's obligation: with a permit in hand it always finds a slot, it
      can unmap the slot that it decodes into, whatever the codec answers, and it holds no other;
      so when it is idle and no frame is being read, all slots of the frame pipe are free. */
  lemma DecoderWritesRight(size: nat, outSize: nat, steps: seq<Step>, me: int, answer: D.Answer)
    requires Legal(Start(size, outSize), steps, me)
    ensures var s := Run(Start(size, outSize), steps, me);
            && (s.out.permits > 0 ==> s.decoder.worker.Receiving? && CanStep(s, TakeFrame, me))
            && (s.decoder.worker.Answering? ==> s.out.held == {s.decoder.worker.out} && CanStep(s, Answer(answer), me))
            && (!s.decoder.worker.Answering? ==> s.out.held == {})
            && (s.decoder.worker.Idle? && (forall i :: 0 <= i < |s.out.readers| ==> s.out.readers[i] == {}) ==>
                  s.out.pipe.sem == outSize)
  {
    P.InitialInv(outSize);
    RunKeepsWriterInv(Start(size, outSize), steps, me);
    var s := Run(Start(size, outSize), steps, me);
    P.NoFreeSlot(s.out.pipe.slots);
    if s.decoder.worker.Idle? && forall i :: 0 <= i < |s.out.readers| ==> s.out.readers[i] == {} {
      NothingHeld(s.out);
    }
  }

  lemma NothingHeld(sys: P.System)
    requires P.Inv(sys) && sys.held == {} && sys.permits == 0 && sys.delivery == None
    requires forall i :: 0 <= i < |sys.readers| ==> sys.readers[i] == {}
    ensures sys.pipe.sem == |sys.pipe.slots|
  {
    forall i: nat
      ensures i !in P.NonFree(sys.pipe.slots)
    {
      if i < |sys.pipe.slots| { assert P.SlotOk(sys, i); }
    }
    assert P.NonFree(sys.pipe.slots) == {};
  }

  // A slot that is unmapped with a notification goes to all who are registered, if there are any;
  // otherwise it is free at once, with its permit.
  ghost predicate GoesOut(was: P.System, now: P.System, slot: nat, notifies: bool) {
    slot < |now.pipe.slots| &&
    if notifies && was.issued != {}
    then now.delivery.Some? && now.delivery.value.slot == slot && P.Pending(now, slot) == was.issued
    else now.delivery == None && now.pipe.slots[slot].isFree && now.pipe.sem == was.pipe.sem + 1
  }

  lemma PublishGoesOut(sys: P.System, slot: nat, notifies: bool)
    requires P.Inv(sys) && P.Enabled(sys, P.Publish(slot, notifies))
    ensures GoesOut(sys, P.Apply(sys, P.Publish(slot, notifies)), slot, notifies)
  {
    P.PublishStarts(sys, slot, notifies);
  }

  /** A decoded frame goes to everybody registered with the frame pipe; an output slot without a frame is
      free again at once. */
  lemma AnswerPublishes(size: nat, outSize: nat, steps: seq<Step>, me: int, answer: D.Answer)
    requires Legal(Start(size, outSize), steps, me) && CanStep(Run(Start(size, outSize), steps, me), Answer(answer), me)
    ensures var s := Run(Start(size, outSize), steps, me);
            var slot, t := s.decoder.worker.out, Do(s, Answer(answer), me);
            && t.decoder.unmapped == s.decoder.unmapped + [slot]
            && GoesOut(s.out, t.out, slot, answer == D.GotFrame)
  {
    P.InitialInv(outSize);
    RunKeepsWriterInv(Start(size, outSize), steps, me);
    AnswerGoesOut(Run(Start(size, outSize), steps, me), answer, me);
  }

  lemma AnswerGoesOut(s: State, answer: D.Answer, me: int)
    requires WriterInv(s) && CanStep(s, Answer(answer), me)
    ensures var slot, t := s.decoder.worker.out, Do(s, Answer(answer), me);
            && t.decoder.unmapped == s.decoder.unmapped + [slot]
            && GoesOut(s.out, t.out, slot, answer == D.GotFrame)
  {
    PublishGoesOut(s.out, s.decoder.worker.out, answer == D.GotFrame);
  }

  // What the decoder itself does in a run.
  function DecoderSteps(s: State, steps: seq<Step>, me: int): seq<D.DecoderStep>
    requires Legal(s, steps, me)
    decreases |steps|
  {
    if steps == [] then []
    else
      var rest := DecoderSteps(Do(s, steps[0], me), steps[1..], me);
      match DecoderPart(s, steps[0], me)
      case Some(d) => [d] + rest
      case None => rest
  }

  /** Seen from the packet pipe such a run is one of the decoder's, so all that holds of those holds
      here. */
  lemma {:induction false} RunOfTheDecoder(s: State, steps: seq<Step>, me: int)
    requires Legal(s, steps, me)
    ensures var inner := DecoderSteps(s, steps, me);
            D.Legal(s.decoder, inner, me) && D.Run(s.decoder, inner, me) == Run(s, steps, me).decoder
    decreases |steps|
  {
    if steps != [] {
      var t := Do(s, steps[0], me);
      RunOfTheDecoder(t, steps[1..], me);
      match DecoderPart(s, steps[0], me)
      case Some(d) =>
        var rest := DecoderSteps(t, steps[1..], me);
        assert ([d] + rest)[0] == d && ([d] + rest)[1..] == rest;
      case None =>
    }
  }
}
