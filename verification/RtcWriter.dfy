/**
 The remote video track of lib/network/rtcservice.cpp as the one writer of its packet pipe: each
 incoming frame goes to `packets[slot]`, a buffer beside the pipe that the published packet
 points into.
 */
module RtcWriter {
  import opened Common
  import opened MediaPipe
  import opened PipeProtocol

  type Bytes = seq<bv8>

  // Where the onFrame handler stands; publishing lasts until the delivery loop is over.
  datatype Handler =
    | Idle
    | Permitted
    | Holding(slot: nat)
    | Written(slot: nat)
    | Publishing

  datatype State = State(
    sys: System,
    handler: Handler,
    packets: seq<Bytes>,
    published: seq<Bytes>,   // per slot, the bytes at its latest publication
    leaked: set<nat>,        // slots left behind when the packet could not be filled
    failures: nat)           // how often that happened

  datatype WriterStep =
    | AcquirePermit
    | TakeSlot
    | Write(data: Bytes)
    | FillFails
    | FillAndPublish
    | Finish
    | Other(step: Step)      // readers, the delivery loop and registrations

  function Start(size: nat): State {
    State(Initial(size), Idle, seq(size, i => []), seq(size, i => []), {}, 0)
  }

  predicate CanStep(s: State, step: WriterStep) {
    match step
    case AcquirePermit => s.handler.Idle? && Enabled(s.sys, Acquire)
    case TakeSlot => s.handler.Permitted? && Enabled(s.sys, Take)
    case Write(_) => s.handler.Holding? && s.handler.slot < |s.packets|
    case FillFails => s.handler.Written?
    case FillAndPublish =>
      && s.handler.Written? && Enabled(s.sys, Publish(s.handler.slot, true))
      && s.handler.slot < |s.packets| == |s.published|
    case Finish => s.handler.Publishing? && s.sys.delivery == None
    case Other(o) => NotAWriter(o) && Enabled(s.sys, o)
  }

  function Do(s: State, step: WriterStep): State
    requires CanStep(s, step)
  {
    match step
    case AcquirePermit => s.(sys := Apply(s.sys, Acquire), handler := Permitted)
    case TakeSlot =>
      (match GetFree(s.sys.pipe).1
       case Some(i) => s.(sys := Apply(s.sys, Take), handler := Holding(i))
       case None => s.(sys := Apply(s.sys, Take), handler := Idle))
    case Write(data) => s.(packets := s.packets[s.handler.slot := data], handler := Written(s.handler.slot))
    case FillFails =>
      s.(handler := Idle, leaked := s.leaked + {s.handler.slot}, failures := s.failures + 1)
    case FillAndPublish =>
      var slot := s.handler.slot;
      s.(sys := Apply(s.sys, Publish(slot, true)), handler := Publishing,
         published := s.published[slot := s.packets[slot]])
    case Finish => s.(handler := Idle)
    case Other(o) => s.(sys := Apply(s.sys, o))
  }

  predicate Legal(s: State, steps: seq<WriterStep>)
    decreases |steps|
  {
    steps == [] || (CanStep(s, steps[0]) && Legal(Do(s, steps[0]), steps[1..]))
  }

  function Run(s: State, steps: seq<WriterStep>): State
    requires Legal(s, steps)
    decreases |steps|
  {
    if steps == [] then s else Run(Do(s, steps[0]), steps[1..])
  }

  function InHand(s: State): set<nat> {
    if s.handler.Holding? || s.handler.Written? then {s.handler.slot} else {}
  }

  ghost predicate Books(s: State) {
    && Inv(s.sys)
    && |s.packets| == |s.published| == |s.sys.pipe.slots|
    && s.sys.permits == (if s.handler.Permitted? then 1 else 0)
    && s.sys.held == s.leaked + InHand(s)
    && s.leaked !! InHand(s)
    && |s.leaked| == s.failures
    && (s.sys.delivery.Some? ==> s.handler.Publishing?)
  }

  ghost predicate Buffers(s: State)
    requires Books(s)
  {
    forall i: nat :: i < |s.packets| && BeingRead(s.sys, i) ==> s.packets[i] == s.published[i]
  }

  ghost predicate WriterInv(s: State) {
    Books(s) && Buffers(s)
  }

  lemma StepKeepsBooks(s: State, step: WriterStep)
    requires Books(s) && CanStep(s, step)
    ensures Books(Do(s, step))
    ensures |Do(s, step).packets| == |s.packets|
  {
    match step
    case AcquirePermit => AcquireKeepsBooks(s);
    case TakeSlot => TakeKeepsBooks(s);
    case Write(_) => OwnKeepsBooks(s, step);
    case FillFails => OwnKeepsBooks(s, step);
    case FillAndPublish => PublishKeepsBooks(s);
    case Finish => OwnKeepsBooks(s, step);
    case Other(o) => OtherKeepsBooks(s, o);
  }

  // The steps outside the pipe.
  lemma OwnKeepsBooks(s: State, step: WriterStep)
    requires Books(s) && CanStep(s, step) && (step.Write? || step.FillFails? || step.Finish?)
    ensures Books(Do(s, step))
    ensures |Do(s, step).packets| == |s.packets|
  {
  }

  lemma AcquireKeepsBooks(s: State)
    requires Books(s) && CanStep(s, AcquirePermit)
    ensures Books(Do(s, AcquirePermit))
    ensures |Do(s, AcquirePermit).packets| == |s.packets|
  {
    StepInv(s.sys, Acquire);
  }

  lemma TakeKeepsBooks(s: State)
    requires Books(s) && CanStep(s, TakeSlot)
    ensures Books(Do(s, TakeSlot))
    ensures |Do(s, TakeSlot).packets| == |s.packets|
  {
    StepInv(s.sys, Take);
    NoFreeSlot(s.sys.pipe.slots);
    assert SlotOk(s.sys, FirstFree(s.sys.pipe.slots, 0).value);
  }

  lemma PublishKeepsBooks(s: State)
    requires Books(s) && CanStep(s, FillAndPublish)
    ensures Books(Do(s, FillAndPublish))
    ensures |Do(s, FillAndPublish).packets| == |s.packets|
  {
    StepInv(s.sys, Publish(s.handler.slot, true));
    assert s.leaked == s.leaked + InHand(s) - {s.handler.slot};
  }

  lemma OtherKeepsBooks(s: State, o: Step)
    requires Books(s) && CanStep(s, Other(o))
    ensures Books(Do(s, Other(o)))
    ensures |Do(s, Other(o)).packets| == |s.packets|
  {
    StepInv(s.sys, o);
    OthersKeepWriters(s.sys, o);
  }

  lemma StepKeepsWriterInv(s: State, step: WriterStep)
    requires WriterInv(s) && CanStep(s, step)
    ensures WriterInv(Do(s, step))
    ensures forall i: nat :: i < |s.packets| && BeingRead(s.sys, i) ==>
              i < |Do(s, step).packets| && Do(s, step).packets[i] == s.packets[i]
  {
    StepKeepsBooks(s, step);
    if step.Write? {
      assert SlotOk(s.sys, s.handler.slot);
    }
    forall i: nat | i < |Do(s, step).packets| && BeingRead(Do(s, step).sys, i)
      ensures Do(s, step).packets[i] == Do(s, step).published[i]
    {
      ReadBefore(s, step, i);
    }
  }

  // A slot that is being read after a step was so before it, unless the step published it.
  lemma ReadBefore(s: State, step: WriterStep, i: nat)
    requires Books(s) && CanStep(s, step) && Shaped(Do(s, step).sys)
    requires i < |s.packets| == |Do(s, step).sys.pipe.slots| && BeingRead(Do(s, step).sys, i)
    ensures BeingRead(s.sys, i) || (step.FillAndPublish? && i == s.handler.slot)
  {
    match step
    case AcquirePermit => PipeReadBefore(s.sys, Acquire, i);
    case TakeSlot => PipeReadBefore(s.sys, Take, i);
    case FillAndPublish => PipeReadBefore(s.sys, Publish(s.handler.slot, true), i);
    case Other(o) => PipeReadBefore(s.sys, o, i);
    case _ =>
  }

  lemma PipeReadBefore(sys: System, o: Step, i: nat)
    requires Inv(sys) && Enabled(sys, o) && Shaped(Apply(sys, o))
    requires i < |sys.pipe.slots| == |Apply(sys, o).pipe.slots| && BeingRead(Apply(sys, o), i)
    ensures BeingRead(sys, i) || (o.Publish? && i == o.slot)
  {
    var t := Apply(sys, o);
    if o.Call? && i == sys.delivery.value.slot {
      assert o.listener in Pending(sys, i) + sys.readers[i];
    } else if !o.Publish? {
      assert Pending(t, i) + t.readers[i] <= Pending(sys, i) + sys.readers[i];
    }
  }

  lemma {:induction false} RunKeepsWriterInv(s: State, steps: seq<WriterStep>)
    requires WriterInv(s) && Legal(s, steps)
    ensures WriterInv(Run(s, steps))
    ensures |Run(s, steps).packets| == |s.packets|
    decreases |steps|
  {
    if steps != [] {
      StepKeepsWriterInv(s, steps[0]);
      RunKeepsWriterInv(Do(s, steps[0]), steps[1..]);
    }
  }

  lemma StartInv(size: nat)
    ensures WriterInv(Start(size))
  {
    InitialInv(size);
  }

  // ----- The bytes that came in, by the steps of a run -----

  // The latest frame received; `data` is the one before these steps.
  function LastReceived(steps: seq<WriterStep>, data: Bytes): Bytes
    decreases |steps|
  {
    if steps == [] then data
    else LastReceived(steps[1..], if steps[0].Write? then steps[0].data else data)
  }

  // Per slot, the frame that its latest publication was of.
  function Sent(s: State, steps: seq<WriterStep>, data: Bytes, latest: seq<Bytes>): seq<Bytes>
    requires Legal(s, steps)
    decreases |steps|
  {
    if steps == [] then latest
    else
      var t := Do(s, steps[0]);
      match steps[0]
      case Write(d) => Sent(t, steps[1..], d, latest)
      case FillAndPublish =>
        Sent(t, steps[1..], data, if s.handler.slot < |latest| then latest[s.handler.slot := data] else latest)
      case _ => Sent(t, steps[1..], data, latest)
  }

  function Failures(steps: seq<WriterStep>): nat {
    if steps == [] then 0 else Failures(steps[1..]) + (if steps[0].FillFails? then 1 else 0)
  }

  ghost predicate Carries(s: State, data: Bytes) {
    s.handler.Written? ==> s.handler.slot < |s.packets| && s.packets[s.handler.slot] == data
  }

  lemma {:induction false} RunCarries(s: State, steps: seq<WriterStep>, data: Bytes)
    requires Books(s) && Carries(s, data) && Legal(s, steps)
    ensures Carries(Run(s, steps), LastReceived(steps, data))
    ensures Run(s, steps).published == Sent(s, steps, data, s.published)
    ensures Run(s, steps).failures == s.failures + Failures(steps)
    decreases |steps|
  {
    if steps != [] {
      var received := if steps[0].Write? then steps[0].data else data;
      StepKeepsBooks(s, steps[0]);
      StepCarries(s, steps[0], data);
      RunCarries(Do(s, steps[0]), steps[1..], received);
    }
  }

  lemma StepCarries(s: State, step: WriterStep, data: Bytes)
    requires Books(s) && Carries(s, data) && CanStep(s, step)
    ensures var t := Do(s, step);
            && Carries(t, if step.Write? then step.data else data)
            && t.failures == s.failures + (if step.FillFails? then 1 else 0)
            && t.published == if step.FillAndPublish? then s.published[s.handler.slot := data] else s.published
  {
  }

  /** In every run, the buffer of a slot that is being read has the bytes of the frame that came in
      before its publication, and no step overwrites them. */
  lemma BufferStableWhileRead(size: nat, steps: seq<WriterStep>, i: nat, next: WriterStep)
    requires Legal(Start(size), steps) && i < size
    requires CanStep(Run(Start(size), steps), next)
    ensures var t := Run(Start(size), steps);
            var sent := Sent(Start(size), steps, [], seq(size, i => []));
            && |t.packets| == |sent| == |t.sys.pipe.slots| == size == |Do(t, next).packets| && Shaped(t.sys)
            && (BeingRead(t.sys, i) ==> t.packets[i] == sent[i] && Do(t, next).packets[i] == t.packets[i])
  {
    StartInv(size);
    RunKeepsWriterInv(Start(size), steps);
    RunCarries(Start(size), steps, []);
    StepKeepsWriterInv(Run(Start(size), steps), next);
  }

  /** A frame that can be filled is published to every listener with the bytes that came in. */
  lemma FrameIsPublished(size: nat, steps: seq<WriterStep>)
    requires Legal(Start(size), steps) && CanStep(Run(Start(size), steps), FillAndPublish)
    ensures var s := Run(Start(size), steps);
            var t := Do(s, FillAndPublish);
            && s.handler.slot < |t.packets| && t.packets[s.handler.slot] == LastReceived(steps, [])
            && (s.sys.issued != {} ==>
                  && t.sys.delivery.Some? && t.sys.delivery.value.slot == s.handler.slot
                  && Pending(t.sys, s.handler.slot) == s.sys.issued)
  {
    StartInv(size);
    RunKeepsWriterInv(Start(size), steps);
    RunCarries(Start(size), steps, []);
    var s := Run(Start(size), steps);
    PublishStarts(s.sys, s.handler.slot, true);
  }

  lemma OnlyLeaked(t: State)
    requires Books(t) && t.handler.Idle?
    requires forall i: nat :: i < |t.sys.pipe.slots| ==> !BeingRead(t.sys, i)
    ensures NonFree(t.sys.pipe.slots) == t.leaked
    ensures t.sys.pipe.sem == |t.sys.pipe.slots| - t.failures
  {
    forall i: nat
      ensures i in NonFree(t.sys.pipe.slots) <==> i in t.sys.held
    {
      if i < |t.sys.pipe.slots| { TakenIsHeld(t.sys, i); }
    }
  }

  lemma TakenIsHeld(sys: System, i: nat)
    requires Inv(sys) && i < |sys.pipe.slots| && !BeingRead(sys, i)
    ensures sys.pipe.slots[i].isFree <==> i !in sys.held
  {
    assert SlotOk(sys, i);
    assert Pending(sys, i) == {} && sys.readers[i] == {};
  }

  lemma {:induction false} NoFailure(steps: seq<WriterStep>)
    ensures Failures(steps) == 0 <==> FillFails !in steps
  {
    if steps != [] {
      NoFailure(steps[1..]);
      assert steps == [steps[0]] + steps[1..];
    }
  }

  /** Each failed fill costs the pipe one slot for good: with the handler idle and nothing being
      read, the permits left are the size less the failures, so all slots are free again exactly
      when no fill has failed. */
  lemma FailedFillsCostSlots(size: nat, steps: seq<WriterStep>)
    requires Legal(Start(size), steps)
    requires var t := Run(Start(size), steps);
             t.handler.Idle? && forall i: nat :: Shaped(t.sys) && i < |t.sys.pipe.slots| ==> !BeingRead(t.sys, i)
    ensures var t := Run(Start(size), steps);
            && t.sys.pipe.sem == size - Failures(steps)
            && (t.sys.pipe.sem == size <==> FillFails !in steps)
  {
    StartInv(size);
    RunKeepsWriterInv(Start(size), steps);
    RunCarries(Start(size), steps, []);
    NoFailure(steps);
    OnlyLeaked(Run(Start(size), steps));
  }

  // And so it comes about, in a pipe of any size.
  lemma FailedFillReached(size: nat, data: Bytes)
    requires size >= 1
    ensures CanStep(Start(size), AcquirePermit)
    ensures var permitted := Do(Start(size), AcquirePermit);
            && CanStep(permitted, TakeSlot)
            && var holding := Do(permitted, TakeSlot);
               && CanStep(holding, Write(data))
               && var written := Do(holding, Write(data));
                  && CanStep(written, FillFails)
                  && var t := Do(written, FillFails);
                     && t.handler.Idle? && t.failures == 1 && t.sys.pipe.sem == size - 1
                     && t.sys.held == {0} && t.sys.permits == 0
  {
    var permitted := Do(Start(size), AcquirePermit);
    assert FirstFree(permitted.sys.pipe.slots, 0) == Some(0);
  }
}
