/**
 Every interleaving of writers, readers and registrations around one pipe of lib/media/datapipe.h.
 A step is one locked section, one callback, or one semaphore operation. The fields after `pipe`
 record who holds what: they are read by no step of the pipe itself.

 Obligations of the callers, as guards: a writer unmaps a slot once per hold, a listener releases
 once per delivery, one thread publishes at a time, and only returned indices are unregistered.
 */
module PipeProtocol {
  import opened Common
  import opened MediaPipe

  // The delivery loop is at `cursor`, the last key of the listener map that it called.
  datatype Delivery = Delivery(slot: nat, cursor: int)

  datatype System = System(
    pipe: Pipe,
    permits: nat,              // acquired, not yet turned into a slot
    held: set<nat>,            // slots in the hands of writers
    delivery: Option<Delivery>,
    called: seq<int>,          // listeners called by the latest delivery, in call order
    audience: set<int>,        // listeners registered when that delivery began
    readers: seq<set<int>>,    // per slot, listeners called and not yet released
    issued: set<int>,          // listeners by the registration calls in issue order
    taken: seq<nat>,           // per slot, how often a writer received it
    freed: seq<nat>,           // per slot, how often it was set free
    thrown: bool)              // getFree found no slot

  datatype Step =
    | Acquire
    | Take
    | Publish(slot: nat, notifyReaders: bool)
    | Call(listener: int)
    | EndDelivery
    | Release(slot: nat, listener: int)
    | Register
    | RegisterElsewhere        // the index counter is shared by all pipes of one type
    | Unregister(id: int)

  function Initial(size: nat): System {
    System(NewPipe(size), 0, {}, None, [], {}, seq(size, i => {}), {},
           seq(size, i => 0), seq(size, i => 0), false)
  }

  predicate Shaped(s: System) {
    |s.pipe.slots| == |s.readers| == |s.taken| == |s.freed|
  }

  // The listeners that the delivery loop has still to call: it walks the live map.
  function Pending(s: System, slot: nat): set<int> {
    match s.delivery
    case Some(d) => if d.slot == slot then set l | l in s.pipe.listeners && l > d.cursor else {}
    case None => {}
  }

  function NonFree(slots: seq<SubPipe>): set<nat> {
    set i | 0 <= i < |slots| && !slots[i].isFree
  }

  predicate Enabled(s: System, step: Step) {
    Shaped(s) &&
    match step
    case Acquire => s.pipe.sem > 0
    case Take => s.permits > 0
    case Publish(slot, _) => slot < |s.pipe.slots| && slot in s.held && s.delivery == None
    case Call(l) =>
      && s.delivery.Some? && s.delivery.value.slot < |s.pipe.slots|
      && l in Pending(s, s.delivery.value.slot)
      && forall k :: k in Pending(s, s.delivery.value.slot) ==> l <= k
    case EndDelivery => s.delivery.Some? && Pending(s, s.delivery.value.slot) == {}
    case Release(slot, l) => slot < |s.pipe.slots| && l in s.readers[slot]
    case Register => true
    case RegisterElsewhere => true
    case Unregister(id) => id <= s.pipe.listenerFreeIndex
  }

  function Apply(s: System, step: Step): System
    requires Enabled(s, step)
  {
    match step
    case Acquire => s.(pipe := s.pipe.(sem := s.pipe.sem - 1), permits := s.permits + 1)
    case Take =>
      (match GetFree(s.pipe)
       case (p, Some(i)) =>
         s.(pipe := p, permits := s.permits - 1, held := s.held + {i}, taken := s.taken[i := s.taken[i] + 1])
       case (p, None) => s.(thrown := true))
    case Publish(slot, notifyReaders) =>
      var (p, deliver) := UnmapWriting(s.pipe, slot, notifyReaders);
      var t := s.(pipe := p, held := s.held - {slot});
      if deliver then t.(delivery := Some(Delivery(slot, 0)), called := [], audience := p.listeners)
      else t.(freed := s.freed[slot := s.freed[slot] + 1])
    case Call(l) =>
      var slot := s.delivery.value.slot;
      s.(delivery := Some(Delivery(slot, l)), called := s.called + [l],
         readers := s.readers[slot := s.readers[slot] + {l}])
    case EndDelivery => s.(delivery := None)
    case Release(slot, l) =>
      var p := UnmapReading(s.pipe, slot);
      s.(pipe := p, readers := s.readers[slot := s.readers[slot] - {l}],
         freed := s.freed[slot := s.freed[slot] + p.sem - s.pipe.sem])
    case Register =>
      var id := s.pipe.listenerFreeIndex + 1;
      s.(pipe := s.pipe.(addQueue := s.pipe.addQueue + [id], listenerFreeIndex := id), issued := s.issued + {id})
    case RegisterElsewhere => s.(pipe := s.pipe.(listenerFreeIndex := s.pipe.listenerFreeIndex + 1))
    case Unregister(id) =>
      s.(pipe := s.pipe.(removeQueue := s.pipe.removeQueue + [id]), issued := s.issued - {id})
  }

  predicate Legal(s: System, steps: seq<Step>)
    decreases |steps|
  {
    steps == [] || (Enabled(s, steps[0]) && Legal(Apply(s, steps[0]), steps[1..]))
  }

  function Run(s: System, steps: seq<Step>): System
    requires Legal(s, steps)
    decreases |steps|
  {
    if steps == [] then s else Run(Apply(s, steps[0]), steps[1..])
  }

  // ----- The invariant -----

  ghost predicate SlotOk(s: System, i: nat)
    requires Shaped(s) && i < |s.pipe.slots|
  {
    var slot := s.pipe.slots[i];
    && (i in s.held ==> !slot.isFree)
    && Pending(s, i) !! s.readers[i]
    && s.taken[i] == s.freed[i] + (if slot.isFree then 0 else 1)
    && if slot.isFree || i in s.held then Pending(s, i) == {} && s.readers[i] == {}
       else slot.readings == |Pending(s, i)| + |s.readers[i]| > 0
  }

  ghost predicate DeliveryOk(s: System, d: Delivery) {
    && d.slot < |s.pipe.slots|
    && s.audience == s.pipe.listeners
    && (forall a, b :: 0 <= a < b < |s.called| ==> s.called[a] < s.called[b])
    && (forall l :: l in s.called <==> l in s.audience && l <= d.cursor)
  }

  ghost predicate ListenersOk(s: System) {
    && 0 <= s.pipe.listenerFreeIndex
    && (forall l :: l in s.pipe.listeners || l in s.pipe.addQueue ==> 0 < l <= s.pipe.listenerFreeIndex)
    && (forall l :: l in s.pipe.removeQueue ==> l <= s.pipe.listenerFreeIndex)
    && Drained(s.pipe) == s.issued
  }

  ghost predicate Inv(s: System) {
    && Shaped(s)
    && !s.thrown
    && s.pipe.sem + s.permits + |NonFree(s.pipe.slots)| == |s.pipe.slots|
    && (forall i :: i in s.held ==> i < |s.pipe.slots|)
    && (forall i: nat :: i < |s.pipe.slots| ==> SlotOk(s, i))
    && (s.delivery.Some? ==> DeliveryOk(s, s.delivery.value))
    && ListenersOk(s)
  }

  lemma NonFreeAfter(slots: seq<SubPipe>, i: nat, slot: SubPipe)
    requires i < |slots|
    ensures NonFree(slots[i := slot]) == if slot.isFree then NonFree(slots) - {i} else NonFree(slots) + {i}
  {
  }

  lemma InitialInv(size: nat)
    ensures Inv(Initial(size))
  {
    assert NonFree(NewPipe(size).slots) == {};
  }

  lemma StepInv(s: System, step: Step)
    requires Inv(s) && Enabled(s, step)
    ensures Inv(Apply(s, step))
  {
    match step
    case Acquire => SlotsKept(s, step);
    case Take => TakeInv(s);
    case Publish(slot, notifyReaders) => PublishInv(s, slot, notifyReaders);
    case Call(l) => CallInv(s, l);
    case EndDelivery => SlotsKept(s, step);
    case Release(slot, l) => ReleaseInv(s, slot, l);
    case Register => SlotsKept(s, step); assert Drained(Apply(s, step).pipe) == Apply(s, step).issued;
    case RegisterElsewhere => SlotsKept(s, step);
    case Unregister(id) => SlotsKept(s, step); assert Drained(Apply(s, step).pipe) == Apply(s, step).issued;
  }

  lemma SlotsKept(s: System, step: Step)
    requires Inv(s) && Enabled(s, step)
    requires step.Acquire? || step.EndDelivery? || step.Register? || step.RegisterElsewhere? || step.Unregister?
    ensures var t := Apply(s, step); Shaped(t) && forall i: nat :: i < |t.pipe.slots| ==> SlotOk(t, i)
  {
    var t := Apply(s, step);
    forall i: nat | i < |t.pipe.slots|
      ensures SlotOk(t, i)
    {
      assert SlotOk(s, i) && Pending(t, i) == Pending(s, i);
    }
  }

  function Below(n: nat): (r: set<nat>)
    ensures |r| == n && forall i: nat :: i in r <==> i < n
  {
    if n == 0 then {} else Below(n - 1) + {n - 1}
  }

  lemma NoFreeSlot(slots: seq<SubPipe>)
    ensures FirstFree(slots, 0).None? ==> |NonFree(slots)| == |slots|
  {
    if FirstFree(slots, 0).None? {
      assert NonFree(slots) == Below(|slots|);
    }
  }

  lemma TakeInv(s: System)
    requires Inv(s) && Enabled(s, Take)
    ensures Inv(Apply(s, Take))
  {
    NoFreeSlot(s.pipe.slots);
    var i := FirstFree(s.pipe.slots, 0).value;
    var t := Apply(s, Take);
    NonFreeAfter(s.pipe.slots, i, t.pipe.slots[i]);
    TakenSlots(s);
  }

  lemma TakenSlots(s: System)
    requires Inv(s) && Enabled(s, Take) && FirstFree(s.pipe.slots, 0).Some?
    ensures var t := Apply(s, Take); Shaped(t) && forall i: nat :: i < |t.pipe.slots| ==> SlotOk(t, i)
  {
    var t := Apply(s, Take);
    forall j: nat | j < |t.pipe.slots|
      ensures SlotOk(t, j)
    {
      assert SlotOk(s, j) && Pending(t, j) == Pending(s, j);
    }
  }

  lemma PublishInv(s: System, slot: nat, notifyReaders: bool)
    requires Inv(s) && Enabled(s, Publish(slot, notifyReaders))
    ensures Inv(Apply(s, Publish(slot, notifyReaders)))
  {
    var t := Apply(s, Publish(slot, notifyReaders));
    PublishKeepsPermits(s, slot, notifyReaders);
    assert Drained(t.pipe) == t.pipe.listeners == s.issued;
    PublishedSlots(s, slot, notifyReaders);
  }

  lemma PublishKeepsPermits(s: System, slot: nat, notifyReaders: bool)
    requires Inv(s) && Enabled(s, Publish(slot, notifyReaders))
    ensures var t := Apply(s, Publish(slot, notifyReaders));
            t.pipe.sem + t.permits + |NonFree(t.pipe.slots)| == |t.pipe.slots|
  {
    var t := Apply(s, Publish(slot, notifyReaders));
    assert SlotOk(s, slot) && slot in NonFree(s.pipe.slots);
    assert t.pipe.slots == s.pipe.slots[slot := t.pipe.slots[slot]];
    NonFreeAfter(s.pipe.slots, slot, t.pipe.slots[slot]);
    assert NonFree(s.pipe.slots) + {slot} == NonFree(s.pipe.slots);
  }

  lemma PublishedSlots(s: System, slot: nat, notifyReaders: bool)
    requires Inv(s) && Enabled(s, Publish(slot, notifyReaders))
    ensures var t := Apply(s, Publish(slot, notifyReaders));
            Shaped(t) && forall i: nat :: i < |t.pipe.slots| ==> SlotOk(t, i)
  {
    var t := Apply(s, Publish(slot, notifyReaders));
    forall i: nat | i < |t.pipe.slots|
      ensures SlotOk(t, i)
    {
      assert SlotOk(s, i) && Pending(s, i) == {};
      if t.delivery.Some? && i == slot {
        assert Pending(t, i) == t.pipe.listeners;
      }
    }
  }

  lemma CallInv(s: System, l: int)
    requires Inv(s) && Enabled(s, Call(l))
    ensures Inv(Apply(s, Call(l)))
  {
    var t := Apply(s, Call(l));
    var slot := s.delivery.value.slot;
    assert SlotOk(s, slot);
    assert Pending(t, slot) == Pending(s, slot) - {l};
    assert forall a :: 0 <= a < |s.called| ==> s.called[a] in s.called;
    assert forall k :: k in s.audience && s.delivery.value.cursor < k <= l ==> k in Pending(s, slot);
    assert forall k :: k in t.called <==> k in s.called || k == l;
    forall i: nat | i < |t.pipe.slots|
      ensures SlotOk(t, i)
    {
      assert SlotOk(s, i);
      if i != slot { assert Pending(t, i) == Pending(s, i); }
    }
  }

  lemma ReleaseInv(s: System, slot: nat, l: int)
    requires Inv(s) && Enabled(s, Release(slot, l))
    ensures Inv(Apply(s, Release(slot, l)))
  {
    var t := Apply(s, Release(slot, l));
    assert SlotOk(s, slot) && slot in NonFree(s.pipe.slots);
    NonFreeAfter(s.pipe.slots, slot, t.pipe.slots[slot]);
    assert t.pipe.slots == s.pipe.slots[slot := t.pipe.slots[slot]];
    assert NonFree(s.pipe.slots) + {slot} == NonFree(s.pipe.slots);
    assert Drained(t.pipe) == Drained(s.pipe);
    ReleasedSlots(s, slot, l);
  }

  lemma ReleasedSlots(s: System, slot: nat, l: int)
    requires Inv(s) && Enabled(s, Release(slot, l))
    ensures var t := Apply(s, Release(slot, l));
            Shaped(t) && forall i: nat :: i < |t.pipe.slots| ==> SlotOk(t, i)
  {
    var t := Apply(s, Release(slot, l));
    forall i: nat | i < |t.pipe.slots|
      ensures SlotOk(t, i)
    {
      assert SlotOk(s, i) && Pending(t, i) == Pending(s, i);
    }
  }

  lemma {:induction false} RunInv(s: System, steps: seq<Step>)
    requires Inv(s) && Legal(s, steps)
    ensures Inv(Run(s, steps))
    decreases |steps|
  {
    if steps != [] {
      StepInv(s, steps[0]);
      RunInv(Apply(s, steps[0]), steps[1..]);
    }
  }

  // ----- What every run of a pipe of any size satisfies -----

  /** Permits are conserved, so getFree always finds a slot and the semaphore never exceeds its bound. */
  lemma PermitsConserved(size: nat, steps: seq<Step>)
    requires Legal(Initial(size), steps)
    ensures var t := Run(Initial(size), steps);
            && |t.pipe.slots| == size
            && t.pipe.sem + t.permits + |NonFree(t.pipe.slots)| == size
            && !t.thrown
            && (t.permits > 0 ==> GetFree(t.pipe).1.Some?)
  {
    InitialInv(size);
    RunInv(Initial(size), steps);
    RunSize(Initial(size), steps);
    NoFreeSlot(Run(Initial(size), steps).pipe.slots);
  }

  lemma {:induction false} RunSize(s: System, steps: seq<Step>)
    requires Inv(s) && Legal(s, steps)
    ensures |Run(s, steps).pipe.slots| == |s.pipe.slots|
    decreases |steps|
  {
    if steps != [] {
      StepInv(s, steps[0]);
      RunSize(Apply(s, steps[0]), steps[1..]);
    }
  }

  ghost predicate BeingRead(s: System, i: nat)
    requires Shaped(s) && i < |s.pipe.slots|
  {
    Pending(s, i) + s.readers[i] != {}
  }

  /** A slot is free, held by one writer, or being read, and never two of these; while it is read its
      counter is the listeners not yet called plus those called and not yet released; and it has
      been set free exactly once for each time a writer took it, but for the current hold. */
  lemma SlotsExclusive(size: nat, steps: seq<Step>, i: nat)
    requires Legal(Initial(size), steps) && i < size
    ensures var t := Run(Initial(size), steps);
            && |t.pipe.slots| == size && Shaped(t)
            && (t.pipe.slots[i].isFree <==> i !in t.held && !BeingRead(t, i))
            && !(i in t.held && BeingRead(t, i))
            && (BeingRead(t, i) ==> t.pipe.slots[i].readings == |Pending(t, i)| + |t.readers[i]|)
            && t.taken[i] == t.freed[i] + (if t.pipe.slots[i].isFree then 0 else 1)
  {
    PermitsConserved(size, steps);
    InitialInv(size);
    RunInv(Initial(size), steps);
    var t := Run(Initial(size), steps);
    assert SlotOk(t, i);
    if Pending(t, i) + t.readers[i] == {} {
      assert Pending(t, i) == {} && t.readers[i] == {};
    }
  }

  /** A release sets its slot free exactly when no listener is left to call and it is the last. */
  lemma LastReleaseFrees(size: nat, steps: seq<Step>, slot: nat, l: int)
    requires Legal(Initial(size), steps + [Release(slot, l)])
    ensures Legal(Initial(size), steps)
    ensures var s := Run(Initial(size), steps);
            var t := Run(Initial(size), steps + [Release(slot, l)]);
            && slot < |s.pipe.slots| == |t.pipe.slots| && Shaped(s)
            && !s.pipe.slots[slot].isFree
            && (t.pipe.slots[slot].isFree <==> Pending(s, slot) == {} && s.readers[slot] == {l})
  {
    RunAppend(Initial(size), steps, [Release(slot, l)]);
    InitialInv(size);
    RunInv(Initial(size), steps);
    var s := Run(Initial(size), steps);
    assert Enabled(s, Release(slot, l));
    assert SlotOk(s, slot);
    if |Pending(s, slot)| + |s.readers[slot]| == 1 {
      assert |s.readers[slot] - {l}| == 0;
      assert s.readers[slot] == {l};
    }
  }

  lemma {:induction false} RunAppend(s: System, a: seq<Step>, b: seq<Step>)
    ensures Legal(s, a + b) <==> Legal(s, a) && Legal(Run(s, a), b)
    ensures Legal(s, a + b) ==> Run(s, a + b) == Run(Run(s, a), b)
    decreases |a|
  {
    if a == [] {
      assert a + b == b;
    } else {
      assert (a + b)[0] == a[0] && (a + b)[1..] == a[1..] + b;
      if Enabled(s, a[0]) { RunAppend(Apply(s, a[0]), a[1..], b); }
    }
  }

  /** When nobody holds anything, every slot is free and every permit is back. */
  lemma QuietPipeIsEmpty(size: nat, steps: seq<Step>)
    requires Legal(Initial(size), steps)
    requires var t := Run(Initial(size), steps);
             && t.permits == 0 && t.held == {} && t.delivery == None
             && forall i :: 0 <= i < |t.readers| ==> t.readers[i] == {}
    ensures var t := Run(Initial(size), steps);
            t.pipe.sem == size && forall i :: 0 <= i < |t.pipe.slots| ==> t.pipe.slots[i].isFree
  {
    var t := Run(Initial(size), steps);
    PermitsConserved(size, steps);
    forall i: nat | i < |t.pipe.slots|
      ensures t.pipe.slots[i].isFree
    {
      SlotsExclusive(size, steps, i);
    }
    assert NonFree(t.pipe.slots) == {};
  }

  predicate NoPublish(steps: seq<Step>) {
    forall i :: 0 <= i < |steps| ==> !steps[i].Publish? && !steps[i].EndDelivery?
  }

  lemma {:induction false} AudienceFrozen(s: System, steps: seq<Step>)
    requires Legal(s, steps) && NoPublish(steps)
    ensures Run(s, steps).audience == s.audience
    ensures s.delivery.Some? ==>
              Run(s, steps).delivery.Some? && Run(s, steps).delivery.value.slot == s.delivery.value.slot
    ensures s.delivery == None ==> Run(s, steps).delivery == None && Run(s, steps).called == s.called
    decreases |steps|
  {
    if steps != [] {
      AudienceFrozen(Apply(s, steps[0]), steps[1..]);
    }
  }

  /** Publishing a slot begins its delivery exactly when readers are to be notified and somebody is
      registered: then all of those are still to be called, and are what the counter says. Otherwise
      the slot is free at once and its permit is back. No other slot changes. */
  lemma PublishStarts(s: System, slot: nat, notifyReaders: bool)
    requires Inv(s) && Enabled(s, Publish(slot, notifyReaders))
    ensures var t := Apply(s, Publish(slot, notifyReaders));
            && |t.pipe.slots| == |s.pipe.slots| && t.issued == s.issued && t.held == s.held - {slot}
            && (t.delivery.Some? <==> notifyReaders && s.issued != {})
            && (t.delivery.Some? ==>
                  && t.delivery.value.slot == slot && Pending(t, slot) == s.issued && t.called == []
                  && !t.pipe.slots[slot].isFree && t.pipe.slots[slot].readings == |s.issued|
                  && t.pipe.sem == s.pipe.sem)
            && (t.delivery == None ==> t.pipe.slots[slot].isFree && t.pipe.sem == s.pipe.sem + 1)
            && forall i :: 0 <= i < |s.pipe.slots| && i != slot ==> t.pipe.slots[i] == s.pipe.slots[i]
  {
    var t := Apply(s, Publish(slot, notifyReaders));
    assert t.pipe.listeners == Drained(s.pipe) == s.issued;
    assert t.delivery.Some? <==> notifyReaders && s.issued != {};
    assert SlotOk(s, slot);
    if t.delivery.Some? { assert Pending(t, slot) == s.issued; }
  }

  /** A permit is turned into the lowest free slot, and a release counts one reader down and frees the slot
      after the last one; nothing else of the pipe changes. */
  lemma TakeAndRelease(s: System, slot: nat, l: int)
    requires Inv(s)
    ensures Enabled(s, Take) ==>
              var t := Apply(s, Take);
              exists i :: 0 <= i < |s.pipe.slots| && s.pipe.slots[i].isFree && t.held == s.held + {i} &&
                          (forall k :: 0 <= k < i ==> !s.pipe.slots[k].isFree) &&
                          t.pipe == s.pipe.(slots := s.pipe.slots[i := s.pipe.slots[i].(isFree := false)])
    ensures Enabled(s, Release(slot, l)) ==>
              var t := Apply(s, Release(slot, l));
              var left := s.pipe.slots[slot].readings - 1;
              && left >= 0 && t.readers == s.readers[slot := s.readers[slot] - {l}]
              && t.pipe == s.pipe.(slots := s.pipe.slots[slot := SubPipe(left == 0, left)],
                                   sem := if left == 0 then s.pipe.sem + 1 else s.pipe.sem)
  {
    if Enabled(s, Take) {
      NoFreeSlot(s.pipe.slots);
      assert s.pipe.slots[FirstFree(s.pipe.slots, 0).value].isFree;
    }
    if Enabled(s, Release(slot, l)) {
      assert SlotOk(s, slot) && l in s.readers[slot];
    }
  }

  // The registration calls of a run, with the indices that were handed out.
  function CallsOf(s: System, steps: seq<Step>): seq<MediaPipe.Call>
    requires Legal(s, steps)
    decreases |steps|
  {
    if steps == [] then []
    else
      var rest := CallsOf(Apply(s, steps[0]), steps[1..]);
      match steps[0]
      case Register => [Add(s.pipe.listenerFreeIndex + 1)] + rest
      case Unregister(id) => [Remove(id)] + rest
      case _ => rest
  }

  lemma {:induction false} InOrderFrom(listeners: set<int>, first: MediaPipe.Call, calls: seq<MediaPipe.Call>)
    ensures InOrder(listeners, [first] + calls) == InOrder(InOrder(listeners, [first]), calls)
    decreases |calls|
  {
    if calls == [] {
      assert [first] + calls == [first];
    } else {
      var n := |calls| - 1;
      assert ([first] + calls)[..n + 1] == [first] + calls[..n];
      InOrderFrom(listeners, first, calls[..n]);
    }
  }

  lemma OneCall(listeners: set<int>, call: MediaPipe.Call)
    ensures InOrder(listeners, [call]) == if call.Add? then listeners + {call.id} else listeners - {call.id}
  {
    assert [call][..0] == [];
    assert InOrder(listeners, [call][..0]) == listeners;
  }

  /** Who is registered at any time is what the calls so far give in issue order. */
  lemma {:induction false} IssuedInOrder(s: System, steps: seq<Step>)
    requires Legal(s, steps)
    ensures Run(s, steps).issued == InOrder(s.issued, CallsOf(s, steps))
    decreases |steps|
  {
    if steps != [] {
      var t := Apply(s, steps[0]);
      IssuedInOrder(t, steps[1..]);
      if steps[0].Register? || steps[0].Unregister? {
        var call := if steps[0].Register? then Add(s.pipe.listenerFreeIndex + 1) else Remove(steps[0].id);
        OneCall(s.issued, call);
        InOrderFrom(s.issued, call, CallsOf(t, steps[1..]));
      }
    }
  }

  lemma {:induction false} LeastOf(s: set<int>) returns (least: int)
    requires s != {}
    ensures least in s && forall k :: k in s ==> least <= k
    decreases |s|
  {
    assert (exists x :: x in s) || s == {};
    least :| least in s;
    var rest := s - {least};
    assert forall k :: k in s ==> k == least || k in rest;
    if rest != {} {
      var other := LeastOf(rest);
      if other < least { least := other; }
    }
  }

  // At any moment of its delivery, the listeners of a slot are called or pending, in index order, and
  // the next one can be called.
  ghost predicate Delivering(t: System, slot: nat, listeners: set<int>) {
    && t.delivery.Some? && t.delivery.value.slot == slot
    && (forall l :: l in listeners <==> l in t.called || l in Pending(t, slot))
    && (forall l, k :: l in t.called && k in Pending(t, slot) ==> l < k)
    && (forall a, b :: 0 <= a < b < |t.called| ==> t.called[a] < t.called[b])
    && (Enabled(t, EndDelivery) <==> forall l :: l in listeners ==> l in t.called)
    && (Enabled(t, EndDelivery) || exists l :: Enabled(t, Call(l)))
  }

  /** A publication that notifies calls, once each and in index order, exactly the listeners that the
      registration calls made before it leave registered in issue order; it can always go on to
      the next one, and ends only when all have been called. Calls made while it runs, from a
      callback or from another thread, change nothing about it. With nobody registered, or
      nobody to notify, the slot is free at once. */
  lemma WholeDelivery(size: nat, before: seq<Step>, slot: nat, notifyReaders: bool, during: seq<Step>)
    requires Legal(Initial(size), before) && Enabled(Run(Initial(size), before), Publish(slot, notifyReaders))
    requires Legal(Apply(Run(Initial(size), before), Publish(slot, notifyReaders)), during) && NoPublish(during)
    ensures var listeners := InOrder({}, CallsOf(Initial(size), before));
            var p := Apply(Run(Initial(size), before), Publish(slot, notifyReaders));
            var t := Run(p, during);
            if notifyReaders && listeners != {} then Delivering(t, slot, listeners)
            else t.delivery == None && slot < |p.pipe.slots| && p.pipe.slots[slot].isFree
  {
    InitialInv(size);
    RunInv(Initial(size), before);
    IssuedInOrder(Initial(size), before);
    var s := Run(Initial(size), before);
    var p := Apply(s, Publish(slot, notifyReaders));
    StepInv(s, Publish(slot, notifyReaders));
    PublishStarts(s, slot, notifyReaders);
    RunInv(p, during);
    AudienceFrozen(p, during);
    if p.delivery.Some? {
      StillDelivering(Run(p, during));
    }
  }

  lemma StillDelivering(t: System)
    requires Inv(t) && t.delivery.Some?
    ensures Delivering(t, t.delivery.value.slot, t.audience)
  {
    var pending := Pending(t, t.delivery.value.slot);
    assert forall l :: l in t.audience && l > t.delivery.value.cursor ==> l in pending;
    if pending != {} {
      var l := LeastOf(pending);
      assert Enabled(t, Call(l));
    }
  }

  // ----- One listener's share, for its clients -----

  // The slots that were delivered to `me` and that it has not released.
  function Outstanding(s: System, me: int): set<nat> {
    set i: nat | 0 <= i < |s.readers| && me in s.readers[i]
  }

  // A step in which `me` neither is called nor releases.
  predicate StepOfOthers(step: Step, me: int) {
    match step
    case Call(l) => l != me
    case Release(_, l) => l != me
    case _ => true
  }

  lemma OthersKeepOutstanding(s: System, step: Step, me: int)
    requires Enabled(s, step) && StepOfOthers(step, me)
    ensures Outstanding(Apply(s, step), me) == Outstanding(s, me)
  {
  }

  lemma CallAddsOutstanding(s: System, me: int)
    requires Inv(s) && Enabled(s, Call(me))
    ensures var slot := s.delivery.value.slot;
            slot !in Outstanding(s, me) && Outstanding(Apply(s, Call(me)), me) == Outstanding(s, me) + {slot}
  {
    assert SlotOk(s, s.delivery.value.slot);
  }

  lemma ReleaseDropsOutstanding(s: System, slot: nat, me: int)
    requires Shaped(s)
    ensures Enabled(s, Release(slot, me)) <==> slot in Outstanding(s, me)
    ensures Enabled(s, Release(slot, me)) ==>
              Outstanding(Apply(s, Release(slot, me)), me) == Outstanding(s, me) - {slot}
  {
  }

  // What unmapReading does for a client, whether it is owed a release or not: the pipe cannot tell.
  function Releasing(s: System, slot: nat, me: int): System {
    if Enabled(s, Release(slot, me)) then Apply(s, Release(slot, me))
    else if slot < |s.pipe.slots| then s.(pipe := UnmapReading(s.pipe, slot))
    else s
  }

  lemma ReleasingKeepsReaders(s: System, slot: nat, me: int)
    requires Shaped(s)
    ensures Outstanding(Releasing(s, slot, me), me) == Outstanding(s, me) - {slot}
  {
    ReleaseDropsOutstanding(s, slot, me);
  }

  /** A release that is not owed does no harm exactly when the slot is free, or when a writer holds it
      and its old counter is not one. */
  lemma UnowedRelease(s: System, slot: nat, me: int)
    requires Inv(s) && slot < |s.pipe.slots| && slot !in Outstanding(s, me)
    ensures Inv(Releasing(s, slot, me)) <==>
            s.pipe.slots[slot].isFree || (slot in s.held && s.pipe.slots[slot].readings != 1)
  {
    var t := Releasing(s, slot, me);
    assert SlotOk(s, slot);
    if s.pipe.slots[slot].isFree || (slot in s.held && s.pipe.slots[slot].readings != 1) {
      UnowedIsHarmless(s, slot, me);
    } else if slot in s.held {
      assert t.pipe.slots[slot].isFree;
      assert !SlotOk(t, slot);
    } else {
      assert Pending(t, slot) == Pending(s, slot);
      assert !SlotOk(t, slot);
    }
  }

  lemma UnowedIsHarmless(s: System, slot: nat, me: int)
    requires Inv(s) && slot < |s.pipe.slots| && slot !in Outstanding(s, me)
    requires s.pipe.slots[slot].isFree || (slot in s.held && s.pipe.slots[slot].readings != 1)
    ensures Inv(Releasing(s, slot, me))
  {
    var t := Releasing(s, slot, me);
    assert SlotOk(s, slot);
    NonFreeAfter(s.pipe.slots, slot, t.pipe.slots[slot]);
    assert NonFree(t.pipe.slots) == NonFree(s.pipe.slots);
    assert Drained(t.pipe) == Drained(s.pipe);
    forall i: nat | i < |t.pipe.slots|
      ensures SlotOk(t, i)
    {
      assert SlotOk(s, i) && Pending(t, i) == Pending(s, i);
    }
  }

  /** The worst of it: when one other listener has still to release the slot, an unowed release sets it
      free under that listener, and the next writer takes it while it is being read. */
  lemma FreedUnderReader(s: System, slot: nat, me: int, other: int)
    requires Inv(s) && slot < |s.pipe.slots| && slot !in s.held
    requires s.readers[slot] == {other} && Pending(s, slot) == {} && other != me
    ensures var t := Releasing(s, slot, me);
            && Shaped(t) && t.pipe.slots[slot].isFree && other in t.readers[slot]
            && (FirstFree(t.pipe.slots, 0) == Some(slot) && t.permits == 0 ==>
                  Enabled(t, Acquire) &&
                  var u := Apply(t, Acquire);
                  Enabled(u, Take) && Apply(u, Take).held == s.held + {slot} && other in Apply(u, Take).readers[slot])
  {
    assert SlotOk(s, slot);
    assert s.pipe.slots[slot].readings == 1;
  }

  // ----- The other side: a pipe with one writer -----

  lemma PublishEffect(sys: System, slot: nat, notifyReaders: bool)
    requires Enabled(sys, Publish(slot, notifyReaders))
    ensures var t := Apply(sys, Publish(slot, notifyReaders));
            && t.held == sys.held - {slot} && t.permits == sys.permits
            && |t.pipe.slots| == |sys.pipe.slots|
            && (t.delivery.Some? ==> notifyReaders)
  {
  }

  predicate NotAWriter(step: Step) {
    !step.Acquire? && !step.Take? && !step.Publish?
  }

  lemma OthersKeepWriters(sys: System, o: Step)
    requires Enabled(sys, o) && NotAWriter(o)
    ensures var t := Apply(sys, o);
            && t.permits == sys.permits && t.held == sys.held
            && |t.pipe.slots| == |sys.pipe.slots|
            && (t.delivery.Some? ==> sys.delivery.Some?)
  {
  }
}
