/**
 The slot pool of lib/media/datapipe.h. `Pipe` is the value of the fields that the pipe's
 mutex protects, the functions are its locked sections, and the class `DataPipe` runs those
 sections on real fields. What a listener's callback does is foreign code, so a listener is
 known by its index alone.
 */
module MediaPipe {
  import opened Common

  const SIZE_MAX: nat := 0xFFFF_FFFF_FFFF_FFFF

  datatype SubPipe = SubPipe(isFree: bool, readings: nat)

  datatype Pipe = Pipe(
    sem: nat,
    slots: seq<SubPipe>,
    listeners: set<int>,
    addQueue: seq<int>,
    removeQueue: seq<int>,
    listenerFreeIndex: int)

  function NewPipe(size: nat): Pipe {
    Pipe(size, seq(size, i => SubPipe(true, 0)), {}, [], [], 0)
  }

  // `readings` is an unsigned 64-bit counter: decrementing zero wraps around.
  function Decrement(n: nat): nat {
    if n == 0 then SIZE_MAX else n - 1
  }

  // Where the linear scan of getFree stops; `None` is its "should never happen" throw.
  function FirstFree(slots: seq<SubPipe>, from: nat): (r: Option<nat>)
    requires from <= |slots|
    ensures r.Some? ==> from <= r.value < |slots| && slots[r.value].isFree
    ensures r.Some? ==> forall i :: from <= i < r.value ==> !slots[i].isFree
    ensures r.None? ==> forall i :: from <= i < |slots| ==> !slots[i].isFree
    decreases |slots| - from
  {
    if from == |slots| then None
    else if slots[from].isFree then Some(from)
    else FirstFree(slots, from + 1)
  }

  function GetFree(p: Pipe): (Pipe, Option<nat>) {
    match FirstFree(p.slots, 0)
    case None => (p, None)
    case Some(i) => (p.(slots := p.slots[i := p.slots[i].(isFree := false)]), Some(i))
  }

  function Drained(p: Pipe): set<int> {
    (p.listeners + (set id | id in p.addQueue)) - (set id | id in p.removeQueue)
  }

  function Drain(p: Pipe): Pipe {
    p.(listeners := Drained(p), addQueue := [], removeQueue := [])
  }

  function Free(p: Pipe, index: nat): Pipe
    requires index < |p.slots|
  {
    p.(slots := p.slots[index := p.slots[index].(isFree := true)], sem := p.sem + 1)
  }

  // The locked part of unmapWriting; the flag tells whether the delivery loop follows.
  function UnmapWriting(p: Pipe, index: nat, notifyReaders: bool): (Pipe, bool)
    requires index < |p.slots|
  {
    var d := Drain(p);
    if !notifyReaders || d.listeners == {} then (Free(d, index), false)
    else (d.(slots := d.slots[index := d.slots[index].(readings := |d.listeners|)]), true)
  }

  function UnmapReading(p: Pipe, index: nat): Pipe
    requires index < |p.slots|
  {
    var n := Decrement(p.slots[index].readings);
    var q := p.(slots := p.slots[index := p.slots[index].(readings := n)]);
    if n == 0 && !p.slots[index].isFree then Free(q, index) else q
  }

  class DataPipe {
    var sem: nat
    const subpipes: array<SubPipe>
    var listeners: set<int>
    var addListenerQueue: seq<int>
    var removeListenerQueue: seq<int>
    var listenerFreeIndex: int

    function State(): Pipe
      reads this, subpipes
    {
      Pipe(sem, subpipes[..], listeners, addListenerQueue, removeListenerQueue, listenerFreeIndex)
    }

    constructor (size: nat)
      ensures fresh(subpipes) && State() == NewPipe(size)
    {
      sem := size;
      subpipes := new SubPipe[size](i => SubPipe(true, 0));
      listeners, addListenerQueue, removeListenerQueue, listenerFreeIndex := {}, [], [], 0;
    }

    // try_acquire_for once its time is over: it fails only when no permit is left.
    method TryAcquire() returns (ok: bool)
      modifies this`sem
      ensures ok == (old(sem) > 0)
      ensures sem == if ok then old(sem) - 1 else old(sem)
    {
      ok := sem > 0;
      if ok { sem := sem - 1; }
    }

    method TakeFree() returns (r: Option<nat>)
      modifies subpipes
      ensures (State(), r) == GetFree(old(State()))
      ensures r.None? ==> subpipes[..] == old(subpipes[..])
      ensures r.None? ==> forall i :: 0 <= i < subpipes.Length ==> !subpipes[i].isFree
      ensures r.Some? ==>
                && r.value < subpipes.Length && old(subpipes[r.value].isFree) && !subpipes[r.value].isFree
                && (forall i :: 0 <= i < r.value ==> !old(subpipes[i].isFree))
                && (forall i :: 0 <= i < subpipes.Length && i != r.value ==> subpipes[i] == old(subpipes[i]))
    {
      r := None;
      var i := 0;
      while i < subpipes.Length
        invariant i <= subpipes.Length
        invariant subpipes[..] == old(subpipes[..])
        invariant FirstFree(old(subpipes[..]), 0) == FirstFree(old(subpipes[..]), i)
      {
        if subpipes[i].isFree {
          subpipes[i] := subpipes[i].(isFree := false);
          return Some(i);
        }
        i := i + 1;
      }
    }

    method OnDataChanged() returns (index: int)
      modifies this`addListenerQueue, this`listenerFreeIndex
      ensures index == listenerFreeIndex == old(listenerFreeIndex) + 1
      ensures addListenerQueue == old(addListenerQueue) + [index]
    {
      listenerFreeIndex := listenerFreeIndex + 1;
      addListenerQueue := addListenerQueue + [listenerFreeIndex];
      index := listenerFreeIndex;
    }

    method RemoveListener(index: int)
      modifies this`removeListenerQueue
      ensures removeListenerQueue == old(removeListenerQueue) + [index]
    {
      removeListenerQueue := removeListenerQueue + [index];
    }

    method DrainQueues()
      modifies this`listeners, this`addListenerQueue, this`removeListenerQueue
      ensures State() == Drain(old(State()))
      ensures addListenerQueue == [] && removeListenerQueue == []
      ensures forall l :: l in listeners <==>
                (l in old(listeners) || l in old(addListenerQueue)) && l !in old(removeListenerQueue)
    {
      while |addListenerQueue| > 0
        invariant listeners + (set id | id in addListenerQueue)
               == old(listeners) + (set id | id in old(addListenerQueue))
        invariant unchanged(`removeListenerQueue)
        decreases |addListenerQueue|
      {
        var top := addListenerQueue[0];
        assert addListenerQueue == [top] + addListenerQueue[1..];
        addListenerQueue := addListenerQueue[1..];
        listeners := listeners + {top};
      }
      while |removeListenerQueue| > 0
        invariant listeners - (set id | id in removeListenerQueue) == old(Drained(State()))
        invariant addListenerQueue == []
        decreases |removeListenerQueue|
      {
        var top := removeListenerQueue[0];
        assert removeListenerQueue == [top] + removeListenerQueue[1..];
        removeListenerQueue := removeListenerQueue[1..];
        listeners := listeners - {top};
      }
    }

    method Unmap(index: nat, notifyReaders: bool) returns (deliver: bool)
      requires index < subpipes.Length
      modifies this, subpipes
      ensures (State(), deliver) == UnmapWriting(old(State()), index, notifyReaders)
      ensures deliver <==> notifyReaders && listeners != {}
      ensures if deliver
              then subpipes[index] == SubPipe(old(subpipes[index].isFree), |listeners|) && sem == old(sem)
              else subpipes[index].isFree && sem == old(sem) + 1
      ensures forall i :: 0 <= i < subpipes.Length && i != index ==> subpipes[i] == old(subpipes[i])
      ensures forall l :: l in listeners <==>
                (l in old(listeners) || l in old(addListenerQueue)) && l !in old(removeListenerQueue)
    {
      DrainQueues();
      ghost var drained := subpipes[..];
      if !notifyReaders || |listeners| == 0 {
        subpipes[index] := subpipes[index].(isFree := true);
        sem := sem + 1;
        deliver := false;
        assert subpipes[..] == drained[index := drained[index].(isFree := true)];
      } else {
        subpipes[index] := subpipes[index].(readings := |listeners|);
        deliver := true;
        assert subpipes[..] == drained[index := drained[index].(readings := |listeners|)];
      }
    }

    method ReleaseReading(index: nat)
      requires index < subpipes.Length
      modifies this`sem, subpipes
      ensures State() == UnmapReading(old(State()), index)
      ensures var left := if old(subpipes[index].readings) == 0 then SIZE_MAX else old(subpipes[index].readings) - 1;
              var last := left == 0 && !old(subpipes[index].isFree);
              && subpipes[index] == SubPipe(last || old(subpipes[index].isFree), left)
              && sem == old(sem) + if last then 1 else 0
      ensures forall i :: 0 <= i < subpipes.Length && i != index ==> subpipes[i] == old(subpipes[i])
    {
      subpipes[index] := subpipes[index].(readings := Decrement(subpipes[index].readings));
      if subpipes[index].readings == 0 && !subpipes[index].isFree {
        subpipes[index] := subpipes[index].(isFree := true);
        sem := sem + 1;
      }
    }
  }

  // Registration calls, and the two ways to apply them.

  datatype Call = Add(id: int) | Remove(id: int)

  function InOrder(listeners: set<int>, calls: seq<Call>): set<int> {
    if calls == [] then listeners
    else
      var before := InOrder(listeners, calls[..|calls| - 1]);
      match calls[|calls| - 1]
      case Add(id) => before + {id}
      case Remove(id) => before - {id}
  }

  function Batched(listeners: set<int>, calls: seq<Call>): set<int> {
    (listeners + (set c | c in calls && c.Add? :: c.id)) - (set c | c in calls && c.Remove? :: c.id)
  }

  // `id` was added at position j and never removed afterwards.
  ghost predicate StaysAdded(calls: seq<Call>, id: int, j: nat) {
    j < |calls| && calls[j] == Add(id) && Remove(id) !in calls[j + 1..]
  }

  lemma {:induction false} InOrderMember(listeners: set<int>, calls: seq<Call>, id: int)
    ensures id in InOrder(listeners, calls) <==>
            (id in listeners && Remove(id) !in calls) || exists j: nat :: StaysAdded(calls, id, j)
  {
    if calls != [] {
      var n := |calls| - 1;
      var front := calls[..n];
      InOrderMember(listeners, front, id);
      assert calls == front + [calls[n]];
      forall j: nat | j < n
        ensures StaysAdded(calls, id, j) <==> StaysAdded(front, id, j) && calls[n] != Remove(id)
      {
        assert calls[j + 1..] == front[j + 1..] + [calls[n]];
      }
      assert StaysAdded(calls, id, n) <==> calls[n] == Add(id);
      if calls[n] != Remove(id) && exists j: nat :: StaysAdded(front, id, j) {
        var j :| StaysAdded(front, id, j);
        assert StaysAdded(calls, id, j);
      }
    }
  }

  lemma BatchedAgainstInOrder(listeners: set<int>, calls: seq<Call>, id: int)
    ensures id in Batched(listeners, calls) ==> id in InOrder(listeners, calls)
    ensures id in InOrder(listeners, calls) - Batched(listeners, calls) <==>
            exists j: nat :: StaysAdded(calls, id, j) && Remove(id) in calls[..j]
  {
    InOrderMember(listeners, calls, id);
    BatchedMember(listeners, calls, id);
    if Add(id) in calls && Remove(id) !in calls {
      var j :| 0 <= j < |calls| && calls[j] == Add(id);
      assert StaysAdded(calls, id, j);
    }
    forall j: nat | StaysAdded(calls, id, j)
      ensures Remove(id) in calls <==> Remove(id) in calls[..j]
    {
      assert calls == calls[..j] + [Add(id)] + calls[j + 1..];
    }
  }

  /** Draining all additions and then all removals gives what the calls give in issue order,
      exactly when no index is removed before an addition of it that stays. */
  lemma BatchedIsInOrder(listeners: set<int>, calls: seq<Call>)
    ensures Batched(listeners, calls) == InOrder(listeners, calls) <==>
            forall id, j: nat :: StaysAdded(calls, id, j) ==> Remove(id) !in calls[..j]
  {
    var batched, inOrder := Batched(listeners, calls), InOrder(listeners, calls);
    if batched == inOrder {
      forall id, j: nat | StaysAdded(calls, id, j)
        ensures Remove(id) !in calls[..j]
      {
        BatchedAgainstInOrder(listeners, calls, id);
      }
    } else if forall id, j: nat :: StaysAdded(calls, id, j) ==> Remove(id) !in calls[..j] {
      forall id
        ensures id in batched <==> id in inOrder
      {
        BatchedAgainstInOrder(listeners, calls, id);
      }
      assert false;
    }
  }

  lemma BatchedMember(listeners: set<int>, calls: seq<Call>, id: int)
    ensures id in Batched(listeners, calls) <==>
            (id in listeners || Add(id) in calls) && Remove(id) !in calls
  {
    assert id in (set c | c in calls && c.Add? :: c.id) <==> Add(id) in calls;
    assert id in (set c | c in calls && c.Remove? :: c.id) <==> Remove(id) in calls;
  }
}
