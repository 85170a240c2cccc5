/**
 The connection half of ServerRPCWrapper in lib/network/serverrpcwrapper.cpp: connect, the
 transport's callbacks and the queue of deferred handlers that two of them go through. Opening is
 taken not to throw, and connect to be called only while the flag is down, as the network thread
 does.
 */
module Handshake {
  import opened Common

  // The flag, the attempt whose promise is outstanding, and how many attempts there were.
  datatype Flags = Flags(connected: bool, promise: Option<nat>, attempts: nat)

  // The locked part of connect; a new promise means that the transport is opened next.
  function Begun(f: Flags): (Flags, bool) {
    if f.promise.Some? then (f, false) else (f.(promise := Some(f.attempts), attempts := f.attempts + 1), true)
  }

  // The second part of the results is the attempt whose promise is settled.
  function Opened(f: Flags): (Flags, Option<nat>) {
    (if f.promise.Some? then f.(connected := true, promise := None) else f, f.promise)
  }

  function Failed(f: Flags): (Flags, Option<nat>) {
    (f.(promise := None), f.promise)
  }

  // The handler of a close, and whether it calls back.
  function Lost(f: Flags): (Flags, bool) {
    (f.(connected := false), f.connected)
  }

  class Connection {
    var isConnected: bool
    var connectionPromise: Option<nat>
    var attempts: nat

    function State(): Flags
      reads this
    {
      Flags(isConnected, connectionPromise, attempts)
    }

    constructor ()
      ensures State() == Flags(false, None, 0)
    {
      isConnected, connectionPromise, attempts := false, None, 0;
    }

    method BeginConnect() returns (opens: bool)
      modifies this`connectionPromise, this`attempts
      ensures (State(), opens) == Begun(old(State()))
      ensures opens == (old(connectionPromise) == None)
      ensures connectionPromise == if opens then Some(old(attempts)) else old(connectionPromise)
      ensures attempts == old(attempts) + if opens then 1 else 0
    {
      opens := connectionPromise == None;
      if opens {
        connectionPromise := Some(attempts);
        attempts := attempts + 1;
      }
    }

    method OnOpen() returns (settled: Option<nat>)
      modifies this`connectionPromise, this`isConnected
      ensures (State(), settled) == Opened(old(State()))
      ensures settled == old(connectionPromise) && connectionPromise == None
      ensures isConnected == (old(isConnected) || settled.Some?)
    {
      settled := connectionPromise;
      if connectionPromise.Some? {
        isConnected := true;
        connectionPromise := None;
      }
    }

    method HandleConnectionError() returns (settled: Option<nat>)
      modifies this`connectionPromise
      ensures (State(), settled) == Failed(old(State()))
      ensures settled == old(connectionPromise) && connectionPromise == None
    {
      settled := connectionPromise;
      if connectionPromise == None {
        return;
      }
      connectionPromise := None;
    }

    method HandleClosed() returns (callback: bool)
      modifies this`isConnected
      ensures (State(), callback) == Lost(old(State()))
      ensures !isConnected && callback == old(isConnected)
    {
      if !isConnected {
        return false;
      }
      isConnected := false;
      callback := true;
    }
  }

  // ----- Interleavings -----

  // What the transport is doing; an open one may carry the number of the connection it is.
  datatype Transport = Closed | Opening | Open(connection: Option<nat>)

  // A deferred handler; that of a close remembers the connection that was lost, if it was one.
  datatype Deferred = OfError | OfClose(lost: Option<nat>)

  datatype State = State(
    flags: Flags,
    settled: seq<nat>,        // per attempt, how often its promise was settled
    rises: nat,               // how often the flag rose; the latest connection is rises - 1
    callbacks: seq<nat>,      // the connection each closed callback ended
    transport: Transport,
    queue: multiset<Deferred>,
    futures: seq<nat>,        // per finished connect, the attempt whose future it returned
    opening: multiset<nat>,   // attempts whose creator has opened the transport but not returned
    nullReads: nat)           // how often a creator found no promise to return

  datatype Step =
    | Connect
    | Return(attempt: nat)
    | TransportOpens
    | TransportFails
    | TransportCloses
    | Handle(handler: Deferred)

  function Start(): State {
    State(Flags(false, None, 0), [], 0, [], Closed, multiset{}, [], multiset{}, 0)
  }

  predicate Enabled(s: State, step: Step) {
    match step
    case Connect => !s.flags.connected
    case Return(attempt) => attempt in s.opening
    case TransportOpens => s.transport == Opening
    case TransportFails => true
    case TransportCloses => s.transport != Closed
    case Handle(handler) => handler in s.queue
  }

  function Counted(settled: seq<nat>, attempt: Option<nat>): seq<nat> {
    match attempt
    case Some(a) => if a < |settled| then settled[a := settled[a] + 1] else settled
    case None => settled
  }

  function Do(s: State, step: Step): State
    requires Enabled(s, step)
  {
    match step
    case Connect =>
      var (f, opens) := Begun(s.flags);
      if opens then
        s.(flags := f, settled := s.settled + [0], transport := Opening,
           opening := s.opening + multiset{s.flags.attempts})
      else s.(futures := s.futures + [s.flags.promise.value])
    case Return(attempt) =>
      var t := s.(opening := s.opening - multiset{attempt});
      (match s.flags.promise
       case Some(a) => t.(futures := s.futures + [a])
       case None => t.(nullReads := s.nullReads + 1))
    case TransportOpens =>
      var (f, settled) := Opened(s.flags);
      var t := s.(flags := f, settled := Counted(s.settled, settled));
      if settled.Some? then t.(rises := s.rises + 1, transport := Open(Some(s.rises)))
      else t.(transport := Open(None))
    case TransportFails => s.(queue := s.queue + multiset{OfError})
    case TransportCloses =>
      s.(queue := s.queue + multiset{OfClose(if s.transport.Open? then s.transport.connection else None)},
         transport := Closed)
    case Handle(handler) =>
      var t := s.(queue := s.queue - multiset{handler});
      (match handler
       case OfError =>
         var (f, settled) := Failed(s.flags);
         t.(flags := f, settled := Counted(s.settled, settled))
       case OfClose(_) =>
         var (f, callback) := Lost(s.flags);
         t.(flags := f, callbacks := if callback && s.rises > 0 then s.callbacks + [s.rises - 1] else s.callbacks))
  }

  predicate Legal(s: State, steps: seq<Step>)
    decreases |steps|
  {
    steps == [] || (Enabled(s, steps[0]) && Legal(Do(s, steps[0]), steps[1..]))
  }

  function Run(s: State, steps: seq<Step>): State
    requires Legal(s, steps)
    decreases |steps|
  {
    if steps == [] then s else Run(Do(s, steps[0]), steps[1..])
  }

  /** A connect without an attempt outstanding begins one and opens the transport. The attempt ends, and its
      promise is settled, when the transport opens, which raises the flag, or when an error is
      handled, which does not. Without one an opening is passed over. A close that is handled takes
      the flag down and is called back for exactly when it was up. */
  lemma AttemptBeginsAndEnds(s: State)
    requires Inv(s)
    ensures Enabled(s, Connect) && s.flags.promise == None ==>
              var t := Do(s, Connect);
              && t.flags.promise == Some(|s.settled|) && t.settled == s.settled + [0] && t.transport == Opening
              && !t.flags.connected && |s.settled| in t.opening
    ensures s.flags.promise.Some? ==>
              var a := s.flags.promise.value;
              a < |s.settled| && s.settled[a] == 0 &&
              forall step :: Enabled(s, step) && (step == TransportOpens || step == Handle(OfError)) ==>
                var t := Do(s, step);
                && t.flags.promise == None && t.settled == s.settled[a := 1]
                && (t.flags.connected <==> step == TransportOpens)
    ensures s.flags.promise == None && s.transport == Opening ==>
              Do(s, TransportOpens) == s.(transport := Open(None))
    ensures forall lost :: Enabled(s, Handle(OfClose(lost))) ==>
              var t := Do(s, Handle(OfClose(lost)));
              && !t.flags.connected && t.flags.promise == s.flags.promise && t.settled == s.settled
              && (|t.callbacks| == |s.callbacks| + 1 <==> s.flags.connected)
  {
  }

  /** An error or a close of the transport, at whatever time, has its handler run later; a close remembers
      the connection that it ends. Nothing else changes at once. */
  lemma EventsAreDeferred(s: State)
    ensures var t := Do(s, TransportFails); t == s.(queue := t.queue) && t.queue == s.queue + multiset{OfError}
    ensures s.transport != Closed ==>
              var t := Do(s, TransportCloses);
              var lost := if s.transport.Open? then s.transport.connection else None;
              && t == s.(queue := t.queue, transport := Closed) && t.queue == s.queue + multiset{OfClose(lost)}
              && !Enabled(t, TransportCloses) && !Enabled(t, TransportOpens)
  {
  }

  ghost predicate Inv(s: State) {
    && (forall a :: 0 <= a < |s.settled| ==> s.settled[a] == if s.flags.promise == Some(a) then 0 else 1)
    && (s.flags.promise.Some? ==> s.flags.promise.value == |s.settled| - 1 && !s.flags.connected)
    && |s.callbacks| + (if s.flags.connected then 1 else 0) == s.rises
    && (forall i :: 0 <= i < |s.callbacks| ==> s.callbacks[i] == i)
    && (forall a :: a in s.opening ==> a < |s.settled|)
    && s.flags.attempts == |s.settled|
    && s.rises + (if s.flags.promise.Some? then 1 else 0) <= |s.settled|
  }

  lemma StepInv(s: State, step: Step)
    requires Inv(s) && Enabled(s, step)
    ensures Inv(Do(s, step))
  {
    match step
    case Connect => ConnectInv(s);
    case Return(_) =>
    case TransportOpens => OpensInv(s);
    case TransportFails =>
    case TransportCloses =>
    case Handle(handler) => HandleInv(s, handler);
  }

  lemma ConnectInv(s: State)
    requires Inv(s) && Enabled(s, Connect)
    ensures Inv(Do(s, Connect))
  {
  }

  lemma OpensInv(s: State)
    requires Inv(s) && Enabled(s, TransportOpens)
    ensures Inv(Do(s, TransportOpens))
  {
  }

  lemma HandleInv(s: State, handler: Deferred)
    requires Inv(s) && Enabled(s, Handle(handler))
    ensures Inv(Do(s, Handle(handler)))
  {
  }

  lemma {:induction false} RunInv(s: State, steps: seq<Step>)
    requires Inv(s) && Legal(s, steps)
    ensures Inv(Run(s, steps))
    decreases |steps|
  {
    if steps != [] {
      StepInv(s, steps[0]);
      RunInv(Do(s, steps[0]), steps[1..]);
    }
  }

  /** In every run each promise is settled exactly once unless it is the outstanding one, and there
      is at most one of those; each connection's end is reported once, in order; and there are
      no more connections than attempts. */
  lemma PromisesSettledOnce(steps: seq<Step>)
    requires Legal(Start(), steps)
    ensures var s := Run(Start(), steps);
            && (forall a :: 0 <= a < |s.settled| ==> s.settled[a] == if s.flags.promise == Some(a) then 0 else 1)
            && (s.flags.promise.Some? ==> s.flags.promise.value == |s.settled| - 1 && !s.flags.connected)
            && |s.callbacks| == s.rises - (if s.flags.connected then 1 else 0)
            && (forall i :: 0 <= i < |s.callbacks| ==> s.callbacks[i] == i)
            && s.rises <= |s.settled|
  {
    RunInv(Start(), steps);
  }

  /** A connect during an attempt gets that attempt's future; the one that began it gets its own
      exactly when it is still unsettled as it returns, and otherwise reads no promise or a
      later one. */
  lemma SharedFuture(steps: seq<Step>, step: Step)
    requires Legal(Start(), steps) && Enabled(Run(Start(), steps), step)
    ensures var s := Run(Start(), steps);
            var t := Do(s, step);
            && (step.Connect? && s.flags.promise.Some? ==>
                  t.futures == s.futures + [s.flags.promise.value] && t.flags.promise == s.flags.promise)
            && (step.Return? ==>
                  step.attempt < |s.settled| &&
                  (t.futures == s.futures + [step.attempt] <==> s.settled[step.attempt] == 0) &&
                  (t.nullReads > s.nullReads <==> s.flags.promise == None))
            && (t.flags.connected && !s.flags.connected ==> step == TransportOpens && s.flags.promise.Some?)
  {
    RunInv(Start(), steps);
    var s := Run(Start(), steps);
    if step.Return? && s.flags.promise.Some? {
      assert (s.futures + [s.flags.promise.value])[|s.futures|] == s.flags.promise.value;
      assert (s.futures + [step.attempt])[|s.futures|] == step.attempt;
    }
  }

  // Both failures are reached: the transport opens before connect returns, and then there is no
  // promise to read; or the attempt fails and another connect begins the next one in between,
  // and then the first creator returns the future of that.
  lemma CreatorTooLate()
    ensures var begun := Do(Start(), Connect);
            && Enabled(Do(begun, TransportOpens), Return(0))
            && Do(Do(begun, TransportOpens), Return(0)).nullReads == 1
            && var failed := Do(begun, TransportFails);
               && Enabled(failed, Handle(OfError))
               && var again := Do(Do(failed, Handle(OfError)), Connect);
                  Enabled(again, Return(0)) && Do(again, Return(0)).futures == [1]
  {
    var failed := Do(Do(Start(), Connect), TransportFails);
    assert failed.queue == multiset{OfError};
    var again := Do(Do(failed, Handle(OfError)), Connect);
    assert 0 in again.opening && again.flags.promise == Some(1);
  }

  // While the flag is up, it tells of the latest connection: either that is open and no close
  // is on its way to the handler, or it is lost and exactly its own close is.
  ghost predicate FlagIsCurrent(s: State) {
    s.flags.connected ==>
      var latest := Some(s.rises - 1);
      if s.transport.Open? && s.transport.connection == latest then forall t :: t in s.queue ==> t == OfError
      else s.transport == Closed && s.queue[OfClose(latest)] == 1 &&
           forall t :: t in s.queue ==> t == OfError || t == OfClose(latest)
  }

  predicate CloseInFlight(s: State) {
    exists t :: t in s.queue && t.OfClose?
  }

  lemma FlagStep(s: State, step: Step)
    requires Inv(s) && FlagIsCurrent(s) && Enabled(s, step)
    ensures FlagIsCurrent(Do(s, step)) <==> !(step == TransportOpens && s.flags.promise.Some? && CloseInFlight(s))
  {
    match step
    case TransportOpens => FlagAfterOpening(s);
    case Handle(handler) => FlagAfterHandling(s, handler);
    case _ =>
  }

  lemma FlagAfterOpening(s: State)
    requires Inv(s) && FlagIsCurrent(s) && Enabled(s, TransportOpens)
    ensures FlagIsCurrent(Do(s, TransportOpens)) <==> !(s.flags.promise.Some? && CloseInFlight(s))
  {
  }

  lemma FlagAfterHandling(s: State, handler: Deferred)
    requires Inv(s) && FlagIsCurrent(s) && Enabled(s, Handle(handler))
    ensures FlagIsCurrent(Do(s, Handle(handler)))
  {
  }

  ghost predicate AlwaysCurrent(s: State, steps: seq<Step>)
    requires Legal(s, steps)
    decreases |steps|
  {
    FlagIsCurrent(s) && (steps == [] || AlwaysCurrent(Do(s, steps[0]), steps[1..]))
  }

  predicate NoStaleClose(s: State, steps: seq<Step>)
    requires Legal(s, steps)
    decreases |steps|
  {
    steps == [] ||
    (!(steps[0] == TransportOpens && s.flags.promise.Some? && CloseInFlight(s)) &&
     NoStaleClose(Do(s, steps[0]), steps[1..]))
  }

  lemma {:induction false} CurrentRun(s: State, steps: seq<Step>)
    requires Inv(s) && FlagIsCurrent(s) && Legal(s, steps)
    ensures AlwaysCurrent(s, steps) <==> NoStaleClose(s, steps)
    ensures NoStaleClose(s, steps) ==> FlagIsCurrent(Run(s, steps))
    decreases |steps|
  {
    if steps != [] {
      FlagStep(s, steps[0]);
      StepInv(s, steps[0]);
      if FlagIsCurrent(Do(s, steps[0])) { CurrentRun(Do(s, steps[0]), steps[1..]); }
    }
  }

  /** The flag tells the truth through a whole run exactly when no attempt succeeds with a close still
      in the queue; and then the closed callback only ever reports the loss of the connection
      the flag stood for. */
  lemma CallbackPerLoss(steps: seq<Step>, lost: Option<nat>)
    requires Legal(Start(), steps)
    ensures AlwaysCurrent(Start(), steps) <==> NoStaleClose(Start(), steps)
    ensures NoStaleClose(Start(), steps) && Run(Start(), steps).flags.connected &&
            OfClose(lost) in Run(Start(), steps).queue ==>
              lost == Some(Run(Start(), steps).rises - 1) && Run(Start(), steps).transport == Closed
  {
    CurrentRun(Start(), steps);
  }

  /** Otherwise it does not: when a close left over from a failed attempt is handled after the next
      attempt has succeeded, the flag falls and the callback fires while the transport is open. */
  lemma StaleClose(s: State)
    requires Inv(s) && !s.flags.connected && s.flags.promise == None && OfClose(None) in s.queue
    ensures var t := Do(Do(s, Connect), TransportOpens);
            && t.flags.connected && Enabled(t, Handle(OfClose(None)))
            && var u := Do(t, Handle(OfClose(None)));
               !u.flags.connected && u.callbacks == s.callbacks + [s.rises] && u.transport == Open(Some(s.rises))
  {
  }

  // Such a state is four steps from the start.
  lemma StaleCloseReached()
    ensures var failed := Do(Do(Do(Start(), Connect), TransportFails), TransportCloses);
            && Enabled(failed, Handle(OfError))
            && var s := Do(failed, Handle(OfError));
               !s.flags.connected && s.flags.promise == None && OfClose(None) in s.queue
  {
  }
}
