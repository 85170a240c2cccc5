/**
 The two mutexes of the call path: the network thread of lib/network/networkcoordinator.cpp keeps the
 coordinator's through its reconnect loop and takes the wrapper's in connect; the closed handler of
 lib/network/serverrpcwrapper.cpp keeps the wrapper's and takes the coordinator's in its callback.
 */
module LockOrder {

  // Outside the coordinator's mutex; at the loop's condition before attempt i; about to lock the
  // wrapper's mutex in connect; waiting for the attempt's promise; or past the loop.
  datatype Thread =
    | Outside
    | AtCheck(i: nat)
    | WantsWrapper(i: nat)
    | Awaiting(i: nat)
    | Leaving

  datatype State = State(
    limit: nat,            // the reconnection count
    thread: Thread,
    inCallback: bool,      // the closed handler has the wrapper's mutex and wants the coordinator's
    connected: bool,
    promise: bool,         // an attempt is outstanding
    closes: nat,           // closed handlers in the queue
    calls: nat)            // calls that wait

  datatype Step =
    | Submit
    | WakeUp
    | Check
    | EnterWrapper
    | Resume
    | Leave
    | TransportOpens
    | HandleError
    | TransportCloses
    | HandleClose
    | RunCallback

  function Start(limit: nat): State {
    State(limit, Outside, false, false, false, 0, 0)
  }

  // A section that only takes one mutex and gives it back is one step; it needs that mutex free.
  predicate Enabled(s: State, step: Step) {
    match step
    case Submit => s.thread.Outside?
    case WakeUp => s.thread.Outside? && s.calls > 0
    case Check => s.thread.AtCheck?
    case EnterWrapper => s.thread.WantsWrapper? && !s.inCallback
    case Resume => s.thread.Awaiting? && !s.promise
    case Leave => s.thread.Leaving? && s.calls > 0
    case TransportOpens => !s.inCallback
    case HandleError => !s.inCallback
    case TransportCloses => true
    case HandleClose => !s.inCallback && s.closes > 0
    case RunCallback => s.inCallback && s.thread.Outside?
  }

  function Do(s: State, step: Step): State
    requires Enabled(s, step)
  {
    match step
    case Submit => s.(calls := s.calls + 1)
    case WakeUp => s.(thread := AtCheck(0))
    case Check => s.(thread := if s.thread.i < s.limit && !s.connected then WantsWrapper(s.thread.i) else Leaving)
    case EnterWrapper => s.(thread := Awaiting(s.thread.i), promise := true)
    case Resume => s.(thread := AtCheck(s.thread.i + 1))
    case Leave => s.(thread := Outside, calls := s.calls - 1)
    case TransportOpens => if s.promise then s.(connected := true, promise := false) else s
    case HandleError => s.(promise := false)
    case TransportCloses => s.(closes := s.closes + 1)
    case HandleClose => s.(closes := s.closes - 1, connected := false, inCallback := s.connected)
    case RunCallback => s.(inCallback := false)
  }

  predicate Legal(s: State, steps: seq<Step>)
    decreases |steps|
  {
    steps == [] || (Enabled(s, steps[0]) && Legal(Do(s, steps[0]), steps[1..]))
  }

  function Run(s: State, steps: seq<Step>): State
    requires Legal(s, steps)
    decreases |steps|
  {
    if steps == [] then s else Run(Do(s, steps[0]), steps[1..])
  }

  // The thread has the coordinator's mutex and waits for the wrapper's; the handler the other way.
  predicate MutualWait(s: State) {
    s.inCallback && s.thread.WantsWrapper?
  }

  // The thread is in its loop with an attempt left.
  predicate AttemptLeft(s: State) {
    match s.thread
    case AtCheck(i) => i < s.limit
    case Awaiting(i) => i + 1 < s.limit
    case _ => false
  }

  predicate Doomed(s: State) {
    s.inCallback && (s.thread.WantsWrapper? || AttemptLeft(s))
  }

  // The close of a live connection is handled while the thread has an attempt left, or the thread
  // wakes up before the callback of that close has got the coordinator's mutex.
  predicate Collides(s: State, step: Step) {
    match step
    case HandleClose => s.connected && AttemptLeft(s)
    case WakeUp => s.inCallback && s.limit > 0
    case _ => false
  }

  predicate Collided(s: State, steps: seq<Step>)
    requires Legal(s, steps)
    decreases |steps|
  {
    steps != [] && (Collides(s, steps[0]) || Collided(Do(s, steps[0]), steps[1..]))
  }

  predicate Inv(s: State) {
    && (s.promise ==> s.thread.Awaiting? && !s.connected && !s.inCallback)
    && (s.inCallback ==> !s.connected)
    && (s.thread.WantsWrapper? ==> !s.connected && s.thread.i < s.limit)
    && (!s.thread.Outside? ==> s.calls > 0)
  }

  lemma StepDooms(s: State, step: Step)
    requires Inv(s) && Enabled(s, step)
    ensures Inv(Do(s, step))
    ensures Doomed(Do(s, step)) <==> Doomed(s) || Collides(s, step)
  {
  }

  lemma {:induction false} RunDooms(s: State, steps: seq<Step>)
    requires Inv(s) && Legal(s, steps)
    ensures Inv(Run(s, steps))
    ensures Doomed(Run(s, steps)) <==> Doomed(s) || Collided(s, steps)
    decreases |steps|
  {
    if steps != [] {
      StepDooms(s, steps[0]);
      RunDooms(Do(s, steps[0]), steps[1..]);
    }
  }

  // What the thread does on its own.
  function ToTheWait(s: State): seq<Step> {
    match s.thread
    case AtCheck(_) => [Check]
    case Awaiting(_) => [Resume, Check]
    case _ => []
  }

  lemma OnlyWaits(s: State)
    requires Inv(s) && Doomed(s)
    ensures Legal(s, ToTheWait(s)) && MutualWait(Run(s, ToTheWait(s)))
  {
    match s.thread
    case AtCheck(_) => assert Legal(Do(s, Check), [Check][1..]);
    case Awaiting(_) =>
      var t := Do(s, Resume);
      assert [Resume, Check][1..] == [Check];
      assert Legal(Do(t, Check), [Check][1..]);
      assert Legal(t, [Check]);
    case _ =>
  }

  /** The thread and the closed handler come to wait for each other exactly when a close collides with the
      thread's loop. From then on, whatever else happens, the thread can only go on to that wait;
      the callback never runs, and no call can be submitted any more. */
  lemma WaitIffCollision(limit: nat, steps: seq<Step>, later: seq<Step>)
    requires Legal(Start(limit), steps) && Legal(Run(Start(limit), steps), later)
    ensures var s := Run(Start(limit), steps);
            && (Collided(Start(limit), steps) <==> Doomed(s))
            && (MutualWait(s) ==> Collided(Start(limit), steps))
            && (Collided(Start(limit), steps) ==>
                  var t := Run(s, later);
                  && Legal(t, ToTheWait(t)) && MutualWait(Run(t, ToTheWait(t)))
                  && !Enabled(t, RunCallback) && !Enabled(t, Submit) && !Enabled(t, Leave))
  {
    RunDooms(Start(limit), steps);
    var s := Run(Start(limit), steps);
    RunDooms(s, later);
    if Doomed(s) { OnlyWaits(Run(s, later)); }
  }

  /** An attempt ends with the transport open or with an error, and either can always come: then, and not
      before, the thread goes back to the loop's condition, with the flag up exactly in the first case. */
  lemma AttemptEnds(limit: nat, steps: seq<Step>)
    requires Legal(Start(limit), steps) && Run(Start(limit), steps).thread.Awaiting?
    ensures var s := Run(Start(limit), steps);
            && (Enabled(s, Resume) <==> !s.promise)
            && (s.promise ==>
                  && Enabled(s, HandleError) && Enabled(s, TransportOpens)
                  && var failed, up := Do(s, HandleError), Do(s, TransportOpens);
                     && Enabled(failed, Resume) && !failed.connected
                     && Enabled(up, Resume) && up.connected
                     && Do(failed, Resume).thread == Do(up, Resume).thread == AtCheck(s.thread.i + 1))
  {
    RunDooms(Start(limit), steps);
  }

  /** A close of the transport has its handler run later; that takes the flag down, and calls back for a live
      connection, which gives the wrapper's mutex up as soon as the thread is outside the other. */
  lemma CloseIsHandled(s: State)
    ensures Do(s, TransportCloses) == s.(closes := s.closes + 1)
    ensures Enabled(s, HandleClose) <==> !s.inCallback && s.closes > 0
    ensures Enabled(s, HandleClose) ==>
              var t := Do(s, HandleClose);
              && !t.connected && (t.inCallback <==> s.connected) && t.closes == s.closes - 1
              && t.thread == s.thread && t.promise == s.promise && t.calls == s.calls
              && (s.connected && s.thread.Outside? ==> Enabled(t, RunCallback) && !Do(t, RunCallback).inCallback)
  {
  }

  lemma Chain(s: State, steps: seq<Step>)
    requires steps != [] && Enabled(s, steps[0]) && Legal(Do(s, steps[0]), steps[1..])
    ensures Legal(s, steps) && Run(s, steps) == Run(Do(s, steps[0]), steps[1..])
  {
  }

  lemma {:induction false} RunAppend(s: State, a: seq<Step>, b: seq<Step>)
    requires Legal(s, a) && Legal(Run(s, a), b)
    ensures Legal(s, a + b) && Run(s, a + b) == Run(Run(s, a), b)
    decreases |a|
  {
    if a == [] {
      assert a + b == b;
    } else {
      assert (a + b)[0] == a[0] && (a + b)[1..] == a[1..] + b;
      RunAppend(Do(s, a[0]), a[1..], b);
    }
  }

  // One call is made over a new connection.
  function FirstCall(): seq<Step> {
    [Submit, WakeUp, Check, EnterWrapper, TransportOpens, Resume, Check, Leave]
  }

  // The connection is lost, and its close is handled after the thread has woken up for the next call.
  function Collision(): seq<Step> {
    [TransportCloses, Submit, WakeUp, HandleClose, Check]
  }

  lemma FirstCallMade(limit: nat)
    requires limit >= 1
    ensures Legal(Start(limit), FirstCall())
    ensures Run(Start(limit), FirstCall()) == State(limit, Outside, false, true, false, 0, 0)
  {
    var s1 := Do(Start(limit), Submit);
    var s2 := Do(s1, WakeUp);
    var s3 := Do(s2, Check);
    var s4 := Do(s3, EnterWrapper);
    var s5 := Do(s4, TransportOpens);
    var s6 := Do(s5, Resume);
    var s7 := Do(s6, Check);
    assert Legal(Do(s7, Leave), []);
    Chain(s7, [Leave]);
    Chain(s6, [Check, Leave]);
    Chain(s5, [Resume, Check, Leave]);
    Chain(s4, [TransportOpens, Resume, Check, Leave]);
    Chain(s3, [EnterWrapper, TransportOpens, Resume, Check, Leave]);
    Chain(s2, [Check, EnterWrapper, TransportOpens, Resume, Check, Leave]);
    Chain(s1, [WakeUp, Check, EnterWrapper, TransportOpens, Resume, Check, Leave]);
    Chain(Start(limit), FirstCall());
  }

  lemma ConnectionLost(s: State)
    requires s.limit >= 1 && s.thread.Outside? && !s.inCallback && s.connected
    ensures Legal(s, Collision()) && MutualWait(Run(s, Collision()))
  {
    var s1 := Do(s, TransportCloses);
    var s2 := Do(s1, Submit);
    var s3 := Do(s2, WakeUp);
    var s4 := Do(s3, HandleClose);
    assert Legal(Do(s4, Check), []);
    Chain(s4, [Check]);
    Chain(s3, [HandleClose, Check]);
    Chain(s2, [WakeUp, HandleClose, Check]);
    Chain(s1, [Submit, WakeUp, HandleClose, Check]);
    Chain(s, Collision());
  }

  /** Some run comes to the wait exactly when the thread is given any attempts at all. */
  lemma WaitReachable(limit: nat)
    ensures (exists steps :: Legal(Start(limit), steps) && MutualWait(Run(Start(limit), steps))) <==> limit >= 1
  {
    if limit >= 1 {
      FirstCallMade(limit);
      var s := Run(Start(limit), FirstCall());
      ConnectionLost(s);
      RunAppend(Start(limit), FirstCall(), Collision());
    } else {
      forall steps | Legal(Start(limit), steps)
        ensures !MutualWait(Run(Start(limit), steps))
      {
        RunDooms(Start(limit), steps);
        LimitStays(Start(limit), steps);
      }
    }
  }

  lemma {:induction false} LimitStays(s: State, steps: seq<Step>)
    requires Legal(s, steps)
    ensures Run(s, steps).limit == s.limit
    decreases |steps|
  {
    if steps != [] {
      LimitStays(Do(s, steps[0]), steps[1..]);
    }
  }
}
