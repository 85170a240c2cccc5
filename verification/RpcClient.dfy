/**
 The path of a call from lib/network/networkcoordinator.cpp, with its two queues and one network
 thread, to the pending-request table of lib/network/serverrpcwrapper.cpp, against a network
 that answers what it likes, in any order and any number of times.
 */
module RpcClient {
  import opened Common

  datatype Priority = AuthorizedCall | DirectCall

  datatype Status = Unknown | Success | Error

  // Each way in which the client settles a promise.
  datatype Outcome =
    | NotResponding
    | SendFailed
    | Replied(repTo: int, status: Status, payload: int)

  // ----- The coordinator's queues -----

  datatype Queues = Queues(direct: seq<nat>, authorized: seq<nat>)

  function Enqueued(q: Queues, call: nat, priority: Priority): Queues {
    match priority
    case DirectCall => q.(direct := q.direct + [call])
    case AuthorizedCall => q.(authorized := [call] + q.authorized)
  }

  predicate NothingWaits(q: Queues) {
    q.direct == [] && q.authorized == []
  }

  function Taken(q: Queues): (Queues, nat)
    requires !NothingWaits(q)
  {
    if q.direct != [] then (q.(direct := q.direct[1..]), q.direct[0])
    else (q.(authorized := q.authorized[1..]), q.authorized[0])
  }

  class NetworkCoordinator {
    var directCalls: seq<nat>
    var authorizedCalls: seq<nat>
    var reconnectionCount: int

    function State(): Queues
      reads this
    {
      Queues(directCalls, authorizedCalls)
    }

    constructor ()
      ensures State() == Queues([], []) && reconnectionCount == 5
    {
      directCalls, authorizedCalls, reconnectionCount := [], [], 5;
    }

    method ServerMethod(call: nat, priority: Priority)
      modifies this`directCalls, this`authorizedCalls
      ensures State() == Enqueued(old(State()), call, priority)
      ensures priority == DirectCall ==>
                directCalls == old(directCalls) + [call] && authorizedCalls == old(authorizedCalls)
      ensures priority == AuthorizedCall ==>
                authorizedCalls == [call] + old(authorizedCalls) && directCalls == old(directCalls)
    {
      match priority
      case DirectCall => directCalls := directCalls + [call];
      case AuthorizedCall => authorizedCalls := [call] + authorizedCalls;
    }

    method TakeMethod() returns (call: nat)
      requires !NothingWaits(State())
      modifies this`directCalls, this`authorizedCalls
      ensures (State(), call) == Taken(old(State()))
      ensures old(directCalls) != [] ==>
                old(directCalls) == [call] + directCalls && authorizedCalls == old(authorizedCalls)
      ensures old(directCalls) == [] ==> directCalls == [] && old(authorizedCalls) == [call] + authorizedCalls
    {
      if |directCalls| > 0 {
        call := directCalls[0];
        directCalls := directCalls[1..];
        return;
      }
      call := authorizedCalls[0];
      authorizedCalls := authorizedCalls[1..];
    }

    /** One turn of the thread, from the end of its wait on: `up[i]` is what isConnected answers before
        attempt i. It connects until it is up or the attempts are used up, and takes one call. */
    method Turn(up: seq<bool>) returns (call: nat, attempts: nat)
      requires !NothingWaits(State()) && |up| > reconnectionCount
      modifies this`directCalls, this`authorizedCalls
      ensures (State(), call) == Taken(old(State()))
      ensures attempts <= if reconnectionCount > 0 then reconnectionCount else 0
      ensures attempts < reconnectionCount ==> up[attempts]
      ensures forall i :: 0 <= i < attempts ==> !up[i]
    {
      attempts := 0;
      while attempts < reconnectionCount && !up[attempts]
        invariant attempts <= if reconnectionCount > 0 then reconnectionCount else 0
        invariant forall i :: 0 <= i < attempts ==> !up[i]
      {
        attempts := attempts + 1;
      }
      call := TakeMethod();
    }
  }

  // ----- The table of pending requests -----

  datatype Table = Table(requests: map<int, nat>, lastId: int)

  // A fresh message id, and the call under it; emplace leaves an existing entry alone.
  function Emplaced(t: Table, call: nat): Table {
    var id := t.lastId + 1;
    Table(if id in t.requests then t.requests else t.requests[id := call], id)
  }

  // What a response does: the table after it, and whose promise it settles in which way.
  function Answered(t: Table, repTo: int, status: Status, payload: int): (Table, Option<(nat, Outcome)>) {
    if repTo in t.requests then
      (t.(requests := t.requests - {repTo}), Some((t.requests[repTo], Replied(repTo, status, payload))))
    else (t, None)
  }

  // The pending-request half of ServerRPCWrapper.
  class RequestTable {
    var requests: map<int, nat>
    var lastId: int

    function State(): Table
      reads this
    {
      Table(requests, lastId)
    }

    constructor ()
      ensures State() == Table(map[], 1)
    {
      requests, lastId := map[], 1;
    }

    method Register(call: nat) returns (id: int)
      modifies this
      ensures State() == Emplaced(old(State()), call)
      ensures id == lastId == old(lastId) + 1
      ensures requests == if id in old(requests) then old(requests) else old(requests)[id := call]
    {
      lastId := lastId + 1;
      id := lastId;
      if id !in requests {
        requests := requests[id := call];
      }
    }

    method HandleResponse(repTo: int, status: Status, payload: int) returns (settled: Option<(nat, Outcome)>)
      modifies this`requests
      ensures (State(), settled) == Answered(old(State()), repTo, status, payload)
      ensures requests == old(requests) - {repTo}
      ensures settled == if repTo in old(requests) then Some((old(requests)[repTo], Replied(repTo, status, payload)))
                         else None
    {
      if repTo !in requests {
        return None;
      }
      settled := Some((requests[repTo], Replied(repTo, status, payload)));
      requests := requests - {repTo};
    }
  }

  // ----- The whole client; calls are numbered in submission order -----

  datatype Thread =
    | Waiting
    | InHand(call: nat)
    | Registered(call: nat)     // in the table, not yet sent

  datatype Client = Client(
    queues: Queues,
    thread: Thread,
    table: Table,
    outcomes: seq<seq<Outcome>>,// per call, how its promise was settled
    ids: map<nat, int>,         // call to message id
    received: set<nat>,         // calls whose message the server got
    unsent: set<nat>,           // calls whose send threw
    handed: seq<nat>,           // calls passed to the RPC layer and dealt with by it
    refused: seq<nat>,          // calls settled as not responding
    directIn: seq<nat>,         // direct calls in submission order
    directOut: seq<nat>)        // direct calls in the order taken

  datatype Step =
    | Submit(priority: Priority)
    | Take(connected: bool)
    | Register
    | SendOk
    | SendThrows
    | Deliver(repTo: int, status: Status, payload: int)

  function Start(): Client {
    Client(Queues([], []), Waiting, Table(map[], 1), [], map[], {}, {}, [], [], [], [])
  }

  predicate Enabled(c: Client, step: Step) {
    match step
    case Submit(_) => true
    case Take(_) =>
      c.thread == Waiting && !NothingWaits(c.queues) && Taken(c.queues).1 < |c.outcomes|
    case Register => c.thread.InHand?
    case SendOk => c.thread.Registered?
    case SendThrows => c.thread.Registered? && c.thread.call < |c.outcomes|
    case Deliver(repTo, _, _) => repTo in c.table.requests ==> c.table.requests[repTo] < |c.outcomes|
  }

  function Settle(c: Client, call: nat, o: Outcome): Client
    requires call < |c.outcomes|
  {
    c.(outcomes := c.outcomes[call := c.outcomes[call] + [o]])
  }

  function Do(c: Client, step: Step): Client
    requires Enabled(c, step)
  {
    match step
    case Submit(priority) =>
      var call := |c.outcomes|;
      c.(queues := Enqueued(c.queues, call, priority), outcomes := c.outcomes + [[]],
         directIn := if priority == DirectCall then c.directIn + [call] else c.directIn)
    case Take(connected) =>
      var (q, call) := Taken(c.queues);
      var t := c.(queues := q, directOut := if c.queues.direct != [] then c.directOut + [call] else c.directOut);
      if connected then t.(thread := InHand(call))
      else Settle(t, call, NotResponding).(refused := c.refused + [call])
    case Register =>
      var t := Emplaced(c.table, c.thread.call);
      c.(thread := Registered(c.thread.call), table := t, ids := c.ids[c.thread.call := t.lastId])
    case SendOk =>
      c.(thread := Waiting, handed := c.handed + [c.thread.call], received := c.received + {c.thread.call})
    case SendThrows =>
      Settle(c, c.thread.call, SendFailed).(thread := Waiting, handed := c.handed + [c.thread.call],
                                            unsent := c.unsent + {c.thread.call})
    case Deliver(repTo, status, payload) =>
      match Answered(c.table, repTo, status, payload)
      case (t, Some((call, outcome))) => Settle(c, call, outcome).(table := t)
      case (_, None) => c
  }

  predicate Legal(c: Client, steps: seq<Step>)
    decreases |steps|
  {
    steps == [] || (Enabled(c, steps[0]) && Legal(Do(c, steps[0]), steps[1..]))
  }

  function Run(c: Client, steps: seq<Step>): Client
    requires Legal(c, steps)
    decreases |steps|
  {
    if steps == [] then c else Run(Do(c, steps[0]), steps[1..])
  }

  // ----- What each step does to the calls -----

  /** A submitted call is unsettled and waits at the back, if it is a direct one, or in front. The call
      taken goes on to the RPC layer when the client is connected, and is settled as not responding
      otherwise. */
  lemma SubmitAndTake(c: Client, priority: Priority, connected: bool)
    ensures var t := Do(c, Submit(priority));
            && t.outcomes == c.outcomes + [[]] && t.thread == c.thread && t.table == c.table && t.ids == c.ids
            && (priority == DirectCall ==> t.queues == Queues(c.queues.direct + [|c.outcomes|], c.queues.authorized))
            && (priority == AuthorizedCall ==>
                  t.queues == Queues(c.queues.direct, [|c.outcomes|] + c.queues.authorized))
    ensures Enabled(c, Take(connected)) ==>
              var t := Do(c, Take(connected));
              var call := if c.queues.direct != [] then c.queues.direct[0] else c.queues.authorized[0];
              && call < |c.outcomes| && t.table == c.table && t.ids == c.ids
              && (connected ==> t.thread == InHand(call) && t.outcomes == c.outcomes && t.refused == c.refused)
              && (!connected ==>
                    && t.thread == Waiting && t.refused == c.refused + [call]
                    && t.outcomes == c.outcomes[call := c.outcomes[call] + [NotResponding]])
  {
  }

  /** A call goes into the table under the next message id before it is sent. Sent, it is with the server;
      if the send throws, its promise is settled, and its entry stays. */
  lemma RegisterAndSend(c: Client, thrown: bool)
    requires TableInv(c)
    ensures Enabled(c, Register) ==>
              var t, id := Do(c, Register), c.table.lastId + 1;
              && t.thread == Registered(c.thread.call) && t.table.lastId == id && t.outcomes == c.outcomes
              && t.table.requests == c.table.requests[id := c.thread.call] && t.ids == c.ids[c.thread.call := id]
    ensures Enabled(c, if thrown then SendThrows else SendOk) ==>
              var t, call := Do(c, if thrown then SendThrows else SendOk), c.thread.call;
              && t.thread == Waiting && t.table == c.table && t.handed == c.handed + [call]
              && (thrown ==> call < |c.outcomes| && t.outcomes == c.outcomes[call := c.outcomes[call] + [SendFailed]])
              && (thrown ==> t.unsent == c.unsent + {call} && t.received == c.received)
              && (!thrown ==> t.outcomes == c.outcomes && t.received == c.received + {call} && t.unsent == c.unsent)
  {
    if Enabled(c, Register) { NewIdIsFree(c); }
  }

  /** A reply to a pending request settles the call that took its id, with the status and the payload that
      came, and takes the request out; a reply to anything else changes nothing. */
  lemma ReplySettles(c: Client, repTo: int, status: Status, payload: int)
    requires TableInv(c)
    ensures var step := Deliver(repTo, status, payload);
            Enabled(c, step) &&
            var t := Do(c, step);
            if repTo in c.table.requests then
              var call := c.table.requests[repTo];
              && call in c.ids && c.ids[call] == repTo && call < |c.outcomes|
              && t == c.(table := t.table, outcomes := t.outcomes)
              && t.table == Table(c.table.requests - {repTo}, c.table.lastId)
              && t.outcomes == c.outcomes[call := c.outcomes[call] + [Replied(repTo, status, payload)]]
            else t == c
  {
  }

  // ----- Where calls are -----

  function Hand(c: Client): seq<nat> {
    if c.thread == Waiting then [] else [c.thread.call]
  }

  function Places(c: Client): multiset<nat> {
    Waits(c.queues) + Left(c)
  }

  function Numbers(n: nat): seq<nat> {
    seq(n, i => i)
  }

  predicate Increasing(s: seq<nat>) {
    forall i, j :: 0 <= i < j < |s| ==> s[i] < s[j]
  }

  predicate Decreasing(s: seq<nat>) {
    forall i, j :: 0 <= i < j < |s| ==> s[i] > s[j]
  }

  ghost predicate Conserved(c: Client) {
    Places(c) == multiset(Numbers(|c.outcomes|))
  }

  ghost predicate InOrder(c: Client) {
    && Increasing(c.queues.direct) && Decreasing(c.queues.authorized)
    && (forall i :: 0 <= i < |c.queues.direct| ==> c.queues.direct[i] < |c.outcomes|)
    && (forall i :: 0 <= i < |c.queues.authorized| ==> c.queues.authorized[i] < |c.outcomes|)
    && c.directOut + c.queues.direct == c.directIn
  }

  lemma StepConserves(c: Client, step: Step)
    requires Conserved(c) && Enabled(c, step)
    ensures Conserved(Do(c, step))
  {
    match step
    case Submit(priority) => SubmitConserves(c, priority);
    case Take(connected) => TakeConserves(c, connected);
    case Register =>
    case SendOk => SendConserves(c, step);
    case SendThrows => SendConserves(c, step);
    case Deliver(_, _, _) =>
  }

  function Waits(q: Queues): multiset<nat> {
    multiset(q.direct) + multiset(q.authorized)
  }

  // The calls that no longer wait.
  function Left(c: Client): multiset<nat> {
    multiset(Hand(c)) + multiset(c.handed) + multiset(c.refused)
  }

  lemma SubmitConserves(c: Client, priority: Priority)
    requires Conserved(c)
    ensures Conserved(Do(c, Submit(priority)))
  {
    var t := Do(c, Submit(priority));
    NumbersGrow(|c.outcomes|);
    EnqueuedIsOneMore(c.queues, |c.outcomes|, priority);
    OneMoreWaits(c, t, |c.outcomes|);
  }

  lemma OneMoreWaits(c: Client, t: Client, call: nat)
    requires Waits(t.queues) == Waits(c.queues) + multiset{call} && Left(t) == Left(c)
    ensures Places(t) == Places(c) + multiset{call}
  {
  }

  lemma NumbersGrow(n: nat)
    ensures multiset(Numbers(n + 1)) == multiset(Numbers(n)) + multiset{n}
  {
    assert Numbers(n + 1) == Numbers(n) + [n];
  }

  lemma EnqueuedIsOneMore(q: Queues, call: nat, priority: Priority)
    ensures Waits(Enqueued(q, call, priority)) == Waits(q) + multiset{call}
  {
  }

  lemma SendConserves(c: Client, step: Step)
    requires Conserved(c) && (step.SendOk? || step.SendThrows?) && Enabled(c, step)
    ensures Conserved(Do(c, step))
  {
    assert multiset(Do(c, step).handed) == multiset(c.handed) + multiset(Hand(c));
  }

  lemma TakenIsOne(q: Queues)
    requires !NothingWaits(q)
    ensures Waits(q) == Waits(Taken(q).0) + multiset{Taken(q).1}
  {
    var (r, call) := Taken(q);
    if q.direct != [] {
      assert q.direct == [call] + r.direct;
    } else {
      assert q.authorized == [call] + r.authorized;
    }
  }

  lemma TakeConserves(c: Client, connected: bool)
    requires Conserved(c) && Enabled(c, Take(connected))
    ensures Conserved(Do(c, Take(connected)))
  {
    var t := Do(c, Take(connected));
    TakenIsOne(c.queues);
    assert Left(t) == Left(c) + multiset{Taken(c.queues).1};
  }

  lemma StepKeepsOrder(c: Client, step: Step)
    requires InOrder(c) && Enabled(c, step)
    ensures InOrder(Do(c, step))
  {
    match step
    case Submit(priority) => SubmitKeepsOrder(c, priority);
    case Take(connected) => TakeKeepsOrder(c, connected);
    case _ =>
  }

  lemma SubmitKeepsOrder(c: Client, priority: Priority)
    requires InOrder(c)
    ensures InOrder(Do(c, Submit(priority)))
  {
    var t := Do(c, Submit(priority));
    if priority.DirectCall? {
      assert t.directOut + t.queues.direct == (c.directOut + c.queues.direct) + [|c.outcomes|];
    }
  }

  lemma TakeKeepsOrder(c: Client, connected: bool)
    requires InOrder(c) && Enabled(c, Take(connected))
    ensures InOrder(Do(c, Take(connected)))
  {
    var t := Do(c, Take(connected));
    if c.queues.direct != [] {
      var d := c.queues.direct;
      assert d == [d[0]] + d[1..];
      assert (c.directOut + [d[0]]) + d[1..] == c.directOut + d;
    }
  }

  lemma {:induction false} RunKeepsQueues(c: Client, steps: seq<Step>)
    requires Conserved(c) && InOrder(c) && Legal(c, steps)
    ensures Conserved(Run(c, steps)) && InOrder(Run(c, steps))
    decreases |steps|
  {
    if steps != [] {
      StepConserves(c, steps[0]);
      StepKeepsOrder(c, steps[0]);
      RunKeepsQueues(Do(c, steps[0]), steps[1..]);
    }
  }

  /** Every submitted call is in exactly one place: waiting direct, waiting authorized, in the thread's
      hand, handed to the RPC layer, or refused. */
  lemma CallsConserved(steps: seq<Step>)
    requires Legal(Start(), steps)
    ensures var c := Run(Start(), steps);
            Places(c) == multiset(Numbers(|c.outcomes|))
  {
    RunKeepsQueues(Start(), steps);
  }

  // The oldest direct call, or, when none waits, the newest authorized one.
  ghost predicate NextToLeave(q: Queues, call: nat) {
    if q.direct != [] then call in q.direct && forall other :: other in q.direct ==> call <= other
    else call in q.authorized && forall other :: other in q.authorized ==> call >= other
  }

  /** Direct calls leave in submission order, and the call that leaves is always the oldest direct
      one or, when none waits, the newest authorized one. */
  lemma OrderOfLeaving(steps: seq<Step>)
    requires Legal(Start(), steps)
    ensures var c := Run(Start(), steps);
            && c.directOut + c.queues.direct == c.directIn
            && (!NothingWaits(c.queues) ==> NextToLeave(c.queues, Taken(c.queues).1))
  {
    RunKeepsQueues(Start(), steps);
    if !NothingWaits(Run(Start(), steps).queues) { FirstIsNext(Run(Start(), steps).queues); }
  }

  lemma FirstIsNext(q: Queues)
    requires Increasing(q.direct) && Decreasing(q.authorized) && !NothingWaits(q)
    ensures NextToLeave(q, Taken(q).1)
  {
    if q.direct != [] {
      assert forall i :: 0 <= i < |q.direct| ==> q.direct[0] <= q.direct[i];
    } else {
      assert forall i :: 0 <= i < |q.authorized| ==> q.authorized[0] >= q.authorized[i];
    }
  }

  // ----- Who settles a promise -----

  predicate Replies(outcomes: seq<Outcome>, id: int) {
    exists i :: 0 <= i < |outcomes| && outcomes[i].Replied? && outcomes[i].repTo == id
  }

  // What the RPC layer may have done to a call with message id `id`.
  ghost predicate SettledRight(c: Client, call: nat, id: int)
    requires call < |c.outcomes|
  {
    var o := c.outcomes[call];
    && (forall i :: 0 <= i < |o| ==> o[i] == SendFailed || (o[i].Replied? && o[i].repTo == id))
    && |o| == (if call in c.unsent then 1 else 0) + (if id in c.table.requests then 0 else 1)
    && (Replies(o, id) <==> id !in c.table.requests)
  }

  ghost predicate TableInv(c: Client) {
    && (forall call :: call in c.ids ==>
          call < |c.outcomes| && 1 < c.ids[call] <= c.table.lastId && SettledRight(c, call, c.ids[call]))
    && (forall a, b :: a in c.ids && b in c.ids && c.ids[a] == c.ids[b] ==> a == b)
    && (forall id :: id in c.table.requests ==> c.table.requests[id] in c.ids && c.ids[c.table.requests[id]] == id)
    && c.unsent <= c.ids.Keys && c.received <= c.ids.Keys && c.unsent !! c.received
    && (c.thread.Registered? ==>
          c.thread.call in c.ids && c.thread.call !in c.unsent && c.thread.call !in c.received)
    && c.table.lastId >= 1
  }

  // Calls that have not reached the RPC layer.
  ghost predicate Fresh(c: Client, call: nat)
    requires call < |c.outcomes|
  {
    call !in c.ids && c.outcomes[call] == []
  }

  ghost predicate WaitingFresh(c: Client) {
    && (forall call :: call in c.queues.direct ==> call < |c.outcomes| && Fresh(c, call))
    && (forall call :: call in c.queues.authorized ==> call < |c.outcomes| && Fresh(c, call))
    && (c.thread.InHand? ==> c.thread.call < |c.outcomes| && Fresh(c, c.thread.call))
  }

  ghost predicate GoneDealtWith(c: Client) {
    && (forall call :: call in c.refused ==>
          call < |c.outcomes| && call !in c.ids && c.outcomes[call] == [NotResponding])
    && (forall call :: call in c.handed ==> call in c.ids)
  }

  ghost predicate PlacesInv(c: Client) {
    Conserved(c) && WaitingFresh(c) && GoneDealtWith(c)
  }

  lemma StepKeepsTable(c: Client, step: Step)
    requires TableInv(c) && PlacesInv(c) && Enabled(c, step)
    ensures TableInv(Do(c, step))
  {
    match step
    case Submit(_) => SubmitKeepsTable(c, step);
    case Take(_) => TakeKeepsTable(c, step);
    case Register => RegisterKeepsTable(c);
    case SendOk => SendKeepsTable(c, step);
    case SendThrows => SendKeepsTable(c, step);
    case Deliver(repTo, _, _) => DeliverKeepsTable(c, step);
  }

  lemma SubmitKeepsTable(c: Client, step: Step)
    requires TableInv(c) && step.Submit?
    ensures TableInv(Do(c, step))
  {
    var t := Do(c, step);
    forall call | call in t.ids
      ensures call < |t.outcomes| && 1 < t.ids[call] <= t.table.lastId && SettledRight(t, call, t.ids[call])
    {
      assert SettledRight(c, call, c.ids[call]) && t.outcomes[call] == c.outcomes[call];
    }
  }

  lemma TakeKeepsTable(c: Client, step: Step)
    requires TableInv(c) && PlacesInv(c) && step.Take? && Enabled(c, step)
    ensures TableInv(Do(c, step))
  {
    var t := Do(c, step);
    assert Fresh(c, Taken(c.queues).1);
    forall call | call in t.ids
      ensures call < |t.outcomes| && 1 < t.ids[call] <= t.table.lastId && SettledRight(t, call, t.ids[call])
    {
      assert SettledRight(c, call, c.ids[call]) && t.outcomes[call] == c.outcomes[call];
    }
  }

  lemma RegisterKeepsTable(c: Client)
    requires TableInv(c) && PlacesInv(c) && Enabled(c, Register)
    ensures TableInv(Do(c, Register))
  {
    NewIdIsFree(c);
    RegisterSettles(c);
  }

  lemma NewIdIsFree(c: Client)
    requires TableInv(c)
    ensures c.table.lastId + 1 !in c.table.requests
  {
  }

  lemma RegisterSettles(c: Client)
    requires TableInv(c) && PlacesInv(c) && Enabled(c, Register) && c.table.lastId + 1 !in c.table.requests
    ensures var t := Do(c, Register);
            forall call :: call in t.ids ==>
              call < |t.outcomes| && 1 < t.ids[call] <= t.table.lastId && SettledRight(t, call, t.ids[call])
  {
    var t := Do(c, Register);
    forall call | call in t.ids
      ensures call < |t.outcomes| && 1 < t.ids[call] <= t.table.lastId && SettledRight(t, call, t.ids[call])
    {
      if call != c.thread.call { assert SettledRight(c, call, c.ids[call]); }
    }
  }

  lemma SendKeepsTable(c: Client, step: Step)
    requires TableInv(c) && (step.SendOk? || step.SendThrows?) && Enabled(c, step)
    ensures TableInv(Do(c, step))
  {
    var t := Do(c, step);
    forall call | call in t.ids
      ensures call < |t.outcomes| && 1 < t.ids[call] <= t.table.lastId && SettledRight(t, call, t.ids[call])
    {
      assert SettledRight(c, call, c.ids[call]);
      if t.outcomes[call] != c.outcomes[call] {
        OneMoreOutcome(c.outcomes[call], SendFailed, t.ids[call]);
      }
    }
  }

  lemma DeliverKeepsTable(c: Client, step: Step)
    requires TableInv(c) && step.Deliver? && Enabled(c, step)
    ensures TableInv(Do(c, step))
  {
    var t := Do(c, step);
    forall call | call in t.ids
      ensures call < |t.outcomes| && 1 < t.ids[call] <= t.table.lastId && SettledRight(t, call, t.ids[call])
    {
      assert SettledRight(c, call, c.ids[call]);
      if step.repTo in c.table.requests && c.table.requests[step.repTo] == call {
        OneMoreOutcome(c.outcomes[call], Replied(step.repTo, step.status, step.payload), t.ids[call]);
      }
    }
  }

  lemma OneMoreOutcome(outcomes: seq<Outcome>, o: Outcome, id: int)
    ensures Replies(outcomes + [o], id) <==> Replies(outcomes, id) || (o.Replied? && o.repTo == id)
  {
    var more := outcomes + [o];
    assert more[|outcomes|] == o;
    assert forall i :: 0 <= i < |outcomes| ==> more[i] == outcomes[i];
  }

  lemma StepKeepsPlaces(c: Client, step: Step)
    requires TableInv(c) && PlacesInv(c) && Enabled(c, step)
    ensures PlacesInv(Do(c, step))
  {
    StepConserves(c, step);
    match step
    case Submit(priority) => SubmitKeepsPlaces(c, priority);
    case Take(connected) => TakeKeepsPlaces(c, connected);
    case Register => RegisterKeepsPlaces(c);
    case SendOk => SendKeepsPlaces(c, step);
    case SendThrows => SendKeepsPlaces(c, step);
    case Deliver(_, _, _) => DeliverKeepsPlaces(c, step);
  }

  lemma RegisterKeepsPlaces(c: Client)
    requires PlacesInv(c) && Enabled(c, Register)
    ensures WaitingFresh(Do(c, Register)) && GoneDealtWith(Do(c, Register))
  {
    OnePlace(c, c.thread.call);
  }

  lemma SendKeepsPlaces(c: Client, step: Step)
    requires TableInv(c) && PlacesInv(c) && (step.SendOk? || step.SendThrows?) && Enabled(c, step)
    ensures WaitingFresh(Do(c, step)) && GoneDealtWith(Do(c, step))
  {
    OnePlace(c, c.thread.call);
  }

  lemma DeliverKeepsPlaces(c: Client, step: Step)
    requires TableInv(c) && PlacesInv(c) && step.Deliver? && Enabled(c, step)
    ensures WaitingFresh(Do(c, step)) && GoneDealtWith(Do(c, step))
  {
    assert step.repTo in c.table.requests ==> c.table.requests[step.repTo] in c.ids;
  }

  lemma SubmitKeepsPlaces(c: Client, priority: Priority)
    requires TableInv(c) && PlacesInv(c)
    ensures WaitingFresh(Do(c, Submit(priority))) && GoneDealtWith(Do(c, Submit(priority)))
  {
  }

  lemma TakeKeepsPlaces(c: Client, connected: bool)
    requires PlacesInv(c) && Enabled(c, Take(connected))
    ensures WaitingFresh(Do(c, Take(connected))) && GoneDealtWith(Do(c, Take(connected)))
  {
    var t := Do(c, Take(connected));
    var call := Taken(c.queues).1;
    assert call < |c.outcomes| && Fresh(c, call);
    OnePlace(c, call);
    assert forall other :: other in t.queues.direct ==> other in c.queues.direct;
    assert forall other :: other in t.queues.authorized ==> other in c.queues.authorized;
  }

  // A call in the thread's hand or next to leave is nowhere else.
  lemma OnePlace(c: Client, call: nat)
    requires Conserved(c)
    requires (c.thread != Waiting && call == c.thread.call) ||
             (c.thread == Waiting && !NothingWaits(c.queues) && call == Taken(c.queues).1)
    ensures call !in c.handed && call !in c.refused
    ensures c.thread != Waiting ==> call !in c.queues.direct && call !in c.queues.authorized
    ensures c.thread == Waiting ==> call !in Taken(c.queues).0.direct && call !in Taken(c.queues).0.authorized
  {
    NumbersOnce(|c.outcomes|, call);
    assert Places(c)[call] <= 1;
    if c.thread == Waiting {
      var q := Taken(c.queues).0;
      if c.queues.direct != [] {
        assert c.queues.direct == [call] + q.direct;
      } else {
        assert c.queues.authorized == [call] + q.authorized;
      }
    }
  }

  lemma {:induction false} NumbersOnce(n: nat, call: nat)
    ensures multiset(Numbers(n))[call] <= 1
  {
    if n > 0 {
      NumbersOnce(n - 1, call);
      assert Numbers(n) == Numbers(n - 1) + [n - 1];
      assert n - 1 !in Numbers(n - 1);
    }
  }

  lemma {:induction false} RunKeepsTable(c: Client, steps: seq<Step>)
    requires TableInv(c) && PlacesInv(c) && Legal(c, steps)
    ensures TableInv(Run(c, steps)) && PlacesInv(Run(c, steps))
    decreases |steps|
  {
    if steps != [] {
      StepKeepsTable(c, steps[0]);
      StepKeepsPlaces(c, steps[0]);
      RunKeepsTable(Do(c, steps[0]), steps[1..]);
    }
  }

  /** Against any replies, a call is settled by its own send failure, or by a reply that names its own
      message id, or, when it never left, as not responding. It is settled twice exactly when its
      send failed and a reply that names its id has come all the same. */
  lemma WhoSettles(steps: seq<Step>, call: nat)
    requires Legal(Start(), steps) && call < |Run(Start(), steps).outcomes|
    ensures var c := Run(Start(), steps);
            var o := c.outcomes[call];
            && (call in c.ids ==>
                  forall i :: 0 <= i < |o| ==> o[i] == SendFailed || (o[i].Replied? && o[i].repTo == c.ids[call]))
            && (call !in c.ids ==> o == if call in c.refused then [NotResponding] else [])
            && (|o| >= 2 <==> call in c.unsent && call in c.ids && Replies(o, c.ids[call]))
            && (call in c.ids ==> (Replies(o, c.ids[call]) <==> c.ids[call] !in c.table.requests))
            && |o| <= 2
  {
    RunKeepsTable(Start(), steps);
    var c := Run(Start(), steps);
    if call in c.ids {
      assert SettledRight(c, call, c.ids[call]);
    } else {
      SomePlace(c, call);
    }
  }

  /** And so it comes about: a message whose send throws may have got out, and the answer to it settles
      the promise a second time. */
  lemma SettledTwice(priority: Priority, status: Status, payload: int)
    ensures var submitted := Do(Start(), Submit(priority));
            && Enabled(submitted, Take(true))
            && var registered := Do(Do(submitted, Take(true)), Register);
               && Enabled(registered, SendThrows)
               && var failed := Do(registered, SendThrows);
                  && Enabled(failed, Deliver(2, status, payload))
                  && Do(failed, Deliver(2, status, payload)).outcomes == [[SendFailed, Replied(2, status, payload)]]
  {
    var submitted := Do(Start(), Submit(priority));
    var registered := Do(Do(submitted, Take(true)), Register);
    assert registered.table == Table(map[2 := 0], 2);
    assert registered.thread == Registered(0) && registered.outcomes == [[]];
    FailsThenAnswered(registered, status, payload);
  }

  lemma FailsThenAnswered(c: Client, status: Status, payload: int)
    requires c.table == Table(map[2 := 0], 2) && c.thread == Registered(0) && c.outcomes == [[]]
    ensures Enabled(c, SendThrows)
    ensures var failed := Do(c, SendThrows);
            && Enabled(failed, Deliver(2, status, payload))
            && Do(failed, Deliver(2, status, payload)).outcomes == [[SendFailed, Replied(2, status, payload)]]
  {
    assert Do(c, SendThrows).outcomes == [[] + [SendFailed]];
    assert [] + [SendFailed] + [Replied(2, status, payload)] == [SendFailed, Replied(2, status, payload)];
  }

  lemma {:induction false} NumbersAll(n: nat, call: nat)
    requires call < n
    ensures call in multiset(Numbers(n))
  {
    assert Numbers(n)[call] == call;
  }

  lemma SomePlace(c: Client, call: nat)
    requires Conserved(c) && call < |c.outcomes|
    ensures call in c.queues.direct || call in c.queues.authorized || call in Hand(c) ||
            call in c.handed || call in c.refused
  {
    NumbersAll(|c.outcomes|, call);
    assert call in Places(c);
  }

  predicate HonestReply(c: Client, step: Step) {
    step.Deliver? ==> exists call :: call in c.received && call in c.ids && c.ids[call] == step.repTo
  }

  // A server that answers only messages it got.
  predicate Honest(c: Client, steps: seq<Step>)
    requires Legal(c, steps)
    decreases |steps|
  {
    steps == [] || (HonestReply(c, steps[0]) && Honest(Do(c, steps[0]), steps[1..]))
  }

  ghost predicate AllOnce(c: Client) {
    forall call :: 0 <= call < |c.outcomes| ==> |c.outcomes[call]| <= 1
  }

  ghost predicate AlwaysOnce(c: Client, steps: seq<Step>)
    requires Legal(c, steps)
    decreases |steps|
  {
    AllOnce(c) && (steps == [] || AlwaysOnce(Do(c, steps[0]), steps[1..]))
  }

  // A reply finds the entry of a call whose send has failed, or a send fails whose entry is gone.
  predicate SettlesAgain(c: Client, step: Step) {
    match step
    case Deliver(repTo, _, _) => repTo in c.table.requests && c.table.requests[repTo] in c.unsent
    case SendThrows =>
      c.thread.Registered? && c.thread.call in c.ids && c.ids[c.thread.call] !in c.table.requests
    case _ => false
  }

  predicate NeverAgain(c: Client, steps: seq<Step>)
    requires Legal(c, steps)
    decreases |steps|
  {
    steps == [] || (!SettlesAgain(c, steps[0]) && NeverAgain(Do(c, steps[0]), steps[1..]))
  }

  lemma StepSettles(c: Client, step: Step)
    requires TableInv(c) && PlacesInv(c) && AllOnce(c) && Enabled(c, step)
    ensures AllOnce(Do(c, step)) <==> !SettlesAgain(c, step)
  {
    match step
    case Submit(_) =>
    case Take(_) => assert Fresh(c, Taken(c.queues).1);
    case Register =>
    case SendOk =>
    case SendThrows =>
      assert SettledRight(c, c.thread.call, c.ids[c.thread.call]);
      OneOutcomeMore(c, Do(c, step), c.thread.call, SendFailed);
    case Deliver(repTo, status, payload) =>
      if repTo in c.table.requests {
        var call := c.table.requests[repTo];
        assert SettledRight(c, call, c.ids[call]);
        OneOutcomeMore(c, Do(c, step), call, Replied(repTo, status, payload));
      }
  }

  lemma OneOutcomeMore(c: Client, t: Client, call: nat, o: Outcome)
    requires AllOnce(c) && call < |c.outcomes| && t.outcomes == c.outcomes[call := c.outcomes[call] + [o]]
    ensures AllOnce(t) <==> c.outcomes[call] == []
  {
    assert |t.outcomes[call]| == |c.outcomes[call]| + 1;
  }

  lemma {:induction false} SettlesFrom(c: Client, steps: seq<Step>)
    requires TableInv(c) && PlacesInv(c) && AllOnce(c) && Legal(c, steps)
    ensures AlwaysOnce(c, steps) <==> NeverAgain(c, steps)
    decreases |steps|
  {
    if steps != [] {
      StepSettles(c, steps[0]);
      StepKeepsTable(c, steps[0]);
      StepKeepsPlaces(c, steps[0]);
      if AllOnce(Do(c, steps[0])) { SettlesFrom(Do(c, steps[0]), steps[1..]); }
    }
  }

  /** Against any replies, every promise is settled at most once throughout a run exactly when no reply
      finds the entry of a call whose send has failed, and no send fails whose entry is gone. */
  lemma SettledOnceExactly(steps: seq<Step>)
    requires Legal(Start(), steps)
    ensures AlwaysOnce(Start(), steps) <==> NeverAgain(Start(), steps)
  {
    SettlesFrom(Start(), steps);
  }

  // A call that is registered or unsent is still in the table.
  ghost predicate NotYetReceived(c: Client) {
    forall call :: call in c.ids && call !in c.received ==> c.ids[call] in c.table.requests
  }

  lemma {:induction false} HonestRun(c: Client, steps: seq<Step>)
    requires TableInv(c) && PlacesInv(c) && Legal(c, steps) && Honest(c, steps) && NotYetReceived(c)
    ensures NotYetReceived(Run(c, steps))
    decreases |steps|
  {
    if steps != [] {
      StepKeepsTable(c, steps[0]);
      StepKeepsPlaces(c, steps[0]);
      HonestStep(c, steps[0]);
      HonestRun(Do(c, steps[0]), steps[1..]);
    }
  }

  lemma HonestStep(c: Client, step: Step)
    requires TableInv(c) && PlacesInv(c) && Enabled(c, step) && NotYetReceived(c)
    requires HonestReply(c, step)
    ensures NotYetReceived(Do(c, step))
  {
    match step
    case Register => NewIdIsFree(c);
    case Deliver(repTo, status, payload) => HonestDelivery(c, step);
    case _ =>
  }

  lemma HonestDelivery(c: Client, step: Step)
    requires TableInv(c) && step.Deliver? && Enabled(c, step) && NotYetReceived(c) && HonestReply(c, step)
    ensures NotYetReceived(Do(c, step))
  {
    var answered :| answered in c.received && answered in c.ids && c.ids[answered] == step.repTo;
    assert forall call :: call in c.ids && call !in c.received ==> c.ids[call] != step.repTo;
  }

  /** Against an honest server, whatever it reorders or repeats, every promise is settled at most once,
      and the first reply to a message it got always finds its call waiting in the table. */
  lemma SettledAtMostOnce(steps: seq<Step>, call: nat)
    requires Legal(Start(), steps) && Honest(Start(), steps) && call < |Run(Start(), steps).outcomes|
    ensures var c := Run(Start(), steps);
            && |c.outcomes[call]| <= 1
            && (call in c.received ==>
                  call in c.ids &&
                  (c.outcomes[call] == [] <==>
                   c.ids[call] in c.table.requests && c.table.requests[c.ids[call]] == call))
  {
    RunKeepsTable(Start(), steps);
    HonestRun(Start(), steps);
    WhoSettles(steps, call);
    var c := Run(Start(), steps);
    if call in c.ids { assert SettledRight(c, call, c.ids[call]); }
  }

  /** Message ids never repeat. */
  lemma IdsDistinct(steps: seq<Step>, a: nat, b: nat)
    requires Legal(Start(), steps)
    requires a in Run(Start(), steps).ids && b in Run(Start(), steps).ids && a != b
    ensures Run(Start(), steps).ids[a] != Run(Start(), steps).ids[b]
  {
    RunKeepsTable(Start(), steps);
  }
}
