/**
 The delayed task queue of lib/core/taskqueue.h and lib/core/taskqueue.cpp, with the comparator as
 it stands: a priority_queue over std::greater, so the top is a task that is greater than none.
 */
module TaskQueue {
  import opened Common

  datatype Task = Task(id: nat, time: int, priority: nat)

  predicate Greater(a: Task, b: Task) {
    if a.priority == b.priority then a.time < b.time else a.priority > b.priority
  }

  predicate Less(a: Task, b: Task) {
    if a.priority == b.priority then a.time > b.time else a.priority < b.priority
  }

  ghost predicate IsTop(t: Task, tasks: multiset<Task>) {
    t in tasks && forall u :: u in tasks ==> !Greater(t, u)
  }

  /** The comparator is a strict weak order, and operator< is its mirror image. */
  lemma StrictWeakOrder(a: Task, b: Task, c: Task)
    ensures !Greater(a, a)
    ensures Greater(a, b) && Greater(b, c) ==> Greater(a, c)
    ensures !Greater(a, b) && !Greater(b, a) && !Greater(b, c) && !Greater(c, b) ==> !Greater(a, c) && !Greater(c, a)
    ensures Less(a, b) <==> Greater(b, a)
  {
  }

  /** A top has the lowest priority number and, among those, the latest time; so among tasks of one
      priority a top is due exactly when all of them are. */
  lemma TopIsLatest(t: Task, tasks: multiset<Task>, now: int)
    requires t in tasks
    ensures IsTop(t, tasks) <==>
            forall u :: u in tasks ==> t.priority < u.priority || (t.priority == u.priority && u.time <= t.time)
    ensures IsTop(t, tasks) && (forall u :: u in tasks ==> u.priority == t.priority) ==>
              (t.time <= now <==> forall u :: u in tasks ==> u.time <= now)
  {
    if forall u :: u in tasks ==> t.priority < u.priority || (t.priority == u.priority && u.time <= t.time) {
      assert forall u :: u in tasks ==> !Greater(t, u);
    }
  }

  // A wake-up of the worker: what the clock reads and what has been scheduled since the last one.
  datatype Wake = Wake(now: int, arrivals: seq<Task>)

  function Arrived(wakes: seq<Wake>): multiset<Task> {
    if wakes == [] then multiset{}
    else Arrived(wakes[..|wakes| - 1]) + multiset(wakes[|wakes| - 1].arrivals)
  }

  class TaskQueue {
    var mTasks: seq<Task>

    constructor ()
      ensures mTasks == []
    {
      mTasks := [];
    }

    method Schedule(t: Task)
      modifies this
      ensures multiset(mTasks) == multiset(old(mTasks)) + multiset{t}
    {
      mTasks := mTasks + [t];
    }

    method TopIndex() returns (top: nat)
      requires mTasks != []
      ensures top < |mTasks| && IsTop(mTasks[top], multiset(mTasks))
    {
      top := 0;
      for i := 1 to |mTasks|
        invariant top < |mTasks|
        invariant forall j :: 0 <= j < i ==> !Greater(mTasks[top], mTasks[j])
      {
        if Greater(mTasks[top], mTasks[i]) {
          top := i;
        }
      }
    }

    // One round of the wait loop, once the lock is held again.
    method LookOnce(wake: Wake) returns (task: Option<Task>)
      requires mTasks + wake.arrivals != []
      modifies this
      ensures Looked(multiset(old(mTasks)) + multiset(wake.arrivals), wake.now, task, multiset(mTasks))
      ensures task == None ==> mTasks != []
    {
      mTasks := mTasks + wake.arrivals;
      var top := TopIndex();
      if mTasks[top].time <= wake.now {
        task := Some(mTasks[top]);
        assert mTasks == mTasks[..top] + [mTasks[top]] + mTasks[top + 1..];
        mTasks := mTasks[..top] + mTasks[top + 1..];
      } else {
        task := None;
      }
    }

    /** The wait loop: it starts the first task that is a top and due when the worker looks, out of
        everything scheduled by then; at every look before, the top was later than the clock. */
    method Dequeue(wakes: seq<Wake>) returns (task: Option<Task>, looks: nat)
      requires wakes != [] ==> mTasks + wakes[0].arrivals != []
      modifies this
      ensures looks <= |wakes|
      ensures Waited(multiset(old(mTasks)), wakes, looks, task, multiset(mTasks))
      ensures task == None ==> looks == |wakes|
    {
      looks := 0;
      task := None;
      ghost var first := multiset(mTasks);
      while looks < |wakes| && task == None
        invariant looks <= |wakes|
        invariant Waited(first, wakes, looks, task, multiset(mTasks))
        invariant looks > 0 && task == None ==> mTasks != []
        decreases |wakes| - looks
      {
        ghost var before := multiset(mTasks);
        task := LookOnce(wakes[looks]);
        WaitedOn(first, wakes, looks, before, task, multiset(mTasks));
        looks := looks + 1;
      }
    }
  }

  // A look at `seen`: a top that is due is taken and `rest` is left, or none is due and all of it is.
  ghost predicate Looked(seen: multiset<Task>, now: int, task: Option<Task>, rest: multiset<Task>) {
    match task
    case Some(t) => IsTop(t, seen) && t.time <= now && rest + multiset{t} == seen
    case None => rest == seen && NothingDue(seen, now)
  }

  // So many looks: each found nothing due in all that had been scheduled by then, but for the last one
  // if it took a task.
  ghost predicate Waited(first: multiset<Task>, wakes: seq<Wake>, looks: nat, task: Option<Task>, rest: multiset<Task>)
    requires looks <= |wakes|
  {
    var seen := first + Arrived(wakes[..looks]);
    match task
    case Some(_) => looks > 0 && FoundNothing(first, wakes, looks - 1) && Looked(seen, wakes[looks - 1].now, task, rest)
    case None => FoundNothing(first, wakes, looks) && rest == seen
  }

  lemma WaitedOn(first: multiset<Task>, wakes: seq<Wake>, k: nat, before: multiset<Task>,
                 task: Option<Task>, rest: multiset<Task>)
    requires k < |wakes| && Waited(first, wakes, k, None, before)
    requires Looked(before + multiset(wakes[k].arrivals), wakes[k].now, task, rest)
    ensures Waited(first, wakes, k + 1, task, rest)
  {
    OneMoreLook(first, wakes, k, before);
  }

  lemma OneMoreLook(first: multiset<Task>, wakes: seq<Wake>, k: nat, all: multiset<Task>)
    requires k < |wakes| && all == first + Arrived(wakes[..k]) && FoundNothing(first, wakes, k)
    ensures var seen := all + multiset(wakes[k].arrivals);
            && seen == first + Arrived(wakes[..k + 1])
            && (NothingDue(seen, wakes[k].now) ==> FoundNothing(first, wakes, k + 1))
  {
    ArrivedStep(first, wakes, k);
  }

  // The first `looks` looks found no top due.
  ghost predicate FoundNothing(first: multiset<Task>, wakes: seq<Wake>, looks: nat)
    requires looks <= |wakes|
  {
    looks == 0 ||
    (FoundNothing(first, wakes, looks - 1) && NothingDue(first + Arrived(wakes[..looks]), wakes[looks - 1].now))
  }

  // Tops have equal times, so that one of them is late means that none is due.
  ghost predicate NothingDue(tasks: multiset<Task>, now: int) {
    exists t :: IsTop(t, tasks) && t.time > now
  }

  lemma NoTopDue(tasks: multiset<Task>, now: int, t: Task)
    requires NothingDue(tasks, now) && IsTop(t, tasks)
    ensures t.time > now
  {
    var late :| IsTop(late, tasks) && late.time > now;
    assert !Greater(t, late) && !Greater(late, t);
  }

  lemma ArrivedStep(first: multiset<Task>, wakes: seq<Wake>, k: nat)
    requires k < |wakes|
    ensures first + Arrived(wakes[..k + 1]) == first + Arrived(wakes[..k]) + multiset(wakes[k].arrivals)
  {
    assert wakes[..k + 1][..k] == wakes[..k];
  }

  // ----- Workers and schedulers interleaved -----

  // Before its first look at an empty queue, between looks, or running a task.
  datatype Worker = Fresh | Timed | Busy(task: Task)

  datatype State = State(
    now: int,
    pending: multiset<Task>,
    workers: seq<Worker>,
    done: multiset<Task>,
    scheduled: seq<Task>,           // in order; the index is the id
    started: seq<(Task, int)>,      // with the clock reading
    emptyTop: bool)                 // top() was read on an empty queue

  datatype Step =
    | Tick(now: int)
    | Schedule(time: int, priority: nat)
    | Look(worker: nat, top: Task)
    | Finish(worker: nat)

  function Start(workers: nat): State {
    State(0, multiset{}, seq(workers, i => Fresh), multiset{}, [], [], false)
  }

  ghost predicate Enabled(s: State, step: Step) {
    match step
    case Tick(now) => s.now <= now
    case Schedule(_, _) => true
    case Look(w, top) =>
      && w < |s.workers| && !s.workers[w].Busy?
      && (s.workers[w].Fresh? ==> s.pending != multiset{})
      && (s.pending != multiset{} ==> IsTop(top, s.pending))
    case Finish(w) => w < |s.workers| && s.workers[w].Busy?
  }

  function NewTask(s: State, time: int, priority: nat): Task {
    Task(|s.scheduled|, time, priority)
  }

  ghost function Do(s: State, step: Step): State
    requires Enabled(s, step)
  {
    match step
    case Tick(now) => s.(now := now)
    case Schedule(time, priority) =>
      var t := NewTask(s, time, priority);
      s.(pending := s.pending + multiset{t}, scheduled := s.scheduled + [t])
    case Look(w, top) =>
      if s.pending == multiset{} then s.(emptyTop := true)
      else if top.time <= s.now then
        s.(pending := s.pending - multiset{top}, workers := s.workers[w := Busy(top)],
           started := s.started + [(top, s.now)])
      else s.(workers := s.workers[w := Timed])
    case Finish(w) => s.(workers := s.workers[w := Fresh], done := s.done + multiset{s.workers[w].task})
  }

  /** A look starts the top exactly when it is due, and puts the worker to a timed wait when it is not; a
      task that finishes is done, and its worker looks again. The clock goes on at any time. */
  lemma LookAndFinish(s: State, w: nat, top: Task, now: int)
    ensures s.now <= now ==> Do(s, Tick(now)) == s.(now := now)
    ensures Enabled(s, Look(w, top)) && s.pending != multiset{} ==>
              var t := Do(s, Look(w, top));
              && (top.time <= s.now ==>
                    && t.pending + multiset{top} == s.pending && t.workers == s.workers[w := Busy(top)]
                    && t.started == s.started + [(top, s.now)])
              && (top.time > s.now ==>
                    t.pending == s.pending && t.workers == s.workers[w := Timed] && t.started == s.started)
              && t.done == s.done && t.scheduled == s.scheduled && t.emptyTop == s.emptyTop
    ensures Enabled(s, Finish(w)) ==>
              var t := Do(s, Finish(w));
              && t.done == s.done + multiset{s.workers[w].task} && t.workers == s.workers[w := Fresh]
              && t.pending == s.pending
  {
  }

  // What the schedulers of a run asked for, in order and numbered from n on.
  function Asked(n: nat, steps: seq<Step>): seq<Task>
    decreases |steps|
  {
    if steps == [] then []
    else if steps[0].Schedule? then [Task(n, steps[0].time, steps[0].priority)] + Asked(n + 1, steps[1..])
    else Asked(n, steps[1..])
  }

  /** The tasks of a run are those asked for, with their times and priorities, in order. */
  lemma {:induction false} ScheduledAsAsked(s: State, steps: seq<Step>)
    requires Legal(s, steps)
    ensures Run(s, steps).scheduled == s.scheduled + Asked(|s.scheduled|, steps)
    decreases |steps|
  {
    if steps != [] {
      var n, t := |s.scheduled|, Do(s, steps[0]);
      ScheduledAsAsked(t, steps[1..]);
      StepSchedules(s, steps[0]);
      if steps[0].Schedule? {
        var first := Task(n, steps[0].time, steps[0].priority);
        assert (s.scheduled + [first]) + Asked(n + 1, steps[1..]) == s.scheduled + ([first] + Asked(n + 1, steps[1..]));
      }
    }
  }

  lemma StepSchedules(s: State, step: Step)
    requires Enabled(s, step)
    ensures Do(s, step).scheduled ==
            if step.Schedule? then s.scheduled + [Task(|s.scheduled|, step.time, step.priority)] else s.scheduled
  {
  }

  ghost predicate Legal(s: State, steps: seq<Step>)
    decreases |steps|
  {
    steps == [] || (Enabled(s, steps[0]) && Legal(Do(s, steps[0]), steps[1..]))
  }

  ghost function Run(s: State, steps: seq<Step>): State
    requires Legal(s, steps)
    decreases |steps|
  {
    if steps == [] then s else Run(Do(s, steps[0]), steps[1..])
  }

  function Running(workers: seq<Worker>): multiset<Task> {
    if workers == [] then multiset{}
    else Running(workers[1..]) + OnWorker(workers[0])
  }

  function OnWorker(w: Worker): multiset<Task> {
    if w.Busy? then multiset{w.task} else multiset{}
  }

  lemma {:induction false} RunningAfter(workers: seq<Worker>, w: nat, v: Worker)
    requires w < |workers|
    ensures Running(workers[w := v]) + OnWorker(workers[w]) == Running(workers) + OnWorker(v)
    decreases |workers|
  {
    if w == 0 {
      assert workers[0 := v][1..] == workers[1..];
      assert Running(workers[0 := v]) == Running(workers[1..]) + OnWorker(v);
    } else {
      assert workers[w := v][1..] == workers[1..][w - 1 := v];
      RunningAfter(workers[1..], w - 1, v);
      var was, now, first := Running(workers[1..]), Running(workers[1..][w - 1 := v]), OnWorker(workers[0]);
      assert Running(workers[w := v]) == now + first && Running(workers) == was + first;
      AlsoWith(first, now, OnWorker(workers[w]), was, OnWorker(v));
    }
  }

  lemma AlsoWith(first: multiset<Task>, a: multiset<Task>, b: multiset<Task>, c: multiset<Task>, d: multiset<Task>)
    requires a + b == c + d
    ensures (a + first) + b == (c + first) + d
  {
    assert (a + first) + b == (a + b) + first;
  }

  // Every task scheduled is in exactly one place.
  ghost predicate Conserved(s: State) {
    s.pending + Running(s.workers) + s.done == multiset(s.scheduled)
  }

  // Tasks are numbered as they are scheduled.
  predicate Numbered(s: State) {
    forall i :: 0 <= i < |s.scheduled| ==> s.scheduled[i].id == i
  }

  ghost predicate PendingOnce(s: State) {
    && (forall t :: t in s.pending ==> t.id < |s.scheduled| && s.pending[t] == 1)
    && (forall t, u :: t in s.pending && u in s.pending && t.id == u.id ==> t == u)
  }

  predicate DistinctStarts(started: seq<(Task, int)>) {
    forall i, j :: 0 <= i < j < |started| ==> started[i].0.id != started[j].0.id
  }

  predicate NotEarly(started: seq<(Task, int)>) {
    forall i :: 0 <= i < |started| ==> started[i].0.time <= started[i].1
  }

  // No start of a task that is among `pending` or numbered `limit` or above.
  ghost predicate StartsApart(started: seq<(Task, int)>, pending: multiset<Task>, limit: nat) {
    forall i :: 0 <= i < |started| ==>
      started[i].0.id < limit && forall t :: t in pending ==> t.id != started[i].0.id
  }

  ghost predicate StartedOnce(s: State) {
    DistinctStarts(s.started) && NotEarly(s.started) && StartsApart(s.started, s.pending, |s.scheduled|)
  }

  ghost predicate Books(s: State) {
    Conserved(s) && Numbered(s) && PendingOnce(s) && StartedOnce(s)
  }

  // With at most one worker nobody else empties the queue between two of its looks.
  ghost predicate NeverEmpty(s: State) {
    |s.workers| <= 1 && !s.emptyTop && (|s.workers| == 1 && s.workers[0].Timed? ==> s.pending != multiset{})
  }

  lemma StepConserves(s: State, step: Step)
    requires Conserved(s) && Enabled(s, step)
    ensures Conserved(Do(s, step))
  {
    match step
    case Tick(_) =>
    case Schedule(time, priority) => ScheduleConserves(s, time, priority);
    case Look(w, top) => LookConserves(s, w, top);
    case Finish(w) => FinishConserves(s, w);
  }

  lemma ScheduleConserves(s: State, time: int, priority: nat)
    requires Conserved(s)
    ensures Conserved(Do(s, Schedule(time, priority)))
  {
    var t := NewTask(s, time, priority);
    assert multiset(s.scheduled + [t]) == multiset(s.scheduled) + multiset{t};
  }

  lemma LookConserves(s: State, w: nat, top: Task)
    requires Conserved(s) && Enabled(s, Look(w, top))
    ensures Conserved(Do(s, Look(w, top)))
  {
    if s.pending != multiset{} {
      RunningStarted(s.workers, w, if top.time <= s.now then Busy(top) else Timed);
      Moved(s.pending, Running(s.workers), s.done, top);
    }
  }

  lemma RunningStarted(workers: seq<Worker>, w: nat, v: Worker)
    requires w < |workers| && !workers[w].Busy?
    ensures Running(workers[w := v]) == Running(workers) + OnWorker(v)
  {
    RunningAfter(workers, w, v);
    assert Running(workers[w := v]) + OnWorker(workers[w]) == Running(workers[w := v]);
  }

  lemma FinishConserves(s: State, w: nat)
    requires Conserved(s) && Enabled(s, Finish(w))
    ensures Conserved(Do(s, Finish(w)))
  {
    var task := s.workers[w].task;
    var t := Do(s, Finish(w));
    RunningAfter(s.workers, w, Fresh);
    assert Running(t.workers) + multiset{task} == Running(s.workers);
    Finished(s.pending, Running(t.workers), s.done, task);
  }

  lemma Finished(pending: multiset<Task>, running: multiset<Task>, done: multiset<Task>, task: Task)
    ensures pending + running + (done + multiset{task}) == pending + (running + multiset{task}) + done
  {
  }

  lemma Moved(pending: multiset<Task>, running: multiset<Task>, done: multiset<Task>, top: Task)
    requires top in pending
    ensures (pending - multiset{top}) + (running + multiset{top}) + done == pending + running + done
  {
  }

  lemma StepKeepsPending(s: State, step: Step)
    requires PendingOnce(s) && Enabled(s, step)
    ensures PendingOnce(Do(s, step))
  {
    if step.Look? {
      assert forall t :: t in Do(s, step).pending ==> t in s.pending;
    }
  }

  lemma StepKeepsStarted(s: State, step: Step)
    requires PendingOnce(s) && StartedOnce(s) && Enabled(s, step)
    ensures StartedOnce(Do(s, step))
  {
    match step
    case Tick(_) =>
    case Schedule(time, priority) => ScheduleKeepsStarted(s, time, priority);
    case Look(w, top) => LookKeepsStarted(s, w, top);
    case Finish(_) =>
  }

  lemma ScheduleKeepsStarted(s: State, time: int, priority: nat)
    requires StartedOnce(s)
    ensures StartedOnce(Do(s, Schedule(time, priority)))
  {
  }

  lemma LookKeepsStarted(s: State, w: nat, top: Task)
    requires PendingOnce(s) && StartedOnce(s) && Enabled(s, Look(w, top))
    ensures StartedOnce(Do(s, Look(w, top)))
  {
    if s.pending != multiset{} && top.time <= s.now {
      var rest := s.pending - multiset{top};
      assert forall t :: t in rest ==> t in s.pending && t != top;
      OneMoreStart(s.started, s.pending, rest, |s.scheduled|, top, s.now);
    }
  }

  lemma OneMoreStart(started: seq<(Task, int)>, pending: multiset<Task>, rest: multiset<Task>, limit: nat,
                     top: Task, now: int)
    requires DistinctStarts(started) && NotEarly(started) && StartsApart(started, pending, limit)
    requires top in pending && top.id < limit && top.time <= now
    requires forall t :: t in rest ==> t in pending && t.id != top.id
    ensures DistinctStarts(started + [(top, now)]) && NotEarly(started + [(top, now)])
    ensures StartsApart(started + [(top, now)], rest, limit)
  {
  }

  lemma StepKeepsBooks(s: State, step: Step)
    requires Books(s) && Enabled(s, step)
    ensures Books(Do(s, step))
  {
    StepConserves(s, step);
    StepKeepsPending(s, step);
    StepKeepsStarted(s, step);
    StepKeepsNumbers(s, step);
  }

  lemma StepKeepsNumbers(s: State, step: Step)
    requires Numbered(s) && Enabled(s, step)
    ensures Numbered(Do(s, step))
  {
  }

  lemma {:induction false} RunKeepsBooks(s: State, steps: seq<Step>)
    requires Books(s) && Legal(s, steps)
    ensures Books(Run(s, steps))
    decreases |steps|
  {
    if steps != [] {
      StepKeepsBooks(s, steps[0]);
      RunKeepsBooks(Do(s, steps[0]), steps[1..]);
    }
  }

  lemma {:induction false} NobodyRuns(workers: nat)
    ensures Running(Start(workers).workers) == multiset{}
  {
    if workers > 0 {
      NobodyRuns(workers - 1);
      assert Start(workers).workers[1..] == Start(workers - 1).workers;
    }
  }

  lemma BooksOfARun(workers: nat, steps: seq<Step>)
    requires Legal(Start(workers), steps)
    ensures Books(Run(Start(workers), steps))
  {
    NobodyRuns(workers);
    RunKeepsBooks(Start(workers), steps);
  }

  /** With any number of workers and any interleaving of schedulers, each job asked for is pending, running
      or done, in one place only; none is started twice, and none before its time. */
  lemma TasksRunOnceAndNotEarly(workers: nat, steps: seq<Step>)
    requires Legal(Start(workers), steps)
    ensures var s := Run(Start(workers), steps);
            && s.pending + Running(s.workers) + s.done == multiset(s.scheduled)
            && s.scheduled == Asked(0, steps)
            && NotEarly(s.started) && DistinctStarts(s.started) && StartsApart(s.started, s.pending, |s.scheduled|)
  {
    BooksOfARun(workers, steps);
    ScheduledAsAsked(Start(workers), steps);
  }

  lemma Chain(s: State, steps: seq<Step>)
    requires steps != [] && Enabled(s, steps[0]) && Legal(Do(s, steps[0]), steps[1..])
    ensures Legal(s, steps) && Run(s, steps) == Run(Do(s, steps[0]), steps[1..])
  {
  }

  lemma {:induction false} RunNeverEmpty(s: State, steps: seq<Step>)
    requires NeverEmpty(s) && Legal(s, steps)
    ensures NeverEmpty(Run(s, steps))
    decreases |steps|
  {
    if steps != [] {
      RunNeverEmpty(Do(s, steps[0]), steps[1..]);
    }
  }

  /** With no more than one worker the top of an empty queue is never read. */
  lemma OneWorkerIsSafe(workers: nat, steps: seq<Step>)
    requires workers <= 1 && Legal(Start(workers), steps)
    ensures !Run(Start(workers), steps).emptyTop
  {
    RunNeverEmpty(Start(workers), steps);
  }

  function OneTask(): Task {
    Task(0, 5, 0)
  }

  // Two workers wait for one task, one of them takes it, and the other's timed wait does not look
  // whether anything is left.
  function Contention(): seq<Step> {
    [Schedule(5, 0), Look(0, OneTask()), Look(1, OneTask()), Tick(5), Look(0, OneTask()), Look(1, OneTask())]
  }

  lemma BothTimed(workers: nat)
    requires workers >= 2
    ensures var t := OneTask();
            && Enabled(Start(workers), Schedule(5, 0))
            && var s1 := Do(Start(workers), Schedule(5, 0));
               && Enabled(s1, Look(0, t))
               && var s2 := Do(s1, Look(0, t));
                  && Enabled(s2, Look(1, t))
                  && var s3 := Do(s2, Look(1, t));
                     s3 == State(0, multiset{t}, Start(workers).workers[0 := Timed][1 := Timed], multiset{},
                                 [t], [], false)
  {
    assert Do(Start(workers), Schedule(5, 0)).pending == multiset{OneTask()};
  }

  lemma OneTaken(s: State)
    requires |s.workers| >= 2 && s.workers[0] == s.workers[1] == Timed && s.pending == multiset{OneTask()} && s.now <= 5
    ensures var t := OneTask();
            Legal(s, [Tick(5), Look(0, t), Look(1, t)]) && Run(s, [Tick(5), Look(0, t), Look(1, t)]).emptyTop
  {
    var t := OneTask();
    var due := Do(s, Tick(5));
    var taken := Do(due, Look(0, t));
    assert taken.pending == multiset{} && taken.workers[1] == Timed;
    var empty := Do(taken, Look(1, t));
    assert Legal(empty, []) && Run(empty, []) == empty;
    Chain(taken, [Look(1, t)]);
    Chain(due, [Look(0, t), Look(1, t)]);
    Chain(s, [Tick(5), Look(0, t), Look(1, t)]);
  }

  /** With two or more it can be. */
  lemma TwoWorkersAreNot(workers: nat)
    requires workers >= 2
    ensures Legal(Start(workers), Contention()) && Run(Start(workers), Contention()).emptyTop
  {
    var t := OneTask();
    BothTimed(workers);
    var s1 := Do(Start(workers), Schedule(5, 0));
    var s2 := Do(s1, Look(0, t));
    var s3 := Do(s2, Look(1, t));
    OneTaken(s3);
    Chain(s2, [Look(1, t), Tick(5), Look(0, t), Look(1, t)]);
    Chain(s1, [Look(0, t), Look(1, t), Tick(5), Look(0, t), Look(1, t)]);
    Chain(Start(workers), Contention());
  }

  /** A queue can read the top of an empty heap exactly when it has two workers or more. */
  lemma EmptyTopIffTwoWorkers(workers: nat)
    ensures (exists steps :: Legal(Start(workers), steps) && Run(Start(workers), steps).emptyTop) <==> workers >= 2
  {
    if workers >= 2 {
      TwoWorkersAreNot(workers);
    } else {
      forall steps | Legal(Start(workers), steps)
        ensures !Run(Start(workers), steps).emptyTop
      {
        OneWorkerIsSafe(workers, steps);
      }
    }
  }

  /** Earliest first does not hold: a due task waits behind a later one of its priority. */
  lemma DueTaskWaits(now: int, late: int)
    requires now < late
    ensures IsTop(Task(1, late, 0), multiset{Task(0, now, 0), Task(1, late, 0)})
    ensures !IsTop(Task(0, now, 0), multiset{Task(0, now, 0), Task(1, late, 0)})
  {
    assert Greater(Task(0, now, 0), Task(1, late, 0));
  }
}
