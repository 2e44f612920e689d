/** The thread pool and the parallel tick (ThreadPool.h, Zone.h) as a state machine: workers,
    enqueuing threads, callers of executeParallel and the destructor take steps in any order. */
module ThreadPool {
  import opened Wrappers

  /** A queued function: number `index` of a call of executeParallel, or anybody else's. */
  datatype Job = Part(call: nat, index: nat) | Other(id: nat)

  /** Where a worker is.  Ready: about to lock the queue.  Checked: it holds the lock and has seen
      neither a task nor the stop flag, and is about to wait. */
  datatype Worker = Ready | Checked | Waiting | Running(job: Job) | Returned

  /** A call of executeParallel over `size` AIs: how many it has enqueued, and how many of the
      results it has waited for. */
  datatype Call = Call(size: nat, enqueued: nat, waited: nat)

  /** `pending` counts the notify_one calls still to come; `missed` are the workers that were about
      to wait when the destructor notified.  The last three fields are a history. */
  datatype State = State(
    workers: seq<Worker>,
    queue: seq<Job>,
    stop: bool,
    pending: nat,
    notifiedAll: bool,
    missed: set<nat>,
    calls: seq<Call>,
    enqueued: seq<Job>,
    started: seq<Job>,
    finished: seq<Job>)

  datatype Event =
    | Lock(w: nat)                // a worker locks the queue and evaluates its predicate
    | Wait(w: nat)                // it goes to sleep, which releases the lock
    | Finish(w: nat)              // task() returns
    | Wake(w: nat)                // a spurious wake-up
    | Enqueue(id: nat)            // any thread
    | NotifyOne(who: Option<nat>) // wakes one waiting worker, if there is one
    | BeginParallel(size: nat)
    | EnqueuePart(call: nat)
    | WaitPart(call: nat)         // result.wait() for the next result
    | Stop                        // the destructor sets the flag, without the lock
    | NotifyAll                   // and notifies

  /** A worker between its check and its wait is the only one to keep the lock between steps. */
  ghost predicate LockFree(s: State) {
    forall w :: 0 <= w < |s.workers| ==> s.workers[w] != Checked
  }

  ghost predicate IsWaiting(s: State, w: nat) {
    w < |s.workers| && s.workers[w] == Waiting
  }

  ghost predicate Enabled(s: State, e: Event) {
    match e
    case Lock(w) => w < |s.workers| && s.workers[w] == Ready && LockFree(s)
    case Wait(w) => w < |s.workers| && s.workers[w] == Checked
    case Finish(w) => w < |s.workers| && s.workers[w].Running?
    case Wake(w) => IsWaiting(s, w)
    case Enqueue(_) => LockFree(s)
    case NotifyOne(w) => s.pending > 0 && match w { case Some(x) => IsWaiting(s, x) case None => NobodyWaits(s) }
    case BeginParallel(_) => true
    case EnqueuePart(c) => LockFree(s) && c < |s.calls| && s.calls[c].enqueued < s.calls[c].size
    case WaitPart(c) =>
      c < |s.calls| && s.calls[c].enqueued == s.calls[c].size && s.calls[c].waited < s.calls[c].size
      && Part(c, s.calls[c].waited) in s.finished
    case Stop => !s.stop
    case NotifyAll => s.stop && !s.notifiedAll
  }

  ghost predicate NobodyWaits(s: State) {
    forall w :: 0 <= w < |s.workers| ==> s.workers[w] != Waiting
  }

  /** The body of the worker loop up to the call of the task (ThreadPool.h:67-80). */
  function Locked(s: State, w: nat): State
    requires w < |s.workers|
  {
    if s.queue != [] then
      s.(workers := s.workers[w := Running(s.queue[0])], queue := s.queue[1..], started := s.started + [s.queue[0]])
    else if s.stop then s.(workers := s.workers[w := Returned])
    else s.(workers := s.workers[w := Checked])
  }

  /** enqueue: the lock is held only while the task is added. */
  function Added(s: State, job: Job): State {
    s.(queue := s.queue + [job], enqueued := s.enqueued + [job], pending := s.pending + 1)
  }

  function AboutToWait(s: State): set<nat> {
    set w: nat | w < |s.workers| && s.workers[w] == Checked
  }

  function Woken(w: Worker): Worker {
    if w == Waiting then Ready else w
  }

  ghost function Next(s: State, e: Event): State
    requires Enabled(s, e)
  {
    match e
    case Lock(w) => Locked(s, w)
    case Wait(w) => s.(workers := s.workers[w := Waiting])
    case Finish(w) => s.(workers := s.workers[w := Ready], finished := s.finished + [s.workers[w].job])
    case Wake(w) => s.(workers := s.workers[w := Ready])
    case Enqueue(id) => Added(s, Other(id))
    case NotifyOne(w) =>
      var t := s.(pending := s.pending - 1);
      if w.None? then t else t.(workers := s.workers[w.value := Ready])
    case BeginParallel(size) => s.(calls := s.calls + [Call(size, 0, 0)])
    case EnqueuePart(c) =>
      var call := s.calls[c];
      Added(s, Part(c, call.enqueued)).(calls := s.calls[c := call.(enqueued := call.enqueued + 1)])
    case WaitPart(c) => s.(calls := s.calls[c := s.calls[c].(waited := s.calls[c].waited + 1)])
    case Stop => s.(stop := true)
    case NotifyAll =>
      s.(notifiedAll := true,
         missed := AboutToWait(s),
         workers := seq(|s.workers|, i requires 0 <= i < |s.workers| => Woken(s.workers[i])))
  }

  /** A new pool of `threads` workers. */
  function Start(threads: nat): State {
    State(seq(threads, _ => Ready), [], false, 0, false, {}, [], [], [], [])
  }

  ghost predicate AllEnabled(s: State, es: seq<Event>)
    decreases |es|
  {
    es == [] || (Enabled(s, es[0]) && AllEnabled(Next(s, es[0]), es[1..]))
  }

  ghost function Run(s: State, es: seq<Event>): State
    requires AllEnabled(s, es)
    decreases |es|
  {
    if es == [] then s else Run(Next(s, es[0]), es[1..])
  }

  // ---------- conservation ----------

  function JobOf(w: Worker): multiset<Job> {
    if w.Running? then multiset{w.job} else multiset{}
  }

  /** The jobs being run. */
  function InHand(workers: seq<Worker>): multiset<Job> {
    if workers == [] then multiset{} else JobOf(workers[0]) + InHand(workers[1..])
  }

  lemma AddHead(h: multiset<Job>, a: multiset<Job>, b: multiset<Job>, c: multiset<Job>, d: multiset<Job>)
    requires a + b == c + d
    ensures (h + a) + b == (h + c) + d
  {
    assert (h + a) + b == h + (a + b);
    assert (h + c) + d == h + (c + d);
  }

  lemma {:induction false} InHandUpdate(ws: seq<Worker>, w: nat, x: Worker)
    requires w < |ws|
    ensures InHand(ws[w := x]) + JobOf(ws[w]) == InHand(ws) + JobOf(x)
    decreases |ws|
  {
    if w == 0 {
      assert ws[0 := x][1..] == ws[1..];
      var rest := InHand(ws[1..]);
      assert (JobOf(x) + rest) + JobOf(ws[0]) == (JobOf(ws[0]) + rest) + JobOf(x);
    } else {
      InHandUpdate(ws[1..], w - 1, x);
      assert ws[w := x][1..] == ws[1..][w - 1 := x];
      AddHead(JobOf(ws[0]), InHand(ws[1..][w - 1 := x]), JobOf(ws[w]), InHand(ws[1..]), JobOf(x));
    }
  }

  lemma {:induction false} InHandSame(ws: seq<Worker>, us: seq<Worker>)
    requires |ws| == |us| && forall i :: 0 <= i < |ws| ==> JobOf(ws[i]) == JobOf(us[i])
    ensures InHand(ws) == InHand(us)
    decreases |ws|
  {
    if ws != [] { InHandSame(ws[1..], us[1..]); }
  }

  /** Tasks start in the order in which they were enqueued, each once; and what has started is being
      run or has finished. */
  ghost predicate Conserved(s: State) {
    && s.enqueued == s.started + s.queue
    && multiset(s.started) == multiset(s.finished) + InHand(s.workers)
  }

  /** A worker without a job before and after. */
  lemma IdleStep(s: State, w: nat, x: Worker)
    requires w < |s.workers| && !s.workers[w].Running? && !x.Running?
    ensures InHand(s.workers[w := x]) == InHand(s.workers)
  {
    InHandUpdate(s.workers, w, x);
    assert InHand(s.workers[w := x]) + multiset{} == InHand(s.workers[w := x]);
    assert InHand(s.workers) + multiset{} == InHand(s.workers);
  }

  lemma TakesJob(s: State, w: nat, job: Job)
    requires w < |s.workers| && !s.workers[w].Running?
    ensures InHand(s.workers[w := Running(job)]) == InHand(s.workers) + multiset{job}
  {
    InHandUpdate(s.workers, w, Running(job));
    assert InHand(s.workers[w := Running(job)]) + multiset{} == InHand(s.workers[w := Running(job)]);
  }

  lemma GivesJob(s: State, w: nat)
    requires w < |s.workers| && s.workers[w].Running?
    ensures InHand(s.workers[w := Ready]) + multiset{s.workers[w].job} == InHand(s.workers)
  {
    InHandUpdate(s.workers, w, Ready);
    assert InHand(s.workers) + multiset{} == InHand(s.workers);
  }

  lemma LockConserves(s: State, w: nat)
    requires Conserved(s) && w < |s.workers| && s.workers[w] == Ready
    ensures Conserved(Locked(s, w))
  {
    if s.queue != [] {
      var job := s.queue[0];
      TakesJob(s, w, job);
      assert s.queue == [job] + s.queue[1..];
      assert s.started + s.queue == (s.started + [job]) + s.queue[1..];
      assert multiset(s.started + [job]) == multiset(s.started) + multiset{job};
      assert multiset(s.finished) + (InHand(s.workers) + multiset{job}) ==
          (multiset(s.finished) + InHand(s.workers)) + multiset{job};
    } else {
      IdleStep(s, w, Returned);
      IdleStep(s, w, Checked);
    }
  }

  lemma FinishConserves(s: State, w: nat)
    requires Conserved(s) && w < |s.workers| && s.workers[w].Running?
    ensures Conserved(s.(workers := s.workers[w := Ready], finished := s.finished + [s.workers[w].job]))
  {
    var job := s.workers[w].job;
    GivesJob(s, w);
    assert multiset(s.finished + [job]) == multiset(s.finished) + multiset{job};
    var rest := InHand(s.workers[w := Ready]);
    assert (multiset(s.finished) + multiset{job}) + rest == multiset(s.finished) + (rest + multiset{job});
  }

  lemma StepConserves(s: State, e: Event)
    requires Conserved(s) && Enabled(s, e)
    ensures Conserved(Next(s, e))
  {
    match e {
      case Lock(w) => LockConserves(s, w);
      case Wait(w) => IdleStep(s, w, Waiting);
      case Finish(w) => FinishConserves(s, w);
      case Wake(w) => IdleStep(s, w, Ready);
      case NotifyOne(w) => if w.Some? { IdleStep(s, w.value, Ready); }
      case NotifyAll => InHandSame(s.workers, Next(s, e).workers);
      case Enqueue(id) => AddConserves(s, Other(id));
      case EnqueuePart(c) => AddConserves(s, Part(c, s.calls[c].enqueued));
      case _ =>
    }
  }

  lemma AddConserves(s: State, job: Job)
    requires Conserved(s)
    ensures Conserved(Added(s, job))
  {
    assert s.started + (s.queue + [job]) == (s.started + s.queue) + [job];
  }

  // ---------- executeParallel ----------

  /** Call `c` has enqueued each of its first parts once, and has waited only for finished ones. */
  ghost predicate CallOk(s: State, c: nat)
    requires c < |s.calls|
  {
    var call := s.calls[c];
    && call.waited <= call.enqueued <= call.size
    && (forall i: nat :: multiset(s.enqueued)[Part(c, i)] == if i < call.enqueued then 1 else 0)
    && (forall i: nat :: i < call.waited ==> Part(c, i) in s.finished)
    && (call.waited > 0 ==> call.enqueued == call.size)
  }

  ghost predicate CallsOk(s: State) {
    && (forall c: nat :: c < |s.calls| ==> CallOk(s, c))
    && (forall c: nat, i: nat :: Part(c, i) in s.enqueued ==> c < |s.calls|)
  }

  lemma AddOther(s: State, t: State, job: Job, c: nat)
    requires c < |s.calls| && c < |t.calls| && CallOk(s, c) && t.calls[c] == s.calls[c]
    requires t.enqueued == s.enqueued + [job] && t.finished == s.finished
    requires job.Other? || job.call != c
    ensures CallOk(t, c)
  {
    forall i: nat ensures multiset(t.enqueued)[Part(c, i)] == multiset(s.enqueued)[Part(c, i)] {
      assert Part(c, i) != job;
    }
  }

  lemma AddPart(s: State, c: nat)
    requires c < |s.calls| && CallOk(s, c) && s.calls[c].enqueued < s.calls[c].size
    ensures var call := s.calls[c];
            CallOk(Added(s, Part(c, call.enqueued)).(calls := s.calls[c := call.(enqueued := call.enqueued + 1)]), c)
  {
  }

  lemma SameHistory(s: State, t: State)
    requires CallsOk(s) && t.calls == s.calls && t.enqueued == s.enqueued
    requires forall j :: j in s.finished ==> j in t.finished
    ensures CallsOk(t)
  {
    forall c: nat | c < |t.calls| ensures CallOk(t, c) {
      assert CallOk(s, c);
    }
  }

  lemma StepCalls(s: State, e: Event)
    requires CallsOk(s) && Enabled(s, e)
    ensures CallsOk(Next(s, e))
  {
    var t := Next(s, e);
    match e {
      case Enqueue(id) =>
        forall c: nat | c < |t.calls| ensures CallOk(t, c) { AddOther(s, t, Other(id), c); }
      case EnqueuePart(d) =>
        forall c: nat | c < |t.calls| ensures CallOk(t, c) {
          if c == d { AddPart(s, d); } else { AddOther(s, t, Part(d, s.calls[d].enqueued), c); }
        }
      case BeginParallel(size) => BeginCalls(s, t, size);
      case WaitPart(d) =>
        forall c: nat | c < |t.calls| ensures CallOk(t, c) {
          assert CallOk(s, c);
        }
      case _ => SameHistory(s, t);
    }
  }

  lemma BeginCalls(s: State, t: State, size: nat)
    requires CallsOk(s) && t == s.(calls := s.calls + [Call(size, 0, 0)])
    ensures CallsOk(t)
  {
    forall c: nat | c < |t.calls| ensures CallOk(t, c) {
      if c < |s.calls| {
        assert CallOk(s, c);
      } else {
        forall i: nat ensures multiset(t.enqueued)[Part(c, i)] == 0 {
          assert Part(c, i) !in s.enqueued;
        }
      }
    }
  }

  // ---------- waking up ----------

  /** The worker will look at the queue again by itself. */
  predicate Awake(w: Worker) {
    w == Ready || w.Running?
  }

  ghost predicate SomeAwake(s: State) {
    exists w :: 0 <= w < |s.workers| && Awake(s.workers[w])
  }

  ghost predicate SomeWaiting(s: State) {
    exists w :: 0 <= w < |s.workers| && s.workers[w] == Waiting
  }

  /** No wake-up of an enqueued task is lost: while a task is queued and a worker sleeps, some worker
      is awake or somebody is still going to notify.  The lock that a worker keeps from its check to
      its wait is what makes this true. */
  ghost predicate NoLostTask(s: State) {
    && (s.queue != [] && SomeWaiting(s) ==> SomeAwake(s) || s.pending > 0)
    && (!LockFree(s) ==> s.queue == [])
    && OneChecked(s)
  }

  /** At most one worker is between its check and its wait. */
  ghost predicate OneChecked(s: State) {
    forall v, w :: 0 <= v < w < |s.workers| ==> s.workers[v] != Checked || s.workers[w] != Checked
  }

  lemma LockWakes(s: State, w: nat)
    requires NoLostTask(s) && Enabled(s, Lock(w))
    ensures NoLostTask(Locked(s, w))
  {
    var t := Locked(s, w);
    if s.queue != [] {
      assert Awake(t.workers[w]);
      assert LockFree(t);
    }
  }

  lemma StepWakes(s: State, e: Event)
    requires NoLostTask(s) && Enabled(s, e)
    ensures NoLostTask(Next(s, e))
  {
    var t := Next(s, e);
    match e {
      case Lock(w) => LockWakes(s, w);
      case Wait(w) =>
        assert s.queue == [];
        assert LockFree(t);
      case Finish(w) => ReadyWakes(s, t, w);
      case Wake(w) => ReadyWakes(s, t, w);
      case NotifyOne(w) =>
        if w.Some? { ReadyWakes(s, t, w.value); }
      case NotifyAll => AllWake(s, t);
      case _ =>
        assert t.workers == s.workers;
    }
  }

  lemma ReadyWakes(s: State, t: State, w: nat)
    requires NoLostTask(s) && w < |s.workers| && s.workers[w] != Checked
    requires t.workers == s.workers[w := Ready] && t.queue == s.queue
    ensures NoLostTask(t)
  {
    assert Awake(t.workers[w]);
    assert !LockFree(t) ==> !LockFree(s);
  }

  lemma AllWake(s: State, t: State)
    requires NoLostTask(s) && |t.workers| == |s.workers| && t.queue == s.queue
    requires forall i :: 0 <= i < |s.workers| ==> t.workers[i] == Woken(s.workers[i])
    ensures NoLostTask(t)
  {
    assert !LockFree(t) ==> !LockFree(s);
  }

  // ---------- stopping ----------

  /** The tasks enqueued after the stop flag was set, in a run. */
  ghost predicate NoLateEnqueue(s: State, e: Event) {
    s.stop ==> !e.Enqueue? && !e.EnqueuePart?
  }

  /** A worker returns only when the pool was stopped and the queue was empty, and it stays so. */
  ghost predicate ReturnedEmpty(s: State) {
    forall w :: 0 <= w < |s.workers| && s.workers[w] == Returned ==> s.stop && s.queue == []
  }

  lemma StepReturned(s: State, e: Event)
    requires ReturnedEmpty(s) && Enabled(s, e) && NoLateEnqueue(s, e)
    ensures ReturnedEmpty(Next(s, e))
  {
    var t := Next(s, e);
    forall w | 0 <= w < |t.workers| && t.workers[w] == Returned ensures t.stop && t.queue == [] {
      if s.workers[w] != Returned { assert e == Lock(w); }
    }
  }

  /** When the pool is stopped nobody goes to sleep any more, except a worker that had looked at the
      flag before it was set. */
  ghost predicate OnlyMissedSleep(s: State) {
    && (s.notifiedAll ==> s.stop)
    && forall w :: 0 <= w < |s.workers| && s.notifiedAll && (s.workers[w] == Waiting || s.workers[w] == Checked) ==>
         w in s.missed
  }

  lemma StepMissed(s: State, e: Event)
    requires OnlyMissedSleep(s) && Enabled(s, e)
    ensures OnlyMissedSleep(Next(s, e))
  {
  }

  // ---------- whole runs ----------

  ghost predicate PoolInv(s: State) {
    Conserved(s) && CallsOk(s) && NoLostTask(s) && OnlyMissedSleep(s)
  }

  lemma StartInv(threads: nat)
    ensures PoolInv(Start(threads))
  {
    AllReady(Start(threads).workers);
  }

  lemma {:induction false} AllReady(ws: seq<Worker>)
    requires forall i :: 0 <= i < |ws| ==> ws[i] == Ready
    ensures InHand(ws) == multiset{}
    decreases |ws|
  {
    if ws != [] { AllReady(ws[1..]); }
  }

  lemma StepInv(s: State, e: Event)
    requires PoolInv(s) && Enabled(s, e)
    ensures PoolInv(Next(s, e))
  {
    StepConserves(s, e);
    StepCalls(s, e);
    StepWakes(s, e);
    StepMissed(s, e);
  }

  lemma {:induction false} RunInv(s: State, es: seq<Event>)
    requires PoolInv(s) && AllEnabled(s, es)
    ensures PoolInv(Run(s, es))
    decreases |es|
  {
    if es != [] {
      StepInv(s, es[0]);
      RunInv(Next(s, es[0]), es[1..]);
    }
  }

  /** In every run tasks start in the order of their enqueuing, each at most once, and every enqueued
      task is queued, being run, or finished. */
  lemma Fifo(threads: nat, es: seq<Event>)
    requires AllEnabled(Start(threads), es)
    ensures var s := Run(Start(threads), es);
            && s.started <= s.enqueued
            && multiset(s.enqueued) == multiset(s.queue) + InHand(s.workers) + multiset(s.finished)
  {
    StartInv(threads);
    RunInv(Start(threads), es);
    var s := Run(Start(threads), es);
    assert multiset(s.started + s.queue) == multiset(s.started) + multiset(s.queue);
  }

  /** executeParallel returns only when its function has run exactly once for every AI of its
      snapshot, and it never runs for anything else. */
  lemma ParallelExact(threads: nat, es: seq<Event>, c: nat, i: nat)
    requires AllEnabled(Start(threads), es) && c < |Run(Start(threads), es).calls|
    ensures var s := Run(Start(threads), es);
            var call := s.calls[c];
            && multiset(s.started)[Part(c, i)] <= (if i < call.size then 1 else 0)
            && (call.waited == call.size ==> multiset(s.finished)[Part(c, i)] == if i < call.size then 1 else 0)
  {
    StartInv(threads);
    RunInv(Start(threads), es);
    var s := Run(Start(threads), es);
    assert CallOk(s, c);
    assert multiset(s.started + s.queue) == multiset(s.started) + multiset(s.queue);
    assert Part(c, i) in s.finished ==> multiset(s.finished)[Part(c, i)] > 0;
  }

  /** A worker that finds tasks starts the oldest one that has not started; with none and the pool stopped it
      returns, and otherwise it is about to wait. */
  lemma LockStarts(threads: nat, es: seq<Event>, w: nat)
    requires AllEnabled(Start(threads), es) && Enabled(Run(Start(threads), es), Lock(w))
    ensures var s := Run(Start(threads), es); var t := Next(s, Lock(w));
      if |s.started| < |s.enqueued| then
        var job := s.enqueued[|s.started|];
        t.workers == s.workers[w := Running(job)] && t.started == s.started + [job] && t.queue == s.queue[1..]
      else t == s.(workers := s.workers[w := if s.stop then Returned else Checked])
  {
    StartInv(threads);
    RunInv(Start(threads), es);
    var s := Run(Start(threads), es);
    assert |s.started| < |s.enqueued| ==> s.enqueued[|s.started|] == s.queue[0];
  }

  ghost predicate NoLateEnqueues(s: State, es: seq<Event>)
    requires AllEnabled(s, es)
    decreases |es|
  {
    es != [] ==> NoLateEnqueue(s, es[0]) && NoLateEnqueues(Next(s, es[0]), es[1..])
  }

  lemma {:induction false} RunReturned(s: State, es: seq<Event>)
    requires AllEnabled(s, es) && ReturnedEmpty(s) && NoLateEnqueues(s, es)
    ensures ReturnedEmpty(Run(s, es))
    decreases |es|
  {
    if es != [] {
      StepReturned(s, es[0]);
      RunReturned(Next(s, es[0]), es[1..]);
    }
  }

  lemma {:induction false} NothingInHand(ws: seq<Worker>)
    requires forall w :: 0 <= w < |ws| ==> ws[w] == Returned
    ensures InHand(ws) == multiset{}
    decreases |ws|
  {
    if ws != [] { NothingInHand(ws[1..]); }
  }

  lemma {:induction false} SameCrew(s: State, es: seq<Event>)
    requires AllEnabled(s, es)
    ensures |Run(s, es).workers| == |s.workers|
    decreases |es|
  {
    if es != [] { SameCrew(Next(s, es[0]), es[1..]); }
  }

  /** If nothing is enqueued after the pool was stopped, then once all workers have returned the queue
      is empty and every task ever enqueued has finished. */
  lemma StoppedFinished(threads: nat, es: seq<Event>)
    requires threads > 0 && AllEnabled(Start(threads), es) && NoLateEnqueues(Start(threads), es)
    ensures var s := Run(Start(threads), es);
            (forall w :: 0 <= w < |s.workers| ==> s.workers[w] == Returned)
            ==> s.queue == [] && multiset(s.enqueued) == multiset(s.finished)
  {
    var s := Run(Start(threads), es);
    SameCrew(Start(threads), es);
    RunReturned(Start(threads), es);
    if forall w :: 0 <= w < |s.workers| ==> s.workers[w] == Returned {
      assert s.workers[0] == Returned;
      NothingInHand(s.workers);
      Fifo(threads, es);
    }
  }

  /** No wake-up is lost for a task: whenever one is queued while a worker sleeps, another worker is
      awake or a notification is on its way. */
  lemma TaskGetsWorker(threads: nat, es: seq<Event>)
    requires AllEnabled(Start(threads), es)
    ensures var s := Run(Start(threads), es); s.queue != [] && SomeWaiting(s) ==> SomeAwake(s) || s.pending > 0
  {
    StartInv(threads);
    RunInv(Start(threads), es);
  }

  // ---------- the destructor's notification can be missed ----------

  /** Nothing new is enqueued and no worker wakes up by chance. */
  ghost predicate Undisturbed(es: seq<Event>) {
    forall i :: 0 <= i < |es| ==> !es[i].Enqueue? && !es[i].EnqueuePart? && !es[i].Wake?
  }

  /** Worker `w` sleeps, and only a new task or a chance wake-up could change that. */
  ghost predicate SleepsOn(s: State, w: nat) {
    forall es :: Undisturbed(es) && AllEnabled(s, es) ==> IsWaiting(Run(s, es), w)
  }

  /** After the destructor's notify_all a worker can go to sleep for good, so that join never returns. */
  ghost predicate CanHang(s: State)
    requires Enabled(s, NotifyAll)
  {
    exists es, w: nat ::
      Undisturbed(es) && AllEnabled(Next(s, NotifyAll), es) && SleepsOn(Run(Next(s, NotifyAll), es), w)
  }

  lemma StaysAsleep(s: State, e: Event, w: nat)
    requires Enabled(s, e) && Undisturbed([e]) && IsWaiting(s, w) && s.notifiedAll && s.pending == 0
    ensures IsWaiting(Next(s, e), w) && Next(s, e).notifiedAll && Next(s, e).pending == 0
  {
    assert [e][0] == e;
  }

  /** A worker that sleeps after notify_all while no notification is pending sleeps for good. */
  lemma {:induction false} SleepsForever(s: State, es: seq<Event>, w: nat)
    requires AllEnabled(s, es) && Undisturbed(es) && IsWaiting(s, w) && s.notifiedAll && s.pending == 0
    ensures IsWaiting(Run(s, es), w)
    decreases |es|
  {
    if es != [] {
      assert Undisturbed([es[0]]) && Undisturbed(es[1..]);
      StaysAsleep(s, es[0], w);
      SleepsForever(Next(s, es[0]), es[1..], w);
    }
  }

  /** The pending notifications of earlier tasks may all come while nobody waits; then a worker that has
      looked at the flag goes to sleep. */
  lemma {:induction false} GoesToSleep(s: State, w: nat) returns (es: seq<Event>)
    requires NobodyWaits(s) && s.notifiedAll && w < |s.workers| && s.workers[w] == Checked
    ensures Undisturbed(es) && AllEnabled(s, es)
    ensures IsWaiting(Run(s, es), w) && Run(s, es).notifiedAll && Run(s, es).pending == 0
    decreases s.pending
  {
    if s.pending == 0 {
      es := [Wait(w)];
      assert es[1..] == [];
      assert Run(Next(s, Wait(w)), []) == Next(s, Wait(w));
    } else {
      var t := Next(s, NotifyOne(None));
      assert NobodyWaits(t);
      var rest := GoesToSleep(t, w);
      es := [NotifyOne(None)] + rest;
      assert es[1..] == rest;
      assert Undisturbed(es);
    }
  }

  /** The destructor can hang exactly when it calls notify_all while a worker is between its check and
      its wait: the flag is set without the lock that the worker holds. */
  lemma CanHangIff(s: State)
    requires PoolInv(s) && Enabled(s, NotifyAll)
    ensures CanHang(s) <==> !LockFree(s)
  {
    var t := Next(s, NotifyAll);
    if LockFree(s) {
      forall es, w: nat | Undisturbed(es) && AllEnabled(t, es) ensures !SleepsOn(Run(t, es), w) {
        StepInv(s, NotifyAll);
        assert t.missed == {};
        NobodySleeps(t, es);
        assert Undisturbed([]) && AllEnabled(Run(t, es), []) && Run(Run(t, es), []) == Run(t, es);
      }
    } else {
      var w :| 0 <= w < |s.workers| && s.workers[w] == Checked;
      assert NobodyWaits(t) && t.workers[w] == Checked;
      var es := GoesToSleep(t, w);
      forall fs | Undisturbed(fs) && AllEnabled(Run(t, es), fs) ensures IsWaiting(Run(Run(t, es), fs), w) {
        SleepsForever(Run(t, es), fs, w);
      }
      assert SleepsOn(Run(t, es), w);
    }
  }

  lemma {:induction false} NobodySleeps(s: State, es: seq<Event>)
    requires PoolInv(s) && s.notifiedAll && s.missed == {} && AllEnabled(s, es)
    ensures !SomeWaiting(Run(s, es))
    decreases |es|
  {
    if es != [] {
      StepInv(s, es[0]);
      NobodySleeps(Next(s, es[0]), es[1..]);
    }
  }

  /** One worker is enough: it checks, the destructor sets the flag and notifies, the worker waits. */
  lemma StopCanBeMissed()
    ensures var es := [Lock(0), Stop, NotifyAll, Wait(0)];
            AllEnabled(Start(1), es) && Run(Start(1), es).workers == [Waiting] && Run(Start(1), es).pending == 0
  {
    var s0 := Start(1);
    var s1 := Next(s0, Lock(0));
    assert s0.workers == [Ready] && s1.workers == [Checked];
    var s2 := Next(s1, Stop);
    var s3 := Next(s2, NotifyAll);
    assert s3.workers == [Checked];
    var s4 := Next(s3, Wait(0));
    assert s4.workers == [Waiting];
    var e0, e1, e2, e3 := Lock(0), Stop, NotifyAll, Wait(0);
    var es := [e0, e1, e2, e3];
    assert es[1..] == [e1, e2, e3] && es[1..][1..] == [e2, e3] && es[1..][1..][1..] == [e3];
    assert es[1..][1..][1..][1..] == [];
    assert Run(s4, []) == s4 && AllEnabled(s4, []);
    assert Run(s3, [e3]) == s4 && AllEnabled(s3, [e3]);
    assert Run(s2, [e2, e3]) == s4 && AllEnabled(s2, [e2, e3]);
    assert Run(s1, [e1, e2, e3]) == s4 && AllEnabled(s1, [e1, e2, e3]);
  }
}
