/** The scheduler thread's catch-up loop (ThreadScheduler.h): due tasks run in the order of their
    execution times, a periodic task once for every period it is behind. */
module ThreadScheduler {
  import opened Division
  import opened Wrappers

  /** A ScheduledTask; the callback is known by its timer id. */
  datatype Task = Task(timerId: int, delay: int, execTime: int)

  /** One call of a callback, with the time it was scheduled for. */
  datatype Call = Call(timerId: int, time: int)

  predicate Due(t: Task, now: int) {
    t.execTime <= now
  }

  /** The task is put back only if it has a delay. */
  predicate Periodic(t: Task) {
    t.delay > 0
  }

  function Next(t: Task): Task {
    t.(execTime := t.execTime + t.delay)
  }

  // ---------- what one task has to do by a point in time ----------

  /** All the calls of a task up to `now`. */
  function Calls(t: Task, now: int): seq<Call>
    decreases if Due(t, now) then now - t.execTime + 1 else 0
  {
    if !Due(t, now) then []
    else [Call(t.timerId, t.execTime)] + if Periodic(t) then Calls(Next(t), now) else []
  }

  /** What is left in the queue of a task after that. */
  function After(t: Task, now: int): seq<Task>
    decreases if Due(t, now) then now - t.execTime + 1 else 0
  {
    if !Due(t, now) then [t]
    else if Periodic(t) then After(Next(t), now) else []
  }

  function AllCalls(ts: seq<Task>, now: int): seq<Call> {
    if ts == [] then [] else Calls(ts[0], now) + AllCalls(ts[1..], now)
  }

  function AllAfter(ts: seq<Task>, now: int): seq<Task> {
    if ts == [] then [] else After(ts[0], now) + AllAfter(ts[1..], now)
  }

  /** A task with a delay above zero that is due runs (now - execTime) / delay + 1 times, rounded down, at
      execTime, execTime + delay and so on. */
  lemma {:induction false} CallsExact(t: Task, now: int)
    requires t.delay > 0
    ensures |Calls(t, now)| == if t.execTime <= now then (now - t.execTime) / t.delay + 1 else 0
    ensures forall i :: 0 <= i < |Calls(t, now)| ==> Calls(t, now)[i] == Call(t.timerId, t.execTime + i * t.delay)
    decreases if Due(t, now) then now - t.execTime + 1 else 0
  {
    if Due(t, now) {
      CallsExact(Next(t), now);
      var rest := Calls(Next(t), now);
      DivideLess(now - t.execTime, t.delay);
      forall i | 0 <= i < |Calls(t, now)|
        ensures Calls(t, now)[i] == Call(t.timerId, t.execTime + i * t.delay)
      {
        if i > 0 {
          assert Calls(t, now)[i] == rest[i - 1];
          assert t.delay + (i - 1) * t.delay == i * t.delay;
        }
      }
    }
  }

  lemma DivideLess(n: int, d: int)
    requires n >= 0 && d > 0
    ensures n < d ==> n / d == 0
    ensures n >= d ==> n / d == (n - d) / d + 1
  {
    if n < d {
      DivideUniquely(n, d, 0, n);
    } else {
      var p := (n - d) / d;
      assert d * (p + 1) == d * p + d;
      DivideUniquely(n, d, p + 1, (n - d) % d);
    }
  }

  /** What is left of such a task: its first execution after `now`, on the same grid. */
  lemma {:induction false} AfterExact(t: Task, now: int)
    requires t.delay > 0
    ensures After(t, now) == [t.(execTime := t.execTime + |Calls(t, now)| * t.delay)]
    ensures now < t.execTime + |Calls(t, now)| * t.delay
    ensures t.execTime <= now ==> t.execTime + |Calls(t, now)| * t.delay <= now + t.delay
    decreases if Due(t, now) then now - t.execTime + 1 else 0
  {
    if Due(t, now) {
      AfterExact(Next(t), now);
      var n := |Calls(Next(t), now)|;
      assert (n + 1) * t.delay == t.delay + n * t.delay;
    }
  }

  /** A task without a delay runs once when it is due, and then nothing is left of it. */
  lemma OneShotExact(t: Task, now: int)
    requires t.delay <= 0
    ensures Calls(t, now) == if t.execTime <= now then [Call(t.timerId, t.execTime)] else []
    ensures After(t, now) == if t.execTime <= now then [] else [t]
  {
  }

  /** The times at which a task that starts at `first` is to run. */
  predicate OnGrid(first: int, delay: int, time: int) {
    if delay > 0 then first <= time && (time - first) % delay == 0 else time == first
  }

  lemma NextOnGrid(first: int, delay: int, time: int)
    requires delay > 0
    ensures OnGrid(first, delay, time) <==> time == first || OnGrid(first + delay, delay, time)
  {
    var n := time - first;
    var q := n / delay;
    assert n == delay * q + n % delay;
    assert n - delay == delay * (q - 1) + n % delay;
    DivideUniquely(n - delay, delay, q - 1, n % delay);
    if 0 < n < delay { DivideUniquely(n, delay, 0, n); }
    if n == 0 { DivideUniquely(n, delay, 0, 0); }
  }

  lemma NextLater(first: int, delay: int)
    requires delay > 0
    ensures OnGrid(first, delay, first) && !OnGrid(first + delay, delay, first)
  {
    DivideUniquely(0, delay, 0, 0);
  }

  /** A task runs exactly once at each of its times up to `now`. */
  lemma {:induction false} CallsCount(t: Task, now: int, time: int)
    ensures multiset(Calls(t, now))[Call(t.timerId, time)] ==
            if OnGrid(t.execTime, t.delay, time) && time <= now then 1 else 0
    decreases if Due(t, now) then now - t.execTime + 1 else 0
  {
    if Due(t, now) && t.delay > 0 {
      var rest := Calls(Next(t), now);
      CallsCount(Next(t), now, time);
      NextOnGrid(t.execTime, t.delay, time);
      NextLater(t.execTime, t.delay);
      assert multiset([Call(t.timerId, t.execTime)] + rest) == multiset{Call(t.timerId, t.execTime)} + multiset(rest);
    }
  }

  /** What is left of it is queued for the first of its times after `now`. */
  lemma {:induction false} AfterCount(t: Task, now: int, u: Task)
    ensures multiset(After(t, now))[u] ==
            if u.timerId == t.timerId && u.delay == t.delay && OnGrid(t.execTime, t.delay, u.execTime) &&
               now < u.execTime && (u.execTime == t.execTime || u.execTime - t.delay <= now) then 1 else 0
    decreases if Due(t, now) then now - t.execTime + 1 else 0
  {
    if t.delay > 0 { NextOnGrid(t.execTime, t.delay, u.execTime); }
    if Due(t, now) && t.delay > 0 { AfterCount(Next(t), now, u); }
  }

  // ---------- the drain loop ----------

  /** std::priority_queue::top: some task with the least execution time. */
  predicate Top(ts: seq<Task>, i: nat) {
    i < |ts| && forall j :: 0 <= j < |ts| ==> ts[i].execTime <= ts[j].execTime
  }

  ghost predicate Ordered(calls: seq<Call>) {
    forall i, j :: 0 <= i < j < |calls| ==> calls[i].time <= calls[j].time
  }

  ghost predicate NothingDue(ts: seq<Task>, now: int) {
    forall i :: 0 <= i < |ts| ==> !Due(ts[i], now)
  }

  /** The calls `ran` and the queue `left` are a complete drain of `ts`. */
  ghost predicate Drained(ts: seq<Task>, now: int, left: seq<Task>, ran: seq<Call>) {
    && Ordered(ran)
    && multiset(ran) == multiset(AllCalls(ts, now))
    && multiset(left) == multiset(AllAfter(ts, now))
    && NothingDue(left, now)
  }

  /** The part of a drain done so far: nothing is lost, nothing is done twice, and what ran was
      scheduled no later than what is still queued. */
  ghost predicate Draining(ts: seq<Task>, now: int, left: seq<Task>, ran: seq<Call>) {
    && Ordered(ran)
    && multiset(ran) + multiset(AllCalls(left, now)) == multiset(AllCalls(ts, now))
    && multiset(AllAfter(left, now)) == multiset(AllAfter(ts, now))
    && RanFirst(ran, left)
  }

  /** The queue after running its top task. */
  function Popped(ts: seq<Task>, i: nat): seq<Task>
    requires i < |ts|
  {
    ts[..i] + ts[i + 1..] + if Periodic(ts[i]) then [Next(ts[i])] else []
  }

  lemma {:induction false} AllAppend(a: seq<Task>, b: seq<Task>, now: int)
    ensures AllCalls(a + b, now) == AllCalls(a, now) + AllCalls(b, now)
    ensures AllAfter(a + b, now) == AllAfter(a, now) + AllAfter(b, now)
  {
    if a == [] {
      assert a + b == b;
    } else {
      assert (a + b)[1..] == a[1..] + b;
      AllAppend(a[1..], b, now);
    }
  }

  lemma AllOne(t: Task, now: int)
    ensures AllCalls([t], now) == Calls(t, now) && AllAfter([t], now) == After(t, now)
  {
    assert [t][1..] == [];
  }

  lemma AllAt(ts: seq<Task>, i: nat, now: int)
    requires i < |ts|
    ensures AllCalls(ts, now) == AllCalls(ts[..i], now) + Calls(ts[i], now) + AllCalls(ts[i + 1..], now)
    ensures AllAfter(ts, now) == AllAfter(ts[..i], now) + After(ts[i], now) + AllAfter(ts[i + 1..], now)
  {
    assert ts == ts[..i] + [ts[i]] + ts[i + 1..];
    AllAppend(ts[..i] + [ts[i]], ts[i + 1..], now);
    AllAppend(ts[..i], [ts[i]], now);
    AllOne(ts[i], now);
  }

  lemma MovedToBack<T>(a: seq<T>, c: T, d: seq<T>, b: seq<T>)
    ensures multiset((a + ([c] + d)) + b) == multiset((a + b) + d) + multiset{c}
    ensures multiset((a + d) + b) == multiset((a + b) + d)
  {
  }

  lemma AllPopped(ts: seq<Task>, i: nat, now: int)
    requires i < |ts| && Due(ts[i], now)
    ensures multiset(AllCalls(ts, now)) ==
            multiset(AllCalls(Popped(ts, i), now)) + multiset{Call(ts[i].timerId, ts[i].execTime)}
    ensures multiset(AllAfter(ts, now)) == multiset(AllAfter(Popped(ts, i), now))
    ensures |AllCalls(Popped(ts, i), now)| == |AllCalls(ts, now)| - 1
  {
    var t := ts[i];
    var back := if Periodic(t) then [Next(t)] else [];
    AllAt(ts, i, now);
    AllAppend(ts[..i] + ts[i + 1..], back, now);
    AllAppend(ts[..i], ts[i + 1..], now);
    PutBack(t, back, now);
    MovedToBack(AllCalls(ts[..i], now), Call(t.timerId, t.execTime), AllCalls(back, now), AllCalls(ts[i + 1..], now));
    MovedToBack(AllAfter(ts[..i], now), t, AllAfter(back, now), AllAfter(ts[i + 1..], now));
  }

  lemma PutBack(t: Task, back: seq<Task>, now: int)
    requires Due(t, now) && back == if Periodic(t) then [Next(t)] else []
    ensures Calls(t, now) == [Call(t.timerId, t.execTime)] + AllCalls(back, now)
    ensures After(t, now) == AllAfter(back, now)
  {
    if Periodic(t) { AllOne(Next(t), now); }
  }

  /** Everything that ran was scheduled no later than anything that is queued. */
  ghost predicate RanFirst(ran: seq<Call>, left: seq<Task>) {
    forall i, j :: 0 <= i < |ran| && 0 <= j < |left| ==> ran[i].time <= left[j].execTime
  }

  ghost predicate NoneEarlier(left: seq<Task>, time: int) {
    forall j :: 0 <= j < |left| ==> time <= left[j].execTime
  }

  lemma PoppedLater(ts: seq<Task>, i: nat)
    requires Top(ts, i)
    ensures NoneEarlier(Popped(ts, i), ts[i].execTime)
  {
    var next := Popped(ts, i);
    forall j | 0 <= j < |next| ensures ts[i].execTime <= next[j].execTime {
      if j < i {
        assert next[j] == ts[j];
      } else if j < |ts| - 1 {
        assert next[j] == ts[j + 1];
      }
    }
  }

  lemma RanNext(ran: seq<Call>, left: seq<Task>, i: nat, next: seq<Task>)
    requires Ordered(ran) && RanFirst(ran, left) && i < |left| && NoneEarlier(next, left[i].execTime)
    ensures Ordered(ran + [Call(left[i].timerId, left[i].execTime)])
    ensures RanFirst(ran + [Call(left[i].timerId, left[i].execTime)], next)
  {
    forall k, j | 0 <= k < |ran| && 0 <= j < |next| ensures ran[k].time <= next[j].execTime {
      assert ran[k].time <= left[i].execTime;
    }
  }

  /** One turn of the loop: the top task runs and is put back or dropped. */
  lemma DrainStep(ts: seq<Task>, now: int, left: seq<Task>, ran: seq<Call>, i: nat)
    requires Draining(ts, now, left, ran) && Top(left, i) && Due(left[i], now)
    ensures Draining(ts, now, Popped(left, i), ran + [Call(left[i].timerId, left[i].execTime)])
  {
    var c := Call(left[i].timerId, left[i].execTime);
    AllPopped(left, i, now);
    PoppedLater(left, i);
    RanNext(ran, left, i, Popped(left, i));
    assert multiset(ran + [c]) == multiset(ran) + multiset{c};
  }

  lemma {:induction false} NothingToDo(ts: seq<Task>, now: int)
    requires NothingDue(ts, now)
    ensures AllCalls(ts, now) == [] && AllAfter(ts, now) == ts
  {
    if ts != [] {
      NothingToDo(ts[1..], now);
      assert ts == [ts[0]] + ts[1..];
    }
  }

  lemma DrainStart(ts: seq<Task>, now: int)
    ensures Draining(ts, now, ts, [])
  {
  }

  lemma DrainEnd(ts: seq<Task>, now: int, left: seq<Task>, ran: seq<Call>)
    requires Draining(ts, now, left, ran) && NothingDue(left, now)
    ensures Drained(ts, now, left, ran)
  {
    NothingToDo(left, now);
    assert multiset(ran) + multiset([]) == multiset(ran);
  }

  lemma {:induction false} TopExists(ts: seq<Task>) returns (i: nat)
    requires ts != []
    ensures Top(ts, i)
  {
    if |ts| == 1 {
      i := 0;
    } else {
      var j := TopExists(ts[1..]);
      assert forall k :: 1 <= k < |ts| ==> ts[k] == ts[1..][k - 1];
      i := if ts[0].execTime <= ts[j + 1].execTime then 0 else j + 1;
    }
  }

  class Scheduler {
    var tasks: seq<Task>
    var timerId: int
    var notEmpty: bool
    var called: seq<Call>

    /** Timer ids are distinct and were all handed out; an idle thread has no tasks. */
    ghost predicate Valid()
      reads this
    {
      && IdsBelow(tasks, timerId + 1)
      && DistinctIds(tasks)
      && (!notEmpty ==> tasks == [])
    }

    constructor ()
      ensures Valid() && tasks == [] && called == [] && timerId == 0
    {
      tasks, timerId, notEmpty, called := [], 0, false, [];
    }

    /** `now` is what the clock says. */
    method ScheduleAtFixedRate(initialDelay: int, delay: int, now: int) returns (id: int)
      requires Valid()
      modifies this
      ensures Valid() && id == old(timerId) + 1 && timerId == id
      ensures tasks == old(tasks) + [Task(id, delay, now + initialDelay)] && called == old(called) && notEmpty
    {
      timerId := timerId + 1;
      tasks := tasks + [Task(timerId, delay, now + initialDelay)];
      notEmpty := true;
      id := timerId;
    }

    method Schedule(delay: int, now: int) returns (id: int)
      requires Valid()
      modifies this
      ensures Valid() && id == old(timerId) + 1 && timerId == id
      ensures tasks == old(tasks) + [Task(id, 0, now + delay)] && called == old(called) && notEmpty
    {
      id := ScheduleAtFixedRate(delay, 0, now);
    }

    /** Run the task at the top of the queue and put it back if it has a delay. */
    method RunTop(i: nat)
      requires i < |tasks|
      modifies this`tasks, this`called
      ensures tasks == Popped(old(tasks), i)
      ensures tasks == old(tasks)[..i] + old(tasks)[i + 1..] + var t := old(tasks)[i];
                if t.delay > 0 then [Task(t.timerId, t.delay, t.execTime + t.delay)] else []
      ensures called == old(called) + [Call(old(tasks)[i].timerId, old(tasks)[i].execTime)]
    {
      var t := tasks[i];
      called := called + [Call(t.timerId, t.execTime)];
      tasks := tasks[..i] + tasks[i + 1..];
      if t.delay > 0 {
        tasks := tasks + [Task(t.timerId, t.delay, t.execTime + t.delay)];
      }
    }

    /** std::priority_queue::top. */
    method PickTop() returns (i: nat)
      requires tasks != []
      ensures Top(tasks, i)
    {
      ghost var least := TopExists(tasks);
      i :| 0 <= i < |tasks| && Top(tasks, i);
    }

    /** One pass of the thread: drain the queue, then note whether it is empty.  `stop(k)` is whether
        the stop flag is seen set at the k-th check; `ran` are the calls made. */
    method Pass(now: int, stop: nat -> bool) returns (stopped: bool, ghost ran: seq<Call>)
      requires Valid()
      modifies this
      ensures timerId == old(timerId) && called == old(called) + ran && Valid()
      ensures if stopped then Draining(old(tasks), now, tasks, ran) else Drained(old(tasks), now, tasks, ran)
    {
      stopped, ran := false, [];
      if notEmpty {
        var k;
        stopped, k, ran := DrainLoop(now, stop);
        if stopped { return; }
        if stop(k) {
          DrainedDraining(old(tasks), now, tasks, ran);
          stopped := true;
          return;
        }
        notEmpty := tasks != [];
      }
    }

    method DrainLoop(now: int, stop: nat -> bool) returns (stopped: bool, k: nat, ghost ran: seq<Call>)
      requires IdsBelow(tasks, timerId + 1) && DistinctIds(tasks)
      modifies this`tasks, this`called
      ensures called == old(called) + ran && IdsBelow(tasks, timerId + 1) && DistinctIds(tasks)
      ensures if stopped then Draining(old(tasks), now, tasks, ran) else Drained(old(tasks), now, tasks, ran)
    {
      stopped, k, ran := false, 0, [];
      DrainStart(tasks, now);
      while tasks != []
        invariant called == old(called) + ran
        invariant IdsBelow(tasks, timerId + 1) && DistinctIds(tasks)
        invariant Draining(old(tasks), now, tasks, ran)
        decreases |AllCalls(tasks, now)|
      {
        var i := PickTop();
        if tasks[i].execTime > now { break; }
        if stop(k) {
          stopped := true;
          return;
        }
        DrainStep(old(tasks), now, tasks, ran, i);
        AllPopped(tasks, i, now);
        PoppedIds(tasks, i, timerId + 1);
        ran := ran + [Call(tasks[i].timerId, tasks[i].execTime)];
        RunTop(i);
        k := k + 1;
      }
      DrainEnd(old(tasks), now, tasks, ran);
    }
  }

  lemma DrainedDraining(ts: seq<Task>, now: int, left: seq<Task>, ran: seq<Call>)
    requires Drained(ts, now, left, ran)
    ensures Draining(ts, now, left, ran)
  {
    NothingToDo(left, now);
    assert multiset(ran) + multiset([]) == multiset(ran);
    forall i, j | 0 <= i < |ran| && 0 <= j < |left| ensures ran[i].time <= left[j].execTime {
      assert ran[i] in multiset(ran);
      CallDue(ts, now, ran[i]);
    }
  }

  lemma {:induction false} CallDue(ts: seq<Task>, now: int, c: Call)
    requires c in multiset(AllCalls(ts, now))
    ensures c.time <= now
  {
    if c in Calls(ts[0], now) {
      OneCallDue(ts[0], now, c);
    } else {
      CallDue(ts[1..], now, c);
    }
  }

  lemma {:induction false} OneCallDue(t: Task, now: int, c: Call)
    requires c in Calls(t, now)
    ensures c.time <= now
    decreases if Due(t, now) then now - t.execTime + 1 else 0
  {
    if c != Call(t.timerId, t.execTime) { OneCallDue(Next(t), now, c); }
  }

  ghost predicate IdsBelow(ts: seq<Task>, n: int) {
    forall i :: 0 <= i < |ts| ==> ts[i].timerId < n
  }

  ghost predicate DistinctIds(ts: seq<Task>) {
    forall i, j :: 0 <= i < j < |ts| ==> ts[i].timerId != ts[j].timerId
  }

  lemma PoppedIds(ts: seq<Task>, i: nat, n: int)
    requires i < |ts| && IdsBelow(ts, n) && DistinctIds(ts)
    ensures IdsBelow(Popped(ts, i), n) && DistinctIds(Popped(ts, i))
  {
  }

  // ---------- whole runs ----------

  /** The scheduler between two operations. */
  datatype State = State(tasks: seq<Task>, timerId: int, called: seq<Call>)

  datatype Event = ScheduleEvent(initialDelay: int, delay: int, now: int) | PassEvent(now: int)

  ghost predicate Step(s: State, e: Event, next: State) {
    match e
    case ScheduleEvent(initialDelay, delay, now) =>
      next == State(s.tasks + [Queued(s, e)], s.timerId + 1, s.called)
    case PassEvent(now) =>
      next.timerId == s.timerId && exists ran :: PassStep(s, now, next, ran)
  }

  ghost predicate PassStep(s: State, now: int, next: State, ran: seq<Call>) {
    next.called == s.called + ran && Drained(s.tasks, now, next.tasks, ran)
  }

  /** `ss` are the states before, between and after the events, from an empty scheduler on. */
  ghost predicate IsRun(ss: seq<State>, es: seq<Event>) {
    && |ss| == |es| + 1
    && ss[0] == State([], 0, [])
    && forall i :: 0 <= i < |es| ==> StepNumber(ss, es, i)
  }

  ghost predicate StepNumber(ss: seq<State>, es: seq<Event>, i: nat)
    requires |ss| == |es| + 1 && i < |es|
  {
    Step(ss[i], es[i], ss[i + 1])
  }

  /** The latest time the clock showed in any pass among `es`. */
  function Latest(es: seq<Event>): Option<int> {
    if es == [] then None
    else
      LaterEvent(Latest(es[..|es| - 1]), es[|es| - 1])
  }

  function LaterEvent(m: Option<int>, e: Event): Option<int> {
    match e
    case ScheduleEvent(_, _, _) => m
    case PassEvent(now) => Later(m, now)
  }

  function Later(m: Option<int>, now: int): Option<int> {
    if m.Some? && m.value >= now then m else Some(now)
  }

  function CallsBy(t: Task, m: Option<int>): seq<Call> {
    if m.None? then [] else Calls(t, m.value)
  }

  function AfterBy(t: Task, m: Option<int>): seq<Task> {
    if m.None? then [t] else After(t, m.value)
  }

  /** Draining at `m` and then at `n` is draining at the later of the two. */
  lemma {:induction false} DrainTwice(t: Task, m: int, n: int)
    ensures Calls(t, if m >= n then m else n) == Calls(t, m) + AllCalls(After(t, m), n)
    ensures After(t, if m >= n then m else n) == AllAfter(After(t, m), n)
    decreases if Due(t, m) then m - t.execTime + 1 else 0
  {
    if !Due(t, m) {
      AllOne(t, n);
      assert [] + Calls(t, n) == Calls(t, n);
    } else if Periodic(t) {
      DrainTwice(Next(t), m, n);
    }
  }

  lemma DrainAgain(t: Task, m: Option<int>, now: int)
    ensures CallsBy(t, Later(m, now)) == CallsBy(t, m) + AllCalls(AfterBy(t, m), now)
    ensures AfterBy(t, Later(m, now)) == AllAfter(AfterBy(t, m), now)
  {
    if m.None? {
      AllOne(t, now);
      assert [] + Calls(t, now) == Calls(t, now);
    } else {
      DrainTwice(t, m.value, now);
    }
  }

  /** The tasks of one timer. */
  function Mine(ts: seq<Task>, id: int): seq<Task> {
    if ts == [] then [] else (if ts[0].timerId == id then [ts[0]] else []) + Mine(ts[1..], id)
  }

  lemma {:induction false} MineAppend(a: seq<Task>, b: seq<Task>, id: int)
    ensures Mine(a + b, id) == Mine(a, id) + Mine(b, id)
  {
    if a == [] {
      assert a + b == b;
    } else {
      assert (a + b)[1..] == a[1..] + b;
      MineAppend(a[1..], b, id);
      var first := if a[0].timerId == id then [a[0]] else [];
      assert (first + Mine(a[1..], id)) + Mine(b, id) == first + (Mine(a[1..], id) + Mine(b, id));
    }
  }

  lemma {:induction false} MineCount(ts: seq<Task>, id: int, t: Task)
    ensures multiset(Mine(ts, id))[t] == if t.timerId == id then multiset(ts)[t] else 0
  {
    if ts != [] {
      MineCount(ts[1..], id, t);
      assert ts == [ts[0]] + ts[1..];
    }
  }

  /** A call of the timer comes from its own tasks only. */
  lemma {:induction false} CallsOfMine(ts: seq<Task>, now: int, c: Call)
    ensures multiset(AllCalls(ts, now))[c] == multiset(AllCalls(Mine(ts, c.timerId), now))[c]
  {
    if ts != [] {
      var rest := Mine(ts[1..], c.timerId);
      CallsOfMine(ts[1..], now, c);
      CallsKeepId(ts[0], now);
      if ts[0].timerId == c.timerId {
        AllAppend([ts[0]], rest, now);
        AllOne(ts[0], now);
      } else {
        assert Mine(ts, c.timerId) == rest;
        assert c !in Calls(ts[0], now);
        assert multiset(Calls(ts[0], now))[c] == 0;
      }
    }
  }

  lemma {:induction false} CallsKeepId(t: Task, now: int)
    ensures forall c :: c in Calls(t, now) ==> c.timerId == t.timerId
    ensures forall u :: u in After(t, now) ==> u.timerId == t.timerId
    decreases if Due(t, now) then now - t.execTime + 1 else 0
  {
    if Due(t, now) && Periodic(t) { CallsKeepId(Next(t), now); }
  }

  lemma {:induction false} MineSame(ts: seq<Task>, id: int)
    requires forall u :: u in ts ==> u.timerId == id
    ensures Mine(ts, id) == ts
  {
    if ts != [] {
      MineSame(ts[1..], id);
      assert ts == [ts[0]] + ts[1..];
    }
  }

  lemma {:induction false} MineOther(ts: seq<Task>, id: int)
    requires forall u :: u in ts ==> u.timerId != id
    ensures Mine(ts, id) == []
  {
    if ts != [] { MineOther(ts[1..], id); }
  }

  lemma {:induction false} AfterOfMine(ts: seq<Task>, now: int, id: int)
    ensures Mine(AllAfter(ts, now), id) == AllAfter(Mine(ts, id), now)
  {
    if ts != [] {
      AfterOfMine(ts[1..], now, id);
      CallsKeepId(ts[0], now);
      MineAppend(After(ts[0], now), AllAfter(ts[1..], now), id);
      if ts[0].timerId == id {
        MineSame(After(ts[0], now), id);
        assert Mine(ts, id)[1..] == Mine(ts[1..], id);
      } else {
        MineOther(After(ts[0], now), id);
        assert Mine(ts, id) == Mine(ts[1..], id);
      }
    }
  }

  /** Timer `t.timerId`, first queued as `t`, has done what it must by `m`, and no more. */
  ghost predicate Tracks(s: State, t: Task, m: Option<int>) {
    && (forall c: Call :: c.timerId == t.timerId ==> multiset(s.called)[c] == multiset(CallsBy(t, m))[c])
    && multiset(Mine(s.tasks, t.timerId)) == multiset(AfterBy(t, m))
  }

  lemma {:induction false} AtMostOne(t: Task, m: int)
    ensures |After(t, m)| <= 1
    decreases if Due(t, m) then m - t.execTime + 1 else 0
  {
    if Due(t, m) && Periodic(t) { AtMostOne(Next(t), m); }
  }

  lemma SameSmall(a: seq<Task>, b: seq<Task>)
    requires multiset(a) == multiset(b) && |b| <= 1
    ensures a == b
  {
    assert |multiset(a)| == |a| && |multiset(b)| == |b|;
    if |b| == 1 {
      assert b[0] in multiset(b);
      assert a[0] in multiset(a);
    }
  }

  lemma PassTracks(s: State, now: int, next: State, ran: seq<Call>, t: Task, m: Option<int>)
    requires PassStep(s, now, next, ran) && Tracks(s, t, m)
    ensures Tracks(next, t, Later(m, now))
  {
    var id := t.timerId;
    if m.Some? { AtMostOne(t, m.value); }
    SameSmall(Mine(s.tasks, id), AfterBy(t, m));
    DrainAgain(t, m, now);
    forall c: Call | c.timerId == id
      ensures multiset(next.called)[c] == multiset(CallsBy(t, Later(m, now)))[c]
    {
      CallsOfMine(s.tasks, now, c);
      assert multiset(next.called)[c] == multiset(s.called)[c] + multiset(ran)[c];
    }
    AfterOfMine(s.tasks, now, id);
    SameMine(next.tasks, AllAfter(s.tasks, now), id);
  }

  lemma SameMine(a: seq<Task>, b: seq<Task>, id: int)
    requires multiset(a) == multiset(b)
    ensures multiset(Mine(a, id)) == multiset(Mine(b, id))
  {
    forall t: Task ensures multiset(Mine(a, id))[t] == multiset(Mine(b, id))[t] {
      MineCount(a, id, t);
      MineCount(b, id, t);
    }
  }

  lemma ScheduleTracks(s: State, e: Event, next: State, t: Task, m: Option<int>)
    requires e.ScheduleEvent? && Step(s, e, next) && Tracks(s, t, m) && t.timerId <= s.timerId
    ensures Tracks(next, t, m)
  {
    var u := Task(s.timerId + 1, e.delay, e.now + e.initialDelay);
    MineAppend(s.tasks, [u], t.timerId);
    assert [u][1..] == [];
    assert Mine(s.tasks, t.timerId) + [] == Mine(s.tasks, t.timerId);
  }

  /** Ids in use were handed out before. */
  ghost predicate IdsKnown(s: State) {
    && (forall u :: u in s.tasks ==> u.timerId <= s.timerId)
    && (forall c :: c in s.called ==> c.timerId <= s.timerId)
  }

  lemma {:induction false} AllKeepIds(ts: seq<Task>, now: int, n: int)
    requires forall u :: u in ts ==> u.timerId <= n
    ensures forall c :: c in AllCalls(ts, now) ==> c.timerId <= n
    ensures forall u :: u in AllAfter(ts, now) ==> u.timerId <= n
  {
    if ts != [] {
      CallsKeepId(ts[0], now);
      AllKeepIds(ts[1..], now, n);
    }
  }

  lemma StepIds(s: State, e: Event, next: State)
    requires Step(s, e, next) && IdsKnown(s)
    ensures IdsKnown(next)
  {
    if e.PassEvent? {
      var ran :| PassStep(s, e.now, next, ran);
      AllKeepIds(s.tasks, e.now, s.timerId);
      forall u | u in next.tasks ensures u.timerId <= s.timerId {
        assert u in multiset(next.tasks);
      }
      forall c | c in next.called ensures c.timerId <= s.timerId {
        if c in ran { assert c in multiset(ran); }
      }
    }
  }

  lemma {:induction false} RunIds(ss: seq<State>, es: seq<Event>, i: nat)
    requires IsRun(ss, es) && i < |ss|
    ensures IdsKnown(ss[i])
  {
    if i > 0 {
      RunIds(ss, es, i - 1);
      StepAt(ss, es, i);
      StepIds(ss[i - 1], es[i - 1], ss[i]);
    }
  }

  lemma LatestMore(es: seq<Event>, k: nat, n: nat)
    requires k < n <= |es|
    ensures Latest(es[k..n]) == LaterEvent(Latest(es[k..n - 1]), es[n - 1])
  {
    assert es[k..n][..n - k - 1] == es[k..n - 1];
  }

  lemma StepAt(ss: seq<State>, es: seq<Event>, n: nat)
    requires IsRun(ss, es) && 0 < n <= |es|
    ensures Step(ss[n - 1], es[n - 1], ss[n])
  {
    assert StepNumber(ss, es, n - 1);
  }

  /** The task that event `e` queues. */
  function Queued(s: State, e: Event): Task
    requires e.ScheduleEvent?
  {
    Task(s.timerId + 1, e.delay, e.now + e.initialDelay)
  }

  /** For every run and every timer in it: its calls are exactly those due by the latest time seen in
      a pass since it was scheduled, each made once, and what is queued for it is its next one. */
  lemma {:induction false} TimerExact(ss: seq<State>, es: seq<Event>, k: nat, n: nat)
    requires IsRun(ss, es) && k < n <= |es| && es[k].ScheduleEvent?
    ensures var t := Queued(ss[k], es[k]); TracksKnown(ss[n], t, Latest(es[k + 1..n]))
    decreases n
  {
    var t := Queued(ss[k], es[k]);
    if n == k + 1 {
      StepAt(ss, es, n);
      RunIds(ss, es, k);
      StartTracks(ss[k], es[k], ss[n], t);
      assert es[k + 1..n] == [];
    } else {
      TimerExact(ss, es, k, n - 1);
      LatestMore(es, k + 1, n);
      RunTracks(ss, es, n, t, Latest(es[k + 1..n - 1]));
    }
  }

  lemma RunTracks(ss: seq<State>, es: seq<Event>, n: nat, t: Task, m: Option<int>)
    requires IsRun(ss, es) && 0 < n <= |es|
    requires var s := ss[n - 1]; TracksKnown(s, t, m)
    ensures var s := ss[n]; TracksKnown(s, t, LaterEvent(m, es[n - 1]))
  {
    StepAt(ss, es, n);
    StepTracks(ss[n - 1], es[n - 1], ss[n], t, m);
  }

  ghost predicate TracksKnown(s: State, t: Task, m: Option<int>) {
    Tracks(s, t, m) && t.timerId <= s.timerId
  }

  lemma StepTracks(s: State, e: Event, next: State, t: Task, m: Option<int>)
    requires Step(s, e, next) && TracksKnown(s, t, m)
    ensures TracksKnown(next, t, LaterEvent(m, e))
  {
    if e.PassEvent? {
      var ran :| PassStep(s, e.now, next, ran);
      PassTracks(s, e.now, next, ran, t, m);
    } else {
      ScheduleTracks(s, e, next, t, m);
    }
  }

  lemma StartTracks(s: State, e: Event, next: State, t: Task)
    requires IdsKnown(s) && e.ScheduleEvent? && Step(s, e, next)
    requires t == Queued(s, e)
    ensures TracksKnown(next, t, None)
  {
    MineAppend(s.tasks, [t], t.timerId);
    MineOther(s.tasks, t.timerId);
    assert [t][1..] == [];
    assert Mine([t], t.timerId) == [t];
    assert [] + [t] == [t];
    forall c: Call | c.timerId == t.timerId ensures multiset(next.called)[c] == 0 {
      assert c !in s.called;
    }
  }

  // ---------- the same in numbers ----------

  /** Some pass among the events after number `k` and before number `n` saw the clock at `time` or later. */
  ghost predicate Seen(es: seq<Event>, k: nat, n: nat, time: int)
    requires n <= |es|
  {
    exists j :: k < j < n && PassAt(es[j], time)
  }

  predicate PassAt(e: Event, time: int) {
    e.PassEvent? && time <= e.now
  }

  lemma {:induction false} LatestSeen(es: seq<Event>, k: nat, n: nat, time: int)
    requires k < n <= |es|
    ensures var m := Latest(es[k + 1..n]); Seen(es, k, n, time) <==> m.Some? && time <= m.value
    decreases n
  {
    if n == k + 1 {
      assert es[k + 1..n] == [];
    } else {
      LatestSeen(es, k, n - 1, time);
      LatestMore(es, k + 1, n);
      assert Seen(es, k, n, time) <==> Seen(es, k, n - 1, time) || PassAt(es[n - 1], time);
    }
  }

  /** For every run and every timer in it, after `n` events: the timer was called exactly once for each of
      its times that a pass since then has seen, and for no other.  Its times are `first` alone, or with a
      `delay` above zero `first`, `first + delay` and so on.  It is queued, once, for the first of its times
      that no pass has seen, if there is one. */
  lemma TimerInNumbers(ss: seq<State>, es: seq<Event>, k: nat, n: nat, time: int)
    requires IsRun(ss, es) && k < n <= |es| && es[k].ScheduleEvent?
    ensures var first, delay, id := es[k].now + es[k].initialDelay, es[k].delay, ss[k].timerId + 1;
      && multiset(ss[n].called)[Call(id, time)] ==
         (if OnGrid(first, delay, time) && Seen(es, k, n, time) then 1 else 0)
      && multiset(ss[n].tasks)[Task(id, delay, time)] ==
         (if OnGrid(first, delay, time) && !Seen(es, k, n, time) &&
             (time == first || Seen(es, k, n, time - delay)) then 1 else 0)
      && forall u :: u in ss[n].tasks && u.timerId == id ==> u.delay == delay
  {
    var t := Queued(ss[k], es[k]);
    var m := Latest(es[k + 1..n]);
    TimerExact(ss, es, k, n);
    LatestSeen(es, k, n, time);
    LatestSeen(es, k, n, time - t.delay);
    TracksCalls(ss[n], t, m, time);
    TracksQueue(ss[n], t, m, time);
  }

  predicate SeenBy(m: Option<int>, time: int) {
    m.Some? && time <= m.value
  }

  lemma TracksCalls(s: State, t: Task, m: Option<int>, time: int)
    requires Tracks(s, t, m)
    ensures multiset(s.called)[Call(t.timerId, time)] ==
            if OnGrid(t.execTime, t.delay, time) && SeenBy(m, time) then 1 else 0
  {
    if m.Some? { CallsCount(t, m.value, time); }
  }

  lemma TracksQueue(s: State, t: Task, m: Option<int>, time: int)
    requires Tracks(s, t, m)
    ensures multiset(s.tasks)[Task(t.timerId, t.delay, time)] ==
            if OnGrid(t.execTime, t.delay, time) && !SeenBy(m, time) &&
               (time == t.execTime || SeenBy(m, time - t.delay)) then 1 else 0
    ensures forall u :: u in s.tasks && u.timerId == t.timerId ==> u.delay == t.delay
  {
    TracksTask(s, t, m, Task(t.timerId, t.delay, time));
    forall u | u in s.tasks && u.timerId == t.timerId ensures u.delay == t.delay {
      TracksTask(s, t, m, u);
      if m.Some? { AfterCount(t, m.value, u); }
    }
    if m.Some? { AfterCount(t, m.value, Task(t.timerId, t.delay, time)); }
  }

  lemma TracksTask(s: State, t: Task, m: Option<int>, u: Task)
    requires Tracks(s, t, m) && u.timerId == t.timerId
    ensures multiset(s.tasks)[u] == multiset(AfterBy(t, m))[u]
  {
    MineCount(s.tasks, t.timerId, u);
  }
}
