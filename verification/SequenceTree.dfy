/** Sequence nodes of a behaviour tree (Sequence.h, TreeNodeImpl.h): every sequence stores, per
    entity, the index of the child it is to go on with.  A tree of sequences behaves like one
    sequence over all its tasks. */
module SequenceTree {
  import opened Wrappers

  datatype Status = UNKNOWN | CANNOTEXECUTE | RUNNING | FINISHED | FAILED | EXCEPTION

  datatype Node = Task(id: int) | Sequence(id: int, children: seq<Node>)

  const AI_NOTHING_SELECTED := -1

  /** The progress an entity has in each sequence, by node id (AI::SelectorStates). */
  type Progress = map<int, int>

  /** The outside world during one tick.  What a task returns may depend on all task calls so
      far, its own included; so may the conditions of the sequences. */
  datatype World = World(task: seq<int> -> Status, condition: (int, seq<int>) -> bool)

  /** Result of executing a node: status, new progress, and all task calls so far. */
  datatype Outcome = Outcome(status: Status, progress: Progress, calls: seq<int>)

  /** getSelectorState (TreeNodeImpl.h:75-81). */
  function Selected(p: Progress, id: int): int {
    if id in p then p[id] else AI_NOTHING_SELECTED
  }

  /** resetState (Sequence.h:54-57, TreeNodeImpl.h:55-59). */
  function ResetState(n: Node, p: Progress): Progress
    decreases n, 1, 0
  {
    match n
    case Task(_) => p
    case Sequence(id, children) => ResetFrom(n, 0, p[id := AI_NOTHING_SELECTED])
  }

  function ResetFrom(n: Node, i: nat, p: Progress): Progress
    requires n.Sequence? && i <= |n.children|
    decreases n, 0, |n.children| - i
  {
    if i == |n.children| then p else ResetFrom(n, i + 1, ResetState(n.children[i], p))
  }

  function Start(p: Progress, id: int): nat {
    if Selected(p, id) < 0 then 0 else Selected(p, id)
  }

  /** Sequence::execute (Sequence.h:23-52) and the call of a task. */
  function Execute(n: Node, w: World, p: Progress, calls: seq<int>): Outcome
    decreases n, 1, 0
  {
    match n
    case Task(id) => Outcome(w.task(calls + [id]), p, calls + [id])
    case Sequence(id, children) =>
      if !w.condition(id, calls) then Outcome(CANNOTEXECUTE, p, calls)
      else
        var o := Loop(n, Start(p, id), w, p, calls, FINISHED);
        if o.status == RUNNING then o else o.(progress := ResetState(n, o.progress))
  }

  /** The loop of Sequence::execute, entered with the child `i` and the result so far. */
  function Loop(n: Node, i: nat, w: World, p: Progress, calls: seq<int>, result: Status): Outcome
    requires n.Sequence?
    decreases n, 0, |n.children| - i
  {
    if i >= |n.children| then Outcome(result, p, calls)
    else
      var o := Execute(n.children[i], w, p, calls);
      if GoesOn(o.status) then Loop(n, i + 1, w, o.progress, o.calls, o.status) else Stop(n, i, o)
  }

  predicate GoesOn(s: Status) {
    s == FINISHED || s == UNKNOWN
  }

  /** Leave the loop because of child `i` (Sequence.h:36-49). */
  function Stop(n: Node, i: nat, o: Outcome): Outcome
    requires n.Sequence?
  {
    match o.status
    case RUNNING => o.(progress := o.progress[n.id := i])
    case EXCEPTION => o
    case _ => o.(progress := ResetState(n, o.progress))
  }

  // ---------- the simple form: one list of tasks ----------

  function Tasks(n: Node): seq<int>
    decreases n, 1, 0
  {
    match n
    case Task(id) => [id]
    case Sequence(_, children) => TasksFrom(n, 0)
  }

  function TasksFrom(n: Node, i: nat): seq<int>
    requires n.Sequence? && i <= |n.children|
    decreases n, 0, |n.children| - i
  {
    if i == |n.children| then [] else Tasks(n.children[i]) + TasksFrom(n, i + 1)
  }

  /** Where a list of tasks got to: `next` is the task to go on with, if one is running. */
  datatype ListOutcome = ListOutcome(status: Status, next: Option<nat>, calls: seq<int>)

  /** Run the tasks `ts` one after the other, from number `k` on. */
  function RunList(ts: seq<int>, k: nat, w: World, calls: seq<int>, result: Status): ListOutcome
    decreases |ts| - k
  {
    if k >= |ts| then ListOutcome(result, None, calls)
    else
      var s := w.task(calls + [ts[k]]);
      if s == RUNNING then ListOutcome(s, Some(k), calls + [ts[k]])
      else if GoesOn(s) then RunList(ts, k + 1, w, calls + [ts[k]], s)
      else ListOutcome(s, None, calls + [ts[k]])
  }

  // ---------- progress and position ----------

  /** The ids of the sequences in a tree. */
  function SeqIds(n: Node): set<int>
    decreases n, 1, 0
  {
    match n
    case Task(_) => {}
    case Sequence(id, children) => {id} + SeqIdsFrom(n, 0)
  }

  function SeqIdsFrom(n: Node, i: nat): set<int>
    requires n.Sequence? && i <= |n.children|
    decreases n, 0, |n.children| - i
  {
    if i == |n.children| then {} else SeqIds(n.children[i]) + SeqIdsFrom(n, i + 1)
  }

  /** Node ids are unique (TreeNode::getNextId). */
  ghost predicate Unique(n: Node)
    decreases n
  {
    n.Sequence? ==>
      && (forall i :: 0 <= i < |n.children| ==> Unique(n.children[i]) && n.id !in SeqIds(n.children[i]))
      && (forall i, j :: 0 <= i < j < |n.children| ==> SeqIds(n.children[i]) !! SeqIds(n.children[j]))
  }

  /** No sequence of the tree has stored progress. */
  ghost predicate Idle(n: Node, p: Progress) {
    forall x :: x in SeqIds(n) ==> Selected(p, x) < 0
  }

  /** Number of tasks in the children before `i`. */
  function Offset(n: Node, i: nat): nat
    requires n.Sequence? && i <= |n.children|
  {
    if i == 0 then 0 else Offset(n, i - 1) + |Tasks(n.children[i - 1])|
  }

  /** The stored progress says: go on with task number `k`.  Sequences off the path to that task
      have no progress. */
  ghost predicate At(n: Node, p: Progress, k: nat)
    decreases n
  {
    match n
    case Task(_) => k == 0
    case Sequence(id, children) =>
      var i := Selected(p, id);
      && 0 <= i < |children| && Offset(n, i) <= k
      && At(children[i], p, k - Offset(n, i))
      && forall j :: 0 <= j < |children| && j != i ==> Idle(children[j], p)
  }

  // ---------- resetting ----------

  /** resetState stores "nothing selected" for every sequence of the tree and touches nothing else. */
  lemma {:induction false} ResetExact(n: Node, p: Progress, x: int)
    ensures Selected(ResetState(n, p), x) == if x in SeqIds(n) then AI_NOTHING_SELECTED else Selected(p, x)
    decreases n, 1, 0
  {
    if n.Sequence? {
      ResetFromExact(n, 0, p[n.id := AI_NOTHING_SELECTED], x);
    }
  }

  lemma {:induction false} ResetFromExact(n: Node, i: nat, p: Progress, x: int)
    requires n.Sequence? && i <= |n.children|
    ensures Selected(ResetFrom(n, i, p), x)
         == if x in SeqIdsFrom(n, i) then AI_NOTHING_SELECTED else Selected(p, x)
    decreases n, 0, |n.children| - i
  {
    if i < |n.children| {
      ResetExact(n.children[i], p, x);
      ResetFromExact(n, i + 1, ResetState(n.children[i], p), x);
    }
  }

  /** The two progress maps agree outside the sequences of `n`. */
  ghost predicate SameOutside(n: Node, p: Progress, q: Progress) {
    forall x :: x !in SeqIds(n) ==> Selected(p, x) == Selected(q, x)
  }

  lemma ResetIdle(n: Node, p: Progress)
    ensures Idle(n, ResetState(n, p)) && SameOutside(n, p, ResetState(n, p))
  {
    forall x ensures Selected(ResetState(n, p), x)
                  == if x in SeqIds(n) then AI_NOTHING_SELECTED else Selected(p, x) {
      ResetExact(n, p, x);
    }
  }

  // ---------- frames ----------

  lemma {:induction false} ChildIds(n: Node, i: nat, j: nat)
    requires n.Sequence? && i <= j < |n.children|
    ensures SeqIds(n.children[j]) <= SeqIdsFrom(n, i)
    decreases j - i
  {
    if i < j { ChildIds(n, i + 1, j); }
  }

  lemma IdleChildren(n: Node, p: Progress)
    requires n.Sequence? && Idle(n, p)
    ensures forall j :: 0 <= j < |n.children| ==> Idle(n.children[j], p)
  {
    forall j | 0 <= j < |n.children| ensures Idle(n.children[j], p) {
      ChildIds(n, 0, j);
    }
  }

  /** The progress agrees on the sequences of `n`. */
  ghost predicate SameInside(n: Node, p: Progress, q: Progress) {
    forall x :: x in SeqIds(n) ==> Selected(p, x) == Selected(q, x)
  }

  lemma {:induction false} AtFrame(n: Node, p: Progress, q: Progress, k: nat)
    requires At(n, p, k) && SameInside(n, p, q)
    ensures At(n, q, k)
    decreases n
  {
    if n.Sequence? {
      var i := Selected(p, n.id);
      forall j | 0 <= j < |n.children| ensures SameInside(n.children[j], p, q) {
        ChildIds(n, 0, j);
      }
      AtFrame(n.children[i], p, q, k - Offset(n, i));
    }
  }

  // ---------- lists of tasks ----------

  function Shift(o: ListOutcome, d: nat): ListOutcome {
    o.(next := match o.next case None => None case Some(j) => Some(j + d))
  }

  lemma {:induction false} RunListDrop(ts: seq<int>, d: nat, k: nat, w: World, calls: seq<int>, r: Status)
    requires d <= |ts|
    ensures RunList(ts, d + k, w, calls, r) == Shift(RunList(ts[d..], k, w, calls, r), d)
    decreases |ts| - k
  {
    if d + k < |ts| {
      assert ts[d..][k] == ts[d + k];
      RunListDrop(ts, d, k + 1, w, calls + [ts[d + k]], w.task(calls + [ts[d + k]]));
    }
  }

  /** Go on with the list `b` after an outcome `o` of the `d` tasks before it. */
  function Then(o: ListOutcome, b: seq<int>, d: nat, w: World): ListOutcome {
    if GoesOn(o.status) then Shift(RunList(b, 0, w, o.calls, o.status), d) else o
  }

  /** Running a list up to some point and then the rest. */
  lemma {:induction false} RunListSplit(a: seq<int>, b: seq<int>, k: nat, w: World, calls: seq<int>, r: Status)
    requires k <= |a| && GoesOn(r)
    ensures RunList(a + b, k, w, calls, r) == Then(RunList(a, k, w, calls, r), b, |a|, w)
    decreases |a| - k
  {
    if k == |a| {
      assert (a + b)[|a|..] == b;
      RunListDrop(a + b, |a|, 0, w, calls, r);
    } else {
      assert (a + b)[k] == a[k];
      var s := w.task(calls + [a[k]]);
      if GoesOn(s) { RunListSplit(a, b, k + 1, w, calls + [a[k]], s); }
    }
  }

  lemma {:induction false} RunListNext(ts: seq<int>, k: nat, w: World, calls: seq<int>, r: Status)
    requires GoesOn(r)
    ensures var o := RunList(ts, k, w, calls, r);
            && (o.next.Some? <==> o.status == RUNNING)
            && (o.next.Some? ==> k <= o.next.value < |ts|)
    decreases |ts| - k
  {
    if k < |ts| && GoesOn(w.task(calls + [ts[k]])) {
      RunListNext(ts, k + 1, w, calls + [ts[k]], w.task(calls + [ts[k]]));
    }
  }

  lemma {:induction false} TasksDrop(n: Node, i: nat)
    requires n.Sequence? && i <= |n.children|
    ensures Offset(n, i) <= |Tasks(n)| && Tasks(n)[Offset(n, i)..] == TasksFrom(n, i)
    decreases i
  {
    if i > 0 {
      TasksDrop(n, i - 1);
      var a, b := Tasks(n.children[i - 1]), TasksFrom(n, i);
      assert TasksFrom(n, i - 1) == a + b;
      assert (a + b)[|a|..] == b;
    }
  }

  // ---------- the simulation ----------

  /** The last thing the tree does is to execute a task: no trailing empty sequence. */
  predicate EndsInTask(n: Node) {
    n.Task? || (n.children != [] && EndsInTask(n.children[|n.children| - 1]))
  }

  /** What becomes of the status of the task list: a sequence that ends in an empty sequence
      answers FINISHED where its last task answered UNKNOWN. */
  function Answer(n: Node, s: Status): Status {
    if s == UNKNOWN && !EndsInTask(n) then FINISHED else s
  }

  /** The entity is to go on with task `k` of the tree, 0 if nothing is running. */
  ghost predicate Position(n: Node, p: Progress, k: nat) {
    (k == 0 && Idle(n, p)) || At(n, p, k)
  }

  ghost predicate AlwaysTrue(w: World, ids: set<int>) {
    forall x, calls :: x in ids ==> w.condition(x, calls)
  }

  /** Outcome `o` of the tree agrees with outcome `f` of its task list. */
  ghost predicate Agrees(n: Node, p: Progress, o: Outcome, f: ListOutcome) {
    && o.calls == f.calls
    && o.status == Answer(n, f.status)
    && SameOutside(n, p, o.progress)
    && match f.next
       case None => Idle(n, o.progress)
       case Some(j) => At(n, o.progress, j)
  }

  /** All children but number `i` are idle. */
  ghost predicate OthersIdle(n: Node, p: Progress, i: nat)
    requires n.Sequence?
  {
    forall j :: 0 <= j < |n.children| && j != i ==> Idle(n.children[j], p)
  }

  lemma {:induction false} AtInside(n: Node, p: Progress, k: nat)
    requires At(n, p, k)
    ensures k < |Tasks(n)|
    decreases n
  {
    if n.Sequence? {
      var i := Selected(p, n.id);
      AtInside(n.children[i], p, k - Offset(n, i));
      TasksDrop(n, i);
    }
  }

  /** Executing one child leaves the others idle, and only touches progress inside the tree. */
  lemma ChildFrame(n: Node, i: nat, p: Progress, q: Progress)
    requires n.Sequence? && i < |n.children| && Unique(n)
    requires OthersIdle(n, p, i) && SameOutside(n.children[i], p, q)
    ensures OthersIdle(n, q, i) && SameOutside(n, p, q)
  {
    ChildIds(n, 0, i);
    forall j | 0 <= j < |n.children| && j != i ensures Idle(n.children[j], q) {
      assert SeqIds(n.children[j]) !! SeqIds(n.children[i]);
    }
  }

  lemma StoreRunning(n: Node, i: nat, p: Progress, k: nat)
    requires n.Sequence? && i < |n.children| && Unique(n)
    requires OthersIdle(n, p, i) && At(n.children[i], p, k)
    ensures At(n, p[n.id := i], Offset(n, i) + k)
  {
    var q := p[n.id := i];
    AtFrame(n.children[i], p, q, k);
    forall j | 0 <= j < |n.children| && j != i ensures Idle(n.children[j], q) {
      assert n.id !in SeqIds(n.children[j]);
    }
  }

  /** A tree of sequences does what the list of its tasks does, from any position. */
  lemma {:induction false} ExecuteAgrees(n: Node, w: World, p: Progress, calls: seq<int>, r: Status, k: nat)
    requires Unique(n) && GoesOn(r) && Position(n, p, k)
    requires n.Sequence? ==> w.condition(n.id, calls) && AlwaysTrue(w, SeqIdsFrom(n, 0))
    ensures Agrees(n, p, Execute(n, w, p, calls), RunList(Tasks(n), k, w, calls, r))
    decreases n, 1, 0
  {
    if n.Sequence? {
      var i := Start(p, n.id);
      ChildrenPositions(n, p, k);
      var d := k - Offset(n, i);
      LoopAgrees(n, i, w, p, calls, FINISHED, r, d);
      TasksDrop(n, i);
      RunListDrop(Tasks(n), Offset(n, i), d, w, calls, r);
      RunListNext(TasksFrom(n, i), d, w, calls, r);
      RunListEmpty(n, i, d, w, calls, r);
      LeaveLoop(n, i, p, Loop(n, i, w, p, calls, FINISHED), RunList(TasksFrom(n, i), d, w, calls, r));
    }
  }

  lemma RunListEmpty(n: Node, i: nat, k: nat, w: World, calls: seq<int>, r: Status)
    requires n.Sequence? && i <= |n.children| && GoesOn(r)
    ensures i == |n.children| ==> RunList(TasksFrom(n, i), k, w, calls, r).status == r
  {
  }

  /** The end of Sequence::execute: unless a child is running, everything is reset. */
  lemma LeaveLoop(n: Node, i: nat, p: Progress, o: Outcome, f: ListOutcome)
    requires n.Sequence? && i <= |n.children| && LoopMatches(n, i, p, o, FINISHED, f)
    requires i == |n.children| ==> n.children == [] && GoesOn(f.status)
    requires f.next.Some? <==> f.status == RUNNING
    ensures var left := if o.status == RUNNING then o else o.(progress := ResetState(n, o.progress));
            Agrees(n, p, left, Shift(f, Offset(n, i)))
  {
    ResetIdle(n, o.progress);
  }

  lemma ChildrenPositions(n: Node, p: Progress, k: nat)
    requires n.Sequence? && Position(n, p, k)
    ensures var i := Start(p, n.id);
            && i <= |n.children| && Offset(n, i) <= k && OthersIdle(n, p, i)
            && (if i < |n.children| then Position(n.children[i], p, k - Offset(n, i)) else k == Offset(n, i))
  {
    if k == 0 && Idle(n, p) {
      IdleChildren(n, p);
    }
  }

  lemma {:induction false} LoopAgrees(n: Node, i: nat, w: World, p: Progress, calls: seq<int>,
                                      result: Status, r: Status, k: nat)
    requires n.Sequence? && i <= |n.children| && Unique(n) && AlwaysTrue(w, SeqIdsFrom(n, 0))
    requires GoesOn(result) && GoesOn(r) && OthersIdle(n, p, i)
    requires if i < |n.children| then Position(n.children[i], p, k) else k == 0
    ensures LoopMatches(n, i, p, Loop(n, i, w, p, calls, result), result, RunList(TasksFrom(n, i), k, w, calls, r))
    decreases n, 0, |n.children| - i
  {
    if i < |n.children| {
      var c := n.children[i];
      ChildConditions(n, i, w);
      ExecuteAgrees(c, w, p, calls, r, k);
      var o, f := Execute(c, w, p, calls), RunList(Tasks(c), k, w, calls, r);
      FirstChild(n, i, w, p, calls, r, k);
      if GoesOn(f.status) {
        ChildDone(n, i, p, o, f);
        LoopAgrees(n, i + 1, w, o.progress, o.calls, o.status, f.status, 0);
        NextChildren(n, i, p, o, f, Loop(n, i + 1, w, o.progress, o.calls, o.status),
                     RunList(TasksFrom(n, i + 1), 0, w, f.calls, f.status));
      } else {
        ChildStops(n, i, p, o, f, result);
      }
    }
  }

  lemma ChildConditions(n: Node, i: nat, w: World)
    requires n.Sequence? && i < |n.children| && AlwaysTrue(w, SeqIdsFrom(n, 0))
    ensures var c := n.children[i];
            c.Sequence? ==> AlwaysTrue(w, {c.id}) && AlwaysTrue(w, SeqIdsFrom(c, 0))
  {
    ChildIds(n, 0, i);
  }

  /** The run of the task list begins with the tasks of the child. */
  lemma FirstChild(n: Node, i: nat, w: World, p: Progress, calls: seq<int>, r: Status, k: nat)
    requires n.Sequence? && i < |n.children| && Position(n.children[i], p, k) && GoesOn(r)
    ensures var c := n.children[i]; var f := RunList(Tasks(c), k, w, calls, r);
      && RunList(TasksFrom(n, i), k, w, calls, r) == Then(f, TasksFrom(n, i + 1), |Tasks(c)|, w)
      && (f.next.Some? <==> f.status == RUNNING)
  {
    var c := n.children[i];
    if At(c, p, k) { AtInside(c, p, k); }
    RunListSplit(Tasks(c), TasksFrom(n, i + 1), k, w, calls, r);
    RunListNext(Tasks(c), k, w, calls, r);
  }

  /** One turn of the loop when the child lets the sequence go on. */
  lemma ChildDone(n: Node, i: nat, p: Progress, o: Outcome, f: ListOutcome)
    requires n.Sequence? && i < |n.children| && Unique(n) && OthersIdle(n, p, i)
    requires Agrees(n.children[i], p, o, f) && GoesOn(f.status) && f.next.None?
    ensures GoesOn(o.status) && OthersIdle(n, o.progress, i + 1) && SameOutside(n, p, o.progress)
    ensures i + 1 < |n.children| ==> Position(n.children[i + 1], o.progress, 0)
  {
    ChildFrame(n, i, p, o.progress);
  }

  lemma NextChildren(n: Node, i: nat, p: Progress, o: Outcome, f: ListOutcome, rest: Outcome, restList: ListOutcome)
    requires n.Sequence? && i < |n.children|
    requires Agrees(n.children[i], p, o, f) && SameOutside(n, p, o.progress)
    requires LoopMatches(n, i + 1, o.progress, rest, o.status, restList)
    requires i + 1 == |n.children| ==> restList.status == f.status
    ensures forall result :: LoopMatches(n, i, p, rest, result, Shift(restList, |Tasks(n.children[i])|))
  {
  }

  /** One turn of the loop when the child is running, failed, or could not execute. */
  lemma ChildStops(n: Node, i: nat, p: Progress, o: Outcome, f: ListOutcome, result: Status)
    requires n.Sequence? && i < |n.children| && Unique(n) && OthersIdle(n, p, i)
    requires Agrees(n.children[i], p, o, f) && !GoesOn(f.status)
    requires f.next.Some? <==> f.status == RUNNING
    ensures LoopMatches(n, i, p, Stop(n, i, o), result, f)
  {
    ChildFrame(n, i, p, o.progress);
    if f.status == RUNNING {
      StoreRunning(n, i, o.progress, f.next.value);
    } else {
      ResetIdle(n, o.progress);
    }
  }

  ghost predicate LoopMatches(n: Node, i: nat, p: Progress, o: Outcome, result: Status, f: ListOutcome)
    requires n.Sequence? && i <= |n.children|
  {
    && o.calls == f.calls
    && o.status == (if i == |n.children| then result else Answer(n, f.status))
    && SameOutside(n, p, o.progress)
    && (f.next.Some? ==> At(n, o.progress, Offset(n, i) + f.next.value))
  }

  // ---------- the active path ----------

  /** The sequences around task `k` of a tree. */
  function Around(n: Node, k: nat): set<int>
    decreases n, 1, 0
  {
    match n
    case Task(_) => {}
    case Sequence(id, _) => {id} + AroundFrom(n, 0, k)
  }

  function AroundFrom(n: Node, i: nat, k: nat): set<int>
    requires n.Sequence? && i <= |n.children|
    decreases n, 0, |n.children| - i
  {
    if i == |n.children| then {}
    else if k < |Tasks(n.children[i])| then Around(n.children[i], k)
    else AroundFrom(n, i + 1, k - |Tasks(n.children[i])|)
  }

  lemma {:induction false} AroundOffset(n: Node, i: nat, k: nat)
    requires n.Sequence? && i <= |n.children| && Offset(n, i) <= k
    ensures AroundFrom(n, 0, k) == AroundFrom(n, i, k - Offset(n, i))
    decreases i
  {
    if i > 0 { AroundOffset(n, i - 1, k); }
  }

  lemma {:induction false} IdOfChild(n: Node, i: nat, x: int) returns (j: nat)
    requires n.Sequence? && i <= |n.children| && x in SeqIdsFrom(n, i)
    ensures j < |n.children| && x in SeqIds(n.children[j])
    decreases |n.children| - i
  {
    if x in SeqIds(n.children[i]) { j := i; } else { j := IdOfChild(n, i + 1, x); }
  }

  /** While task `k` is running, exactly the sequences around it have stored progress. */
  lemma {:induction false} ProgressOnPath(n: Node, p: Progress, k: nat, x: int)
    requires At(n, p, k) && Unique(n)
    ensures Around(n, k) <= SeqIds(n)
    ensures x in SeqIds(n) ==> (Selected(p, x) >= 0 <==> x in Around(n, k))
    decreases n
  {
    if n.Sequence? {
      var i := Selected(p, n.id);
      var c, d := n.children[i], k - Offset(n, i);
      AroundOffset(n, i, k);
      AtInside(c, p, d);
      assert Around(n, k) == {n.id} + Around(c, d);
      ProgressOnPath(c, p, d, x);
      ChildIds(n, 0, i);
      if x in SeqIds(n) && x != n.id {
        var j := IdOfChild(n, 0, x);
        assert j != i ==> SeqIds(n.children[i]) !! SeqIds(n.children[j]);
      }
    }
  }

  // ---------- runs of ticks ----------

  /** One sequence over all tasks of the tree, under the same id and condition. */
  function Flatten(n: Node): (f: Node)
    requires n.Sequence?
  {
    Sequence(n.id, seq(|Tasks(n)|, i requires 0 <= i < |Tasks(n)| => Task(Tasks(n)[i])))
  }

  lemma {:induction false} FlattenFrom(n: Node, i: nat)
    requires n.Sequence? && i <= |Tasks(n)|
    ensures TasksFrom(Flatten(n), i) == Tasks(n)[i..] && SeqIdsFrom(Flatten(n), i) == {}
    decreases |Tasks(n)| - i
  {
    if i < |Tasks(n)| { FlattenFrom(n, i + 1); }
  }

  lemma FlattenFacts(n: Node)
    requires n.Sequence?
    ensures Tasks(Flatten(n)) == Tasks(n) && SeqIdsFrom(Flatten(n), 0) == {} && Unique(Flatten(n))
    ensures EndsInTask(Flatten(n)) <==> Tasks(n) != []
  {
    FlattenFrom(n, 0);
  }

  /** What a run of ticks shows: the statuses the tree returned, all task calls, and the progress
      left behind. */
  datatype Run = Run(statuses: seq<Status>, calls: seq<int>, progress: Progress)

  /** Execute the tree once per tick; `ws[t]` is the outside world during tick `t`. */
  function Ticks(n: Node, ws: seq<World>, p: Progress, calls: seq<int>): Run
    decreases |ws|
  {
    if ws == [] then Run([], calls, p)
    else
      var o := Execute(n, ws[0], p, calls);
      var rest := Ticks(n, ws[1..], o.progress, o.calls);
      rest.(statuses := [o.status] + rest.statuses)
  }

  /** Inner sequences are never held back by their condition; the root may be. */
  ghost predicate InnerTrue(n: Node, ws: seq<World>)
    requires n.Sequence?
  {
    forall t :: 0 <= t < |ws| ==> AlwaysTrue(ws[t], SeqIdsFrom(n, 0))
  }

  ghost predicate NeverUnknown(ws: seq<World>) {
    forall t :: 0 <= t < |ws| ==> forall calls :: ws[t].task(calls) != UNKNOWN
  }

  function Answers(n: Node, statuses: seq<Status>): (r: seq<Status>) {
    seq(|statuses|, t requires 0 <= t < |statuses| => Answer(n, statuses[t]))
  }

  /** One tick: the tree and its flattening start at the same task and end at the same task. */
  lemma TickAgrees(n: Node, w: World, p: Progress, q: Progress, calls: seq<int>, k: nat) returns (j: nat)
    requires n.Sequence? && Unique(n) && AlwaysTrue(w, SeqIdsFrom(n, 0))
    requires Position(n, p, k) && Position(Flatten(n), q, k)
    ensures var o, f := Execute(n, w, p, calls), Execute(Flatten(n), w, q, calls);
            && o.calls == f.calls && o.status == Answer(n, f.status)
            && Position(n, o.progress, j) && Position(Flatten(n), f.progress, j)
            && ((forall c :: w.task(c) != UNKNOWN) ==> f.status != UNKNOWN)
  {
    FlattenFacts(n);
    if w.condition(n.id, calls) {
      ExecuteAgrees(n, w, p, calls, FINISHED, k);
      ExecuteAgrees(Flatten(n), w, q, calls, FINISHED, k);
      RunListNext(Tasks(n), k, w, calls, FINISHED);
      RunListKnown(Tasks(n), k, w, calls, FINISHED);
      var f := RunList(Tasks(n), k, w, calls, FINISHED);
      j := if f.next.Some? then f.next.value else 0;
    } else {
      j := k;
    }
  }

  lemma {:induction false} RunListKnown(ts: seq<int>, k: nat, w: World, calls: seq<int>, r: Status)
    requires r != UNKNOWN
    ensures (forall c :: w.task(c) != UNKNOWN) ==> RunList(ts, k, w, calls, r).status != UNKNOWN
    ensures k == |ts| ==> RunList(ts, k, w, calls, r).status == r
    decreases |ts| - k
  {
    if k < |ts| {
      var s := w.task(calls + [ts[k]]);
      if s != UNKNOWN { RunListKnown(ts, k + 1, w, calls + [ts[k]], s); }
    }
  }

  /** Any run of ticks of a tree of sequences calls the same tasks in the same order as one
      sequence over the flattened task list, and returns the same statuses up to UNKNOWN. */
  lemma {:induction false} FlatteningRefined(n: Node, ws: seq<World>, p: Progress, q: Progress, calls: seq<int>, k: nat)
    returns (j: nat)
    requires n.Sequence? && Unique(n) && InnerTrue(n, ws)
    requires Position(n, p, k) && Position(Flatten(n), q, k)
    ensures RunAgrees(n, Ticks(n, ws, p, calls), Ticks(Flatten(n), ws, q, calls), j)
    ensures NeverUnknown(ws) ==> UNKNOWN !in Ticks(Flatten(n), ws, q, calls).statuses
    decreases |ws|
  {
    if ws == [] {
      j := k;
    } else {
      j := TickAgrees(n, ws[0], p, q, calls, k);
      var o, f := Execute(n, ws[0], p, calls), Execute(Flatten(n), ws[0], q, calls);
      j := FlatteningRefined(n, ws[1..], o.progress, f.progress, o.calls, j);
      var run, flat := Ticks(n, ws[1..], o.progress, o.calls), Ticks(Flatten(n), ws[1..], f.progress, o.calls);
      RunAgreesAhead(n, run, flat, j, o.status, f.status);
    }
  }

  /** Same calls, statuses that match, same task to go on with. */
  ghost predicate RunAgrees(n: Node, run: Run, flat: Run, j: nat)
    requires n.Sequence?
  {
    && run.calls == flat.calls
    && run.statuses == Answers(n, flat.statuses)
    && Position(n, run.progress, j) && Position(Flatten(n), flat.progress, j)
  }

  lemma RunAgreesAhead(n: Node, run: Run, flat: Run, j: nat, s: Status, t: Status)
    requires n.Sequence? && RunAgrees(n, run, flat, j) && s == Answer(n, t)
    ensures RunAgrees(n, run.(statuses := [s] + run.statuses), flat.(statuses := [t] + flat.statuses), j)
  {
  }

  /** From the start, for tasks that never return UNKNOWN: the same calls and the same statuses. */
  lemma FlatteningExact(n: Node, ws: seq<World>)
    requires n.Sequence? && Unique(n) && InnerTrue(n, ws)
    requires NeverUnknown(ws) || EndsInTask(n) || Tasks(n) == []
    ensures Ticks(n, ws, map[], []).calls == Ticks(Flatten(n), ws, map[], []).calls
    ensures Ticks(n, ws, map[], []).statuses == Ticks(Flatten(n), ws, map[], []).statuses
  {
    var _ := FlatteningRefined(n, ws, map[], map[], [], 0);
    if Tasks(n) == [] { FlatStatuses(n, ws, map[], []); }
  }

  /** With no tasks at all the flat sequence never returns UNKNOWN. */
  lemma {:induction false} FlatStatuses(n: Node, ws: seq<World>, q: Progress, calls: seq<int>)
    requires n.Sequence? && Tasks(n) == []
    ensures UNKNOWN !in Ticks(Flatten(n), ws, q, calls).statuses
    decreases |ws|
  {
    if ws != [] {
      var o := Execute(Flatten(n), ws[0], q, calls);
      FlatStatuses(n, ws[1..], o.progress, o.calls);
      assert Flatten(n).children == [];
      assert Loop(Flatten(n), Start(q, n.id), ws[0], q, calls, FINISHED).status == FINISHED;
    }
  }

  /** The statuses agree in every run exactly when the tree ends in a task or has none. */
  lemma StatusesAgreeIff(n: Node)
    requires n.Sequence? && Unique(n)
    ensures (forall ws :: InnerTrue(n, ws) ==>
               Ticks(n, ws, map[], []).statuses == Ticks(Flatten(n), ws, map[], []).statuses)
       <==> EndsInTask(n) || Tasks(n) == []
  {
    if EndsInTask(n) || Tasks(n) == [] {
      forall ws | InnerTrue(n, ws)
        ensures Ticks(n, ws, map[], []).statuses == Ticks(Flatten(n), ws, map[], []).statuses {
        FlatteningExact(n, ws);
      }
    } else {
      var w := StatusesDiffer(n);
      assert InnerTrue(n, [w]);
    }
  }

  /** Tasks that all answer UNKNOWN tell the trees apart. */
  lemma StatusesDiffer(n: Node) returns (w: World)
    requires n.Sequence? && Unique(n) && !EndsInTask(n) && Tasks(n) != []
    ensures InnerTrue(n, [w])
    ensures Ticks(n, [w], map[], []).statuses != Ticks(Flatten(n), [w], map[], []).statuses
  {
    w := World(_ => UNKNOWN, (_, _) => true);
    FlattenFacts(n);
    ExecuteAgrees(n, w, map[], [], FINISHED, 0);
    ExecuteAgrees(Flatten(n), w, map[], [], FINISHED, 0);
    AllUnknown(Tasks(n), 0, w, [], FINISHED);
    assert Ticks(n, [w], map[], []).statuses[0] == FINISHED;
    assert Ticks(Flatten(n), [w], map[], []).statuses[0] == UNKNOWN;
  }

  lemma {:induction false} AllUnknown(ts: seq<int>, k: nat, w: World, calls: seq<int>, r: Status)
    requires k <= |ts| && forall c :: w.task(c) == UNKNOWN
    ensures RunList(ts, k, w, calls, r).status == if k < |ts| then UNKNOWN else r
    decreases |ts| - k
  {
    if k < |ts| { AllUnknown(ts, k + 1, w, calls + [ts[k]], UNKNOWN); }
  }

  // ---------- the code, on an entity that is updated in place ----------

  /** An AI with its selector states; `calls` records the tasks executed so far. */
  class Entity {
    var selectorStates: Progress
    var calls: seq<int>

    constructor ()
      ensures selectorStates == map[] && calls == []
    {
      selectorStates, calls := map[], [];
    }

    method GetSelectorState(id: int) returns (selected: int)
      ensures selected == Selected(selectorStates, id)
    {
      if id !in selectorStates { return AI_NOTHING_SELECTED; }
      return selectorStates[id];
    }

    method SetSelectorState(id: int, selected: int)
      modifies this`selectorStates
      ensures selectorStates == old(selectorStates)[id := selected]
    {
      selectorStates := selectorStates[id := selected];
    }

    method ResetNode(n: Node)
      modifies this`selectorStates
      ensures selectorStates == ResetState(n, old(selectorStates))
      decreases n
    {
      if n.Sequence? {
        SetSelectorState(n.id, AI_NOTHING_SELECTED);
        ghost var start := selectorStates;
        for i := 0 to |n.children|
          invariant ResetFrom(n, i, selectorStates) == ResetFrom(n, 0, start)
        {
          ResetNode(n.children[i]);
        }
      }
    }

    method ExecuteTask(id: int, w: World) returns (status: Status)
      modifies this`calls
      ensures calls == old(calls) + [id] && status == w.task(calls)
    {
      calls := calls + [id];
      status := w.task(calls);
    }

    method ExecuteNode(n: Node, w: World) returns (status: Status)
      modifies this
      ensures Outcome(status, selectorStates, calls) == Execute(n, w, old(selectorStates), old(calls))
      ensures n.Task? ==>
                selectorStates == old(selectorStates) && calls == old(calls) + [n.id] && status == w.task(calls)
      ensures n.Sequence? && !w.condition(n.id, old(calls)) ==>
                status == CANNOTEXECUTE && selectorStates == old(selectorStates) && calls == old(calls)
      decreases n, 1
    {
      if n.Task? {
        status := ExecuteTask(n.id, w);
      } else {
        status := ExecuteSequence(n, w);
      }
    }

    method ExecuteSequence(n: Node, w: World) returns (result: Status)
      requires n.Sequence?
      modifies this
      ensures Outcome(result, selectorStates, calls) == Execute(n, w, old(selectorStates), old(calls))
      ensures !w.condition(n.id, old(calls)) ==>
                result == CANNOTEXECUTE && selectorStates == old(selectorStates) && calls == old(calls)
      decreases n, 0
    {
      if !w.condition(n.id, calls) { return CANNOTEXECUTE; }
      result := FINISHED;
      var selected := GetSelectorState(n.id);
      var i: nat := if selected < 0 then 0 else selected;
      ghost var all := Loop(n, i, w, selectorStates, calls, FINISHED);
      while i < |n.children|
        invariant Loop(n, i, w, selectorStates, calls, result) == all
        decreases |n.children| - i
      {
        result := ExecuteNode(n.children[i], w);
        ghost var o := Outcome(result, selectorStates, calls);
        if result == RUNNING {
          SetSelectorState(n.id, i);
          assert Outcome(result, selectorStates, calls) == Stop(n, i, o);
          break;
        } else if result == CANNOTEXECUTE || result == FAILED {
          ResetNode(n);
          assert Outcome(result, selectorStates, calls) == Stop(n, i, o);
          break;
        } else if result == EXCEPTION {
          break;
        }
        i := i + 1;
      }
      assert Outcome(result, selectorStates, calls) == all;
      if result != RUNNING {
        ResetNode(n);
      }
    }
  }
}
