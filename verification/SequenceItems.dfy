/** What a tree of sequences does in any world, whichever conditions hold: it goes through one list of
    conditions to check and tasks to call, stops where something does not go on, and resumes with the
    running task behind the conditions of the sequences around it (Sequence.h, TreeNodeImpl.h). */
module SequenceItems {
  import opened Wrappers
  import opened SequenceTree

  datatype Item = Check(id: int) | Call(id: int)

  /** All the tree has to do, from the start. */
  function Items(n: Node): seq<Item>
    decreases n, 1, 0
  {
    match n
    case Task(id) => [Call(id)]
    case Sequence(id, _) => [Check(id)] + ItemsFrom(n, 0)
  }

  function ItemsFrom(n: Node, i: nat): seq<Item>
    requires n.Sequence? && i <= |n.children|
    decreases n, 0, |n.children| - i
  {
    if i == |n.children| then [] else Items(n.children[i]) + ItemsFrom(n, i + 1)
  }

  /** What is left to do when task number `k` is running: the conditions around it, the task itself, and
      all that comes after it. */
  function ItemsAt(n: Node, k: nat): seq<Item>
    requires k < |Tasks(n)|
    decreases n, 1, 0
  {
    match n
    case Task(id) => [Call(id)]
    case Sequence(id, _) => [Check(id)] + ItemsAtFrom(n, 0, k)
  }

  function ItemsAtFrom(n: Node, i: nat, k: nat): seq<Item>
    requires n.Sequence? && i <= |n.children| && k < |TasksFrom(n, i)|
    decreases n, 0, |n.children| - i
  {
    if k < |Tasks(n.children[i])| then ItemsAt(n.children[i], k) + ItemsFrom(n, i + 1)
    else ItemsAtFrom(n, i + 1, k - |Tasks(n.children[i])|)
  }

  /** Where an entity is in the tree: nowhere, or at a running task. */
  ghost predicate Where(n: Node, p: Progress, pos: Option<nat>) {
    match pos
    case None => Idle(n, p)
    case Some(k) => At(n, p, k)
  }

  predicate Inside(n: Node, pos: Option<nat>) {
    pos.Some? ==> pos.value < |Tasks(n)|
  }

  function ItemsLeft(n: Node, pos: Option<nat>): seq<Item>
    requires Inside(n, pos)
  {
    match pos case None => Items(n) case Some(k) => ItemsAt(n, k)
  }

  function First(pos: Option<nat>): nat {
    match pos case None => 0 case Some(k) => k
  }

  datatype Done = Done(status: Status, calls: seq<int>)

  /** Go through the items.  A condition that fails gives CANNOTEXECUTE, one that holds FINISHED; a task
      gives what it returns.  Only FINISHED and UNKNOWN go on. */
  function RunItems(items: seq<Item>, w: World, calls: seq<int>, result: Status): Done {
    if items == [] then Done(result, calls)
    else
      match items[0]
      case Check(id) =>
        if w.condition(id, calls) then RunItems(items[1..], w, calls, FINISHED) else Done(CANNOTEXECUTE, calls)
      case Call(id) =>
        match w.task(calls + [id])
        case FINISHED => RunItems(items[1..], w, calls + [id], FINISHED)
        case UNKNOWN => RunItems(items[1..], w, calls + [id], UNKNOWN)
        case s => Done(s, calls + [id])
  }

  lemma {:induction false} RunItemsCalls(items: seq<Item>, w: World, calls: seq<int>, result: Status)
    ensures |RunItems(items, w, calls, result).calls| >= |calls|
  {
    if items != [] {
      match items[0]
      case Check(id) => RunItemsCalls(items[1..], w, calls, FINISHED);
      case Call(id) => RunItemsCalls(items[1..], w, calls + [id], w.task(calls + [id]));
    }
  }

  lemma {:induction false} RunItemsSplit(a: seq<Item>, b: seq<Item>, w: World, calls: seq<int>, result: Status)
    requires GoesOn(result)
    ensures var f := RunItems(a, w, calls, result);
            RunItems(a + b, w, calls, result) == if GoesOn(f.status) then RunItems(b, w, f.calls, f.status) else f
  {
    if a == [] {
      assert a + b == b;
    } else {
      assert (a + b)[1..] == a[1..] + b;
      match a[0]
      case Check(id) => RunItemsSplit(a[1..], b, w, calls, FINISHED);
      case Call(id) =>
        var s := w.task(calls + [id]);
        if GoesOn(s) { RunItemsSplit(a[1..], b, w, calls + [id], s); }
    }
  }

  /** The items left in the children from `i` on, when `pos` says how far child `i` got. */
  function LoopItems(n: Node, i: nat, pos: Option<nat>): seq<Item>
    requires n.Sequence? && i <= |n.children| && (i < |n.children| ==> Inside(n.children[i], pos))
  {
    if i == |n.children| then [] else ItemsLeft(n.children[i], pos) + ItemsFrom(n, i + 1)
  }

  lemma {:induction false} ItemsAtOffset(n: Node, i: nat, k: nat)
    requires n.Sequence? && i < |n.children| && k < |Tasks(n.children[i])|
    ensures Offset(n, i) + k < |Tasks(n)|
    ensures ItemsAtFrom(n, 0, Offset(n, i) + k) == ItemsAt(n.children[i], k) + ItemsFrom(n, i + 1)
  {
    TasksDrop(n, i);
    assert |TasksFrom(n, i)| >= |Tasks(n.children[i])|;
    ItemsAtSkip(n, i, k);
  }

  lemma {:induction false} ItemsAtSkip(n: Node, i: nat, k: nat)
    requires n.Sequence? && i <= |n.children| && k < |TasksFrom(n, i)|
    ensures Offset(n, i) + k < |Tasks(n)| && ItemsAtFrom(n, 0, Offset(n, i) + k) == ItemsAtFrom(n, i, k)
    decreases i
  {
    TasksDrop(n, i);
    if i > 0 { ItemsAtSkip(n, i - 1, |Tasks(n.children[i - 1])| + k); }
  }

  /** Outcome `o` of the node is outcome `f` of its items: the same status, the same tasks called, and the
      entity is at the task that was called last if that one is running, and nowhere otherwise. */
  ghost predicate Exactly(n: Node, p: Progress, first: nat, calls: seq<int>, o: Outcome, f: Done) {
    && o.status == f.status && o.calls == f.calls && SameOutside(n, p, o.progress)
    && (f.status == RUNNING ==> first + |f.calls| > |calls| && At(n, o.progress, first + |f.calls| - |calls| - 1))
    && (f.status != RUNNING ==> Idle(n, o.progress))
    && (GoesOn(f.status) ==> first + |f.calls| - |calls| == |Tasks(n)|)
  }

  /** One execution of a tree, in any world and from any position, goes through exactly the items that are
      left, unless its own condition fails: then it changes nothing. */
  lemma {:induction false} ExecuteExact(n: Node, w: World, p: Progress, calls: seq<int>, pos: Option<nat>)
    requires Unique(n) && Where(n, p, pos)
    ensures Inside(n, pos)
    ensures n.Sequence? && !w.condition(n.id, calls) ==> Execute(n, w, p, calls) == Outcome(CANNOTEXECUTE, p, calls)
    ensures n.Sequence? && !w.condition(n.id, calls) ==>
              RunItems(ItemsLeft(n, pos), w, calls, FINISHED) == Done(CANNOTEXECUTE, calls)
    ensures n.Task? || w.condition(n.id, calls) ==>
              Exactly(n, p, First(pos), calls, Execute(n, w, p, calls), RunItems(ItemsLeft(n, pos), w, calls, FINISHED))
    decreases n, 1, 0
  {
    PositionInside(n, p, pos);
    match n
    case Task(id) =>
      assert ItemsLeft(n, pos) == [Call(id)] && ItemsLeft(n, pos)[1..] == [];
    case Sequence(id, children) =>
      var i, inner := ChildPosition(n, p, pos);
      assert ItemsLeft(n, pos)[1..] == LoopItems(n, i, inner);
      if w.condition(id, calls) {
        LoopExact(n, i, w, p, calls, FINISHED, inner);
        LoopLeaves(n, i, w, p, calls, pos, inner);
      }
  }

  /** The end of Sequence::execute: unless a child is running, everything is reset. */
  lemma LoopLeaves(n: Node, i: nat, w: World, p: Progress, calls: seq<int>, pos: Option<nat>, inner: Option<nat>)
    requires n.Sequence? && Inside(n, pos) && w.condition(n.id, calls) && i == Start(p, n.id) && i <= |n.children|
    requires i < |n.children| ==> Inside(n.children[i], inner)
    requires First(pos) == Offset(n, i) + First(inner) && ItemsLeft(n, pos) == [Check(n.id)] + LoopItems(n, i, inner)
    requires LoopGoesThrough(n, i, w, p, calls, FINISHED, inner)
    ensures Exactly(n, p, First(pos), calls, Execute(n, w, p, calls),
                    RunItems(ItemsLeft(n, pos), w, calls, FINISHED))
  {
    assert ItemsLeft(n, pos)[1..] == LoopItems(n, i, inner);
    ResetIdle(n, Loop(n, i, w, p, calls, FINISHED).progress);
  }

  lemma PositionInside(n: Node, p: Progress, pos: Option<nat>)
    requires Where(n, p, pos)
    ensures Inside(n, pos)
  {
    match pos
    case None =>
    case Some(k) => AtInside(n, p, k);
  }

  /** A sequence goes on with the child that has the running task, and with its position in that child. */
  lemma ChildPosition(n: Node, p: Progress, pos: Option<nat>) returns (i: nat, inner: Option<nat>)
    requires n.Sequence? && Where(n, p, pos) && Inside(n, pos)
    ensures i == Start(p, n.id) && i <= |n.children| && OthersIdle(n, p, i)
    ensures i < |n.children| ==> Where(n.children[i], p, inner) && Inside(n.children[i], inner)
    ensures i == |n.children| ==> i == 0 && inner == None
    ensures First(pos) == Offset(n, i) + First(inner)
    ensures ItemsLeft(n, pos) == [Check(n.id)] + LoopItems(n, i, inner)
  {
    match pos
    case None =>
      IdleChildren(n, p);
      i, inner := 0, None;
      NextItems(n, 0);
    case Some(k) =>
      i := Selected(p, n.id);
      inner := Some(k - Offset(n, i));
      assert k == Offset(n, i) + inner.value;
      AtInside(n.children[i], p, inner.value);
      ItemsAtOffset(n, i, inner.value);
      assert ItemsLeft(n, pos) == [Check(n.id)] + ItemsAtFrom(n, 0, k);
      assert LoopItems(n, i, inner) == ItemsAt(n.children[i], inner.value) + ItemsFrom(n, i + 1);
  }

  /** The loop of a sequence goes through the items of its children. */
  ghost predicate LoopExactly(n: Node, p: Progress, first: nat, calls: seq<int>, o: Outcome, f: Done) {
    && o.status == f.status && o.calls == f.calls && SameOutside(n, p, o.progress)
    && (f.status == RUNNING ==> first + |f.calls| > |calls| && At(n, o.progress, first + |f.calls| - |calls| - 1))
    && (GoesOn(f.status) ==> first + |f.calls| - |calls| == |Tasks(n)|)
  }

  ghost predicate LoopGoesThrough(n: Node, i: nat, w: World, p: Progress, calls: seq<int>, result: Status,
                                  pos: Option<nat>)
    requires n.Sequence? && i <= |n.children| && (i < |n.children| ==> Inside(n.children[i], pos))
  {
    var o, f := Loop(n, i, w, p, calls, result), RunItems(LoopItems(n, i, pos), w, calls, result);
    LoopExactly(n, p, Offset(n, i) + First(pos), calls, o, f)
  }

  lemma {:induction false} LoopExact(n: Node, i: nat, w: World, p: Progress, calls: seq<int>, result: Status,
                                     pos: Option<nat>)
    requires n.Sequence? && i <= |n.children| && Unique(n) && GoesOn(result) && OthersIdle(n, p, i)
    requires if i < |n.children| then Where(n.children[i], p, pos) && Inside(n.children[i], pos) else pos == None
    ensures LoopGoesThrough(n, i, w, p, calls, result, pos)
    decreases n, 0, |n.children| - i, 1
  {
    if i == |n.children| {
      LoopOver(n, p, calls, result);
    } else {
      var o := Execute(n.children[i], w, p, calls);
      ChildExact(n, i, w, p, calls, pos);
      if GoesOn(o.status) {
        LoopExact(n, i + 1, w, o.progress, o.calls, o.status, None);
        LoopGoesOn(n, i, w, p, calls, result, pos);
      } else {
        LoopIsLeft(n, i, w, p, calls, result, pos);
      }
    }
  }

  /** The child was done, and the loop goes on behind it. */
  lemma LoopGoesOn(n: Node, i: nat, w: World, p: Progress, calls: seq<int>, result: Status, pos: Option<nat>)
    requires n.Sequence? && i < |n.children| && Inside(n.children[i], pos) && GoesOn(result)
    requires ChildGoesThrough(n, i, w, p, calls, pos)
    requires var o := Execute(n.children[i], w, p, calls);
      GoesOn(o.status) && LoopGoesThrough(n, i + 1, w, o.progress, o.calls, o.status, None)
    ensures LoopGoesThrough(n, i, w, p, calls, result, pos)
  {
    var o := Execute(n.children[i], w, p, calls);
    FirstItems(n, i, w, calls, result, pos);
    RunItemsCalls(LoopItems(n, i + 1, None), w, o.calls, o.status);
    LoopAhead(n, i, p, First(pos), calls, o, Loop(n, i + 1, w, o.progress, o.calls, o.status),
              RunItems(LoopItems(n, i + 1, None), w, o.calls, o.status));
  }

  /** The loop is left because of a child that is running or could not go on. */
  lemma LoopIsLeft(n: Node, i: nat, w: World, p: Progress, calls: seq<int>, result: Status, pos: Option<nat>)
    requires n.Sequence? && i < |n.children| && Unique(n) && Inside(n.children[i], pos) && GoesOn(result)
    requires ChildGoesThrough(n, i, w, p, calls, pos) && !GoesOn(Execute(n.children[i], w, p, calls).status)
    ensures LoopGoesThrough(n, i, w, p, calls, result, pos)
  {
    var c := n.children[i];
    var o, f := Execute(c, w, p, calls), RunItems(ItemsLeft(c, pos), w, calls, FINISHED);
    assert o.status == RUNNING ==> Exactly(c, p, First(pos), calls, o, f);
    FirstItems(n, i, w, calls, result, pos);
    LoopStops(n, i, p, First(pos), calls, o, f);
    assert Loop(n, i, w, p, calls, result) == Stop(n, i, o);
  }

  /** The items of the child come first, whatever the result so far. */
  lemma FirstItems(n: Node, i: nat, w: World, calls: seq<int>, result: Status, pos: Option<nat>)
    requires n.Sequence? && i < |n.children| && Inside(n.children[i], pos) && GoesOn(result)
    ensures var f := RunItems(ItemsLeft(n.children[i], pos), w, calls, FINISHED);
      RunItems(LoopItems(n, i, pos), w, calls, result) ==
      if GoesOn(f.status) then RunItems(LoopItems(n, i + 1, None), w, f.calls, f.status) else f
  {
    SameFirst(n.children[i], pos, w, calls, result);
    RunItemsSplit(ItemsLeft(n.children[i], pos), ItemsFrom(n, i + 1), w, calls, result);
    NextItems(n, i + 1);
  }

  lemma LoopOver(n: Node, p: Progress, calls: seq<int>, result: Status)
    requires n.Sequence? && GoesOn(result)
    ensures LoopExactly(n, p, Offset(n, |n.children|), calls, Outcome(result, p, calls), Done(result, calls))
  {
    TasksDrop(n, |n.children|);
  }

  lemma NextItems(n: Node, i: nat)
    requires n.Sequence? && i <= |n.children|
    ensures LoopItems(n, i, None) == ItemsFrom(n, i)
  {
  }

  /** What the loop of a sequence has to know of one child. */
  ghost predicate ChildGoesThrough(n: Node, i: nat, w: World, p: Progress, calls: seq<int>, pos: Option<nat>)
    requires n.Sequence? && i < |n.children| && Inside(n.children[i], pos)
  {
    var c := n.children[i];
    var o, f := Execute(c, w, p, calls), RunItems(ItemsLeft(c, pos), w, calls, FINISHED);
    && o.status == f.status && o.calls == f.calls && SameOutside(n, p, o.progress) && OthersIdle(n, o.progress, i)
    && (o.status == RUNNING || GoesOn(o.status) ==> Exactly(c, p, First(pos), calls, o, f))
  }

  lemma {:induction false} ChildExact(n: Node, i: nat, w: World, p: Progress, calls: seq<int>, pos: Option<nat>)
    requires n.Sequence? && i < |n.children| && Unique(n) && OthersIdle(n, p, i)
    requires Where(n.children[i], p, pos) && Inside(n.children[i], pos)
    ensures ChildGoesThrough(n, i, w, p, calls, pos)
    decreases n, 0, |n.children| - i, 0
  {
    var c := n.children[i];
    ExecuteExact(c, w, p, calls, pos);
    ChildFrame(n, i, p, Execute(c, w, p, calls).progress);
  }

  lemma LoopAhead(n: Node, i: nat, p: Progress, first: nat, calls: seq<int>, o: Outcome, rest: Outcome, f: Done)
    requires n.Sequence? && i < |n.children| && SameOutside(n, p, o.progress)
    requires first + |o.calls| - |calls| == |Tasks(n.children[i])| && |f.calls| >= |o.calls|
    requires LoopExactly(n, o.progress, Offset(n, i + 1), o.calls, rest, f)
    ensures LoopExactly(n, p, Offset(n, i) + first, calls, rest, f)
  {
  }

  lemma LoopStops(n: Node, i: nat, p: Progress, first: nat, calls: seq<int>, o: Outcome, f: Done)
    requires n.Sequence? && i < |n.children| && Unique(n) && OthersIdle(n, o.progress, i)
    requires !GoesOn(o.status) && o.status == f.status && o.calls == f.calls && SameOutside(n, p, o.progress)
    requires f.status == RUNNING ==>
               first + |f.calls| > |calls| && At(n.children[i], o.progress, first + |f.calls| - |calls| - 1)
    ensures LoopExactly(n, p, Offset(n, i) + first, calls, Stop(n, i, o), f)
  {
    if o.status == RUNNING {
      StoreRunning(n, i, o.progress, first + |f.calls| - |calls| - 1);
    } else {
      ResetIdle(n, o.progress);
    }
  }

  /** A node always has something to do, so that the result so far does not show. */
  lemma SameFirst(n: Node, pos: Option<nat>, w: World, calls: seq<int>, result: Status)
    requires Inside(n, pos)
    ensures RunItems(ItemsLeft(n, pos), w, calls, result) == RunItems(ItemsLeft(n, pos), w, calls, FINISHED)
  {
    assert ItemsLeft(n, pos) != [];
  }

  // ---------- conditions that fail ----------

  /** Wherever a condition fails, the tree answers CANNOTEXECUTE and calls no task behind it.  If it is the
      condition of the tree itself nothing changes, and otherwise the entity is nowhere in the tree. */
  lemma HeldBack(n: Node, w: World, p: Progress, calls: seq<int>, pos: Option<nat>,
                 before: seq<Item>, id: int, after: seq<Item>)
    requires Unique(n) && Where(n, p, pos) && Inside(n, pos)
    requires ItemsLeft(n, pos) == before + [Check(id)] + after
    requires GoesOn(RunItems(before, w, calls, FINISHED).status)
    requires !w.condition(id, RunItems(before, w, calls, FINISHED).calls)
    ensures var o := Execute(n, w, p, calls);
      && o.status == CANNOTEXECUTE && o.calls == RunItems(before, w, calls, FINISHED).calls
      && if before == [] then o.progress == p else Idle(n, o.progress)
  {
    ExecuteExact(n, w, p, calls, pos);
    var f := RunItems(before, w, calls, FINISHED);
    assert before + [Check(id)] + after == before + ([Check(id)] + after);
    RunItemsSplit(before, [Check(id)] + after, w, calls, FINISHED);
    ItemsBegin(n, pos);
    if before == [] {
      assert ItemsLeft(n, pos)[0] == Check(id);
    } else {
      assert ItemsLeft(n, pos)[0] == before[0];
    }
  }

  /** The first thing a sequence does is to check its own condition. */
  lemma ItemsBegin(n: Node, pos: Option<nat>)
    requires Inside(n, pos)
    ensures ItemsLeft(n, pos) != [] && ItemsLeft(n, pos)[0] == if n.Task? then Call(n.id) else Check(n.id)
  {
  }

  // ---------- runs of ticks ----------

  /** What a run of ticks does, told by the items alone: the statuses, the tasks called, and the position. */
  datatype Told = Told(statuses: seq<Status>, calls: seq<int>, pos: Option<nat>)

  /** Where one tick leaves the entity: at the task called last if it is running, where it was if the
      condition of the tree fails, and nowhere otherwise. */
  function After(n: Node, w: World, pos: Option<nat>, calls: seq<int>): Option<nat>
    requires Inside(n, pos)
  {
    var f := RunItems(ItemsLeft(n, pos), w, calls, FINISHED);
    if n.Sequence? && !w.condition(n.id, calls) then pos
    else if f.status == RUNNING && First(pos) + |f.calls| > |calls| then Some(First(pos) + |f.calls| - |calls| - 1)
    else None
  }

  function TellTicks(n: Node, ws: seq<World>, pos: Option<nat>, calls: seq<int>): Told {
    if ws == [] || !Inside(n, pos) then Told([], calls, pos)
    else
      var f := RunItems(ItemsLeft(n, pos), ws[0], calls, FINISHED);
      var rest := TellTicks(n, ws[1..], After(n, ws[0], pos, calls), f.calls);
      rest.(statuses := [f.status] + rest.statuses)
  }

  /** Any run of ticks, in any worlds and with any conditions, returns the statuses, calls the tasks and
      ends at the position that the items say. */
  lemma {:induction false} TicksExact(n: Node, ws: seq<World>, p: Progress, calls: seq<int>, pos: Option<nat>)
    requires Unique(n) && Where(n, p, pos)
    ensures var run, told := Ticks(n, ws, p, calls), TellTicks(n, ws, pos, calls);
      run.statuses == told.statuses && run.calls == told.calls && Where(n, run.progress, told.pos)
  {
    PositionInside(n, p, pos);
    if ws != [] {
      ExecuteExact(n, ws[0], p, calls, pos);
      var o := Execute(n, ws[0], p, calls);
      TicksExact(n, ws[1..], o.progress, o.calls, After(n, ws[0], pos, calls));
    }
  }
}
