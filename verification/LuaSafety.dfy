/** Safety over whole runs: however steps of the collector and of the program are interleaved, nothing
    the program can reach is ever freed, as long as no finalizer call takes the sweep cursor along.  The
    runs in which one does are the subject of LuaLoss. */
module LuaSafety {
  import opened Wrappers
  import opened LuaHeap
  import opened LuaTricolour
  import opened LuaCollector
  import opened LuaCycle
  import opened LuaAtomic
  import opened LuaSweep
  import opened LuaMutator
  import opened LuaFinalize

  datatype Action =
    | Collect
    | StartFullGc
    | SetEmergency(on: bool)
    | New(r: Ref, kind: Kind, meta: Option<Ref>, refs: seq<Ref>)
    | StoreRef(p: Ref, meta: Option<Ref>, refs: seq<Ref>, v: Option<Ref>, back: bool)
    | StoreUpval(cs: map<Ref, seq<Ref>>, u: Ref)
    | SetRoots(globals: seq<Ref>, running: Ref)
    | RegisterFinalizer(o: Ref)
    | RunFinalizer
    | FixString
    | ShareUpvalue(c: Ref, d: Ref)

  ghost predicate AllHeld(s: State, l: seq<Ref>) {
    forall x :: x in l ==> Held(s, x)
  }

  predicate IsProto(s: State, y: Ref) {
    y in s.heap && s.heap[y].kind == Proto
  }

  /** A prototype loses no reference, and a Lua closure keeps its prototype: these are no values. */
  predicate KeepsProtos(s: State, p: Ref, refs: seq<Ref>)
    requires p in s.heap
  {
    match s.heap[p].kind
    case Proto => forall y :: y in s.heap[p].Out() ==> y in refs
    case LuaClosure => forall y :: y in s.heap[p].Out() && IsProto(s, y) ==> y in refs
    case _ => true
  }

  /** The closure `c` has an upvalue in common with one that the program holds. */
  ghost predicate SharesHeld(s: State, c: Ref) {
    exists d :: (d, c) in s.sharing && Held(s, d)
  }

  /** What the program may do with what it holds.  A finalizer may run at any time.  An assignment to
      an upvalue changes closures that are held, or that share the upvalue with one. */
  ghost predicate Enabled(s: State, a: Action) {
    match a
    case Collect => true
    case StartFullGc => KeepInvariant(s.gcstate)
    case SetEmergency(_) => true
    case New(r, kind, meta, refs) =>
      var o := Obj(kind, White(s.currentwhite), false, meta, refs);
      r !in s.heap && AllHeld(s, o.Out()) && (kind == Str ==> o.Out() == [])
    case StoreRef(p, meta, refs, v, back) =>
      && Held(s, p) && p in s.heap && s.heap[p].kind != Str && (back ==> s.heap[p].kind == Table)
      && (v.Some? ==> Held(s, v.value)) && KeepsProtos(s, p, s.heap[p].(meta := meta, refs := refs).Out())
      && forall y :: y in s.heap[p].(meta := meta, refs := refs).Out() ==> y in s.heap[p].Out() || v == Some(y)
    case StoreUpval(cs, v) =>
      && Held(s, v)
      && (forall c :: c in cs ==>
            c in s.heap && s.heap[c].kind == LuaClosure && (Held(s, c) || SharesHeld(s, c))
            && KeepsProtos(s, c, s.heap[c].MetaRefs() + cs[c]))
      && (forall c, y :: c in cs && y in cs[c] ==> y in s.heap[c].refs || y == v)
    case SetRoots(globals, running) =>
      AllHeld(s, globals) && Held(s, running) && running in s.heap && s.heap[running].kind == Thread
    case RegisterFinalizer(o) =>
      Held(s, o) && o in s.heap && Finalizable(s.heap[o].kind)
    case RunFinalizer => s.tobefnz != []
    case FixString =>
      && s.allgc != [] && Held(s, s.allgc[0]) && s.allgc[0] in s.heap && s.heap[s.allgc[0]].kind == Str
      && s.sweepgc != After(s.allgc[0])
    case ShareUpvalue(c, d) => Held(s, c) && Held(s, d)
  }

  /** What can be reached is alive. */
  lemma ReachableAlive(s: State, x: Ref)
    requires LiveClosed(s) && Reachable(s, x)
    ensures Alive(s, x)
  {
    var p :| PathTo(s, p, x);
    PathAlive(s, p, |p| - 1);
  }

  lemma {:induction false} PathAlive(s: State, p: seq<Ref>, i: nat)
    requires LiveClosed(s) && i < |p| && IsRoot(s, p[0]) && Chain(s.heap, p)
    ensures Alive(s, p[i])
  {
    if i > 0 {
      PathAlive(s, p, i - 1);
      assert LiveOut(s, p[i - 1]);
      assert p[i - 1 + 1] in s.heap[p[i - 1]].Out();
    }
  }

  lemma HeldAlive(s: State, x: Ref)
    requires LiveClosed(s) && Held(s, x)
    ensures Alive(s, x)
  {
    HeldReachable(s, x);
    ReachableAlive(s, x);
  }

  lemma AllHeldAlive(s: State, l: seq<Ref>)
    requires LiveClosed(s) && AllHeld(s, l)
    ensures AllAlive(s, l)
  {
    forall x | x in l ensures Alive(s, x) { HeldAlive(s, x); }
  }

  /** Every step of the collector keeps the invariant. */
  lemma CollectInv(s: State)
    requires Inv(s)
    ensures StepReady(s) && Inv(SingleStep(s))
  {
    match s.gcstate {
      case Pause => PauseStartable(s); RestartInv(s);
      case Propagate => PropagateInv(s);
      case Atomic => AtomicInv(s);
      case SwpEnd => SwpEndInv(s);
      case CallFin => CallFinInv(s);
      case _ => SweepStepInv(s);
    }
  }

  lemma AtomicFlipped(s: State)
    requires Base(s) && MarkPhase(s) && s.gcstate == Atomic
    ensures StepReady(s) && Base(AtomicStep(PropagateAll(s))) && DeadOnAllgc(AtomicStep(PropagateAll(s)))
  {
    PropagateAllPhase(s);
    AtomicFlips(PropagateAll(s));
    RootsIn(s);
  }

  lemma AtomicInv(s: State)
    requires Inv(s) && s.gcstate == Atomic
    ensures StepReady(s) && Inv(SingleStep(s))
    ensures Base(AtomicStep(PropagateAll(s)))
  {
    AtomicFlipped(s);
    EnterSweepInv(AtomicStep(PropagateAll(s)));
  }

  lemma CallFinInv(s: State)
    requires Inv(s) && s.gcstate == CallFin
    ensures StepReady(s) && Inv(SingleStep(s))
  {
    if s.tobefnz != [] && !s.emergency {
      CallFinalizerInv(s);
    } else {
      SameBase(s, s.(gcstate := Pause));
      RootsIn(s);
      assert IsRoot(s, s.running);
      assert s.tobefnz != [] ==> s.tobefnz[0] in s.tobefnz;
    }
  }

  lemma StartFullGcInv(s: State)
    requires Inv(s) && KeepInvariant(s.gcstate)
    ensures NoDup(s.allgc) && AllIn(s, s.allgc) && Inv(EnterSweep(s))
  {
    EnterSweepInv(s);
  }

  lemma EmergencyInv(s: State, on: bool)
    requires Inv(s)
    ensures Inv(s.(emergency := on))
  {
    var t := s.(emergency := on);
    SameBase(s, t);
    if KeepInvariant(s.gcstate) {
      EmergencyMark(s, on);
    } else if IsSweepPhase(s.gcstate) {
      assert forall x :: Dead(t, x) <==> Dead(s, x);
      assert forall x :: CurrentWhite(t, x) <==> CurrentWhite(s, x);
    }
  }

  lemma EmergencyMark(s: State, on: bool)
    requires MarkPhase(s)
    ensures MarkPhase(s.(emergency := on))
  {
    var t := s.(emergency := on);
    assert forall x :: GrayNode(s, x) ==> GrayNode(t, x);
    assert forall x :: GrayListed(s, x) ==> GrayListed(t, x);
    assert forall x :: IsWhite(t, x) <==> IsWhite(s, x);
    assert forall x :: x in s.heap && OutMarked(s, x) ==> OutMarked(t, x);
    assert forall x :: Dead(t, x) <==> Dead(s, x);
  }

  /** The action follows no pointer to freed memory. */
  ghost predicate Defined(s: State, a: Action) {
    match a
    case Collect => StepReady(s)
    case StartFullGc => NoDup(s.allgc) && AllIn(s, s.allgc)
    case New(_, _, _, _) => s.running in s.heap
    case StoreRef(p, meta, refs, _, _) => StoreReady(s, p, meta, refs)
    case StoreUpval(cs, v) => UpvalueReady(s, cs, v)
    case RegisterFinalizer(o) => CheckReady(s, o)
    case RunFinalizer => s.tobefnz != [] && s.tobefnz[0] in s.heap && s.running in s.heap
    case FixString => s.allgc != [] && s.allgc[0] in s.heap
    case _ => true
  }

  function Others(w: set<(Ref, Ref)>, r: Ref): set<(Ref, Ref)> {
    set p | p in w && p.0 != r && p.1 != r
  }

  /** A new object at the address of one that has been freed shares nothing. */
  function Unshared(s: State, r: Ref): State {
    s.(sharing := Others(s.sharing, r))
  }

  ghost function Apply(s: State, a: Action): State
    requires Defined(s, a)
  {
    match a
    case Collect => SingleStep(s)
    case StartFullGc => EnterSweep(s)
    case SetEmergency(on) => s.(emergency := on)
    case New(r, kind, meta, refs) => Unshared(NewObject(s, r, kind, meta, refs), r)
    case StoreRef(p, meta, refs, v, back) => Store(s, p, meta, refs, v, back)
    case StoreUpval(cs, v) => StoreUpvalue(s, cs, v)
    case SetRoots(globals, running) => s.(globals := globals, running := running)
    case RegisterFinalizer(o) => CheckFinalizer(s, o)
    case RunFinalizer => CallFinalizer(s)
    case FixString => Fix(s)
    case ShareUpvalue(c, d) => s.(sharing := s.sharing + {(c, d), (d, c)})
  }

  lemma RunningIn(s: State)
    requires Base(s)
    ensures s.running in s.heap && (s.tobefnz != [] ==> s.tobefnz[0] in s.heap)
  {
    assert IsRoot(s, s.running);
    assert s.tobefnz != [] ==> s.tobefnz[0] in s.tobefnz;
  }

  lemma NewEnabled(s: State, r: Ref, kind: Kind, meta: Option<Ref>, refs: seq<Ref>)
    requires LiveClosed(s) && Enabled(s, New(r, kind, meta, refs))
    ensures NewOk(s, r, kind, meta, refs)
  {
    AllHeldAlive(s, Obj(kind, White(s.currentwhite), false, meta, refs).Out());
  }

  lemma StoreEnabled(s: State, p: Ref, meta: Option<Ref>, refs: seq<Ref>, v: Option<Ref>, back: bool)
    requires LiveClosed(s) && Enabled(s, StoreRef(p, meta, refs, v, back))
    ensures StoreOk(s, p, meta, refs, v, back)
  {
    HeldAlive(s, p);
    if v.Some? { HeldAlive(s, v.value); }
  }

  lemma UpvalueEnabled(s: State, cs: map<Ref, seq<Ref>>, v: Ref)
    requires LiveClosed(s) && Enabled(s, StoreUpval(cs, v))
    ensures UpvalueOk(s, cs, v)
  {
    HeldAlive(s, v);
  }

  lemma RootsEnabled(s: State, globals: seq<Ref>, running: Ref)
    requires LiveClosed(s) && Enabled(s, SetRoots(globals, running))
    ensures AllAlive(s, globals) && Alive(s, running)
  {
    AllHeldAlive(s, globals);
    HeldAlive(s, running);
  }

  lemma RegisterEnabled(s: State, o: Ref)
    requires LiveClosed(s) && Enabled(s, RegisterFinalizer(o))
    ensures CanFinalize(s, o)
  {
    HeldAlive(s, o);
  }

  lemma FixEnabled(s: State)
    requires LiveClosed(s) && Enabled(s, FixString)
    ensures FixOk(s)
  {
    HeldAlive(s, s.allgc[0]);
  }

  /** The call of a finalizer that takes the sweep cursor along. */
  predicate Loses(s: State, a: Action) {
    a.RunFinalizer? && LosesCursor(s)
  }

  /** Every action but that one keeps the invariant, and is defined; that one is defined too. */
  lemma ApplyInv(s: State, a: Action)
    requires Inv(s) && Enabled(s, a)
    ensures Defined(s, a)
    ensures Inv(Apply(s, a)) <==> !Loses(s, a)
  {
    if a == RunFinalizer {
      FinalizerInv(s);
    } else if a.Collect? || a.StartFullGc? || a.SetEmergency? {
      CollectorInv(s, a);
    } else {
      ProgramInv(s, a);
    }
  }

  lemma CollectorInv(s: State, a: Action)
    requires Inv(s) && Enabled(s, a) && (a.Collect? || a.StartFullGc? || a.SetEmergency?)
    ensures Defined(s, a)
    ensures var t := Apply(s, a); Inv(t)
  {
    match a
    case Collect => CollectInv(s);
    case StartFullGc => StartFullGcInv(s);
    case SetEmergency(on) => EmergencyInv(s, on);
  }

  lemma ProgramInv(s: State, a: Action)
    requires Inv(s) && Enabled(s, a)
    requires a != RunFinalizer && !a.Collect? && !a.StartFullGc? && !a.SetEmergency?
    ensures Defined(s, a)
    ensures var t := Apply(s, a); Inv(t)
  {
    match a
    case New(r, kind, meta, refs) =>
      NewEnabled(s, r, kind, meta, refs);
      NewObjectInv(s, r, kind, meta, refs);
      SharingInv(NewObject(s, r, kind, meta, refs), Others(s.sharing, r));
    case StoreRef(p, meta, refs, v, back) =>
      StoreEnabled(s, p, meta, refs, v, back);
      StoreInv(s, p, meta, refs, v, back);
    case StoreUpval(cs, v) => UpvalueEnabled(s, cs, v); StoreUpvalueInv(s, cs, v);
    case SetRoots(globals, running) => RootsEnabled(s, globals, running); SetRootsInv(s, globals, running);
    case RegisterFinalizer(o) => RegisterEnabled(s, o); CheckFinalizerInv(s, o);
    case FixString => FixEnabled(s); FixInv(s);
    case ShareUpvalue(c, d) => SharingInv(s, s.sharing + {(c, d), (d, c)});
  }

  /** The invariant does not look at `sharing`. */
  lemma SharingInv(s: State, w: set<(Ref, Ref)>)
    requires Inv(s)
    ensures var t := s.(sharing := w); Inv(t)
  {
    var t := s.(sharing := w);
    SharingBase(s, w);
    if KeepInvariant(s.gcstate) {
      SharingMark(s, w);
    } else if IsSweepPhase(s.gcstate) {
      assert forall x :: Dead(t, x) <==> Dead(s, x);
      assert forall x :: CurrentWhite(t, x) <==> CurrentWhite(s, x);
    }
  }

  lemma SharingBase(s: State, w: set<(Ref, Ref)>)
    requires Base(s)
    ensures var t := s.(sharing := w); Base(t) && (NoneDead(s) ==> NoneDead(t)) && (AllWhite(s) ==> AllWhite(t))
  {
    var t := s.(sharing := w);
    RootsLive(s, s.globals, s.running);
    assert forall x :: Dead(t, x) <==> Dead(s, x);
    forall x | Alive(t, x) ensures LiveOut(t, x) { assert Alive(s, x) && LiveOut(s, x); }
    forall x | IsRoot(t, x) ensures Alive(t, x) { assert IsRoot(s, x); }
    assert forall x :: CurrentWhite(t, x) <==> CurrentWhite(s, x);
    assert forall x :: IsWhite(t, x) <==> IsWhite(s, x);
  }

  lemma SharingMark(s: State, w: set<(Ref, Ref)>)
    requires MarkPhase(s)
    ensures MarkPhase(s.(sharing := w))
  {
    var t := s.(sharing := w);
    assert forall x :: GrayNode(s, x) ==> GrayNode(t, x);
    assert forall x :: GrayListed(s, x) ==> GrayListed(t, x);
    assert forall x :: IsWhite(t, x) <==> IsWhite(s, x);
    assert forall x :: x in s.heap && OutMarked(s, x) ==> OutMarked(t, x);
    assert forall x :: Dead(t, x) <==> Dead(s, x);
  }

  lemma FinalizerInv(s: State)
    requires Inv(s) && s.tobefnz != []
    ensures s.tobefnz[0] in s.heap && s.running in s.heap
    ensures Inv(CallFinalizer(s)) <==> !LosesCursor(s)
  {
    LosesCursorExactly(s);
    if !LosesCursor(s) { CallFinalizerInv(s); }
  }

  // ---------- nothing reachable is freed ----------

  /** The object at `x` is still there, unchanged but for its colour. */
  predicate Intact(s: State, t: State, x: Ref) {
    x in s.heap && x in t.heap && t.heap[x] == s.heap[x].(colour := t.heap[x].colour)
  }

  /** Objects and roots of `s` are objects and roots of `t`, with the same references. */
  ghost predicate SameGraph(s: State, t: State) {
    && (forall x :: x in s.heap ==> Intact(s, t, x))
    && (forall x :: IsRoot(s, x) ==> IsRoot(t, x))
  }

  lemma SameGraphReach(s: State, t: State, x: Ref)
    requires SameGraph(s, t) && Reachable(s, x)
    ensures Reachable(t, x)
  {
    var p :| PathTo(s, p, x);
    forall i | 0 <= i < |p| - 1 ensures p[i] in t.heap && p[i + 1] in t.heap[p[i]].Out() {
      assert Intact(s, t, p[i]);
      assert t.heap[p[i]].Out() == s.heap[p[i]].Out();
    }
    assert PathTo(t, p, x);
  }

  lemma SweepIntact(s: State, count: nat, x: Ref)
    requires Base(s) && Sweeping?(s.gcstate) && Alive(s, x)
    ensures NoDup(Ahead(SweepTarget(s), s.sweepgc)) && AllIn(s, Ahead(SweepTarget(s), s.sweepgc))
    ensures Intact(s, SweepSome(s, count), x)
  {
    var done := SweepSomeEffect(s, count);
  }

  lemma EnterSweepIntact(s: State, x: Ref)
    requires Base(s) && Alive(s, x)
    ensures NoDup(s.allgc) && AllIn(s, s.allgc) && Intact(s, EnterSweep(s), x)
  {
    var t := s.(gcstate := SwpAllGc, sweepgc := Header);
    SameBase(s, t);
    assert Alive(t, x);
    SweepIntact(t, 1, x);
  }

  lemma MarksGrow(s: State)
    requires AtomicReady(s)
    ensures Grew(s.heap, AtomicStep(s).heap)
  {
    GrewTrans(s.heap, MarkStrong(s).heap, AtomicStep(s).heap);
  }

  lemma GrewIntact(s: State, f: State)
    requires Grew(s.heap, f.heap) && f.mainthread == s.mainthread && f.running == s.running && f.globals == s.globals
    requires forall x :: x in s.tobefnz || x in s.finobj ==> x in f.tobefnz || x in f.finobj
    ensures SameGraph(s, f)
  {
    forall x | x in s.heap ensures Intact(s, f, x) { assert Darker(s.heap[x], f.heap[x]); }
  }

  lemma ToBeFnzGrows(s: State)
    requires AtomicReady(s)
    ensures forall x :: x in s.tobefnz || x in s.finobj ==> x in AtomicStep(s).tobefnz || x in AtomicStep(s).finobj
  {
  }

  lemma FlipGrew(s: State)
    requires Closed(s) && GrayList(s, s.gray) && AtomicReady(PropagateAll(s))
    ensures Grew(s.heap, AtomicStep(PropagateAll(s)).heap) && AtomicStep(PropagateAll(s)).mainthread == s.mainthread
  {
    var t := PropagateAll(s);
    MarksGrow(t);
    GrewTrans(s.heap, t.heap, AtomicStep(t).heap);
  }

  /** The atomic step keeps the graph. */
  lemma FlipGraph(s: State)
    requires Closed(s) && GrayList(s, s.gray) && AtomicReady(PropagateAll(s))
    ensures SameGraph(s, AtomicStep(PropagateAll(s)))
  {
    FlipGrew(s);
    ToBeFnzGrows(PropagateAll(s));
    GrewIntact(s, AtomicStep(PropagateAll(s)));
  }

  /** The atomic step and the first sweep after it free nothing reachable. */
  lemma AtomicIntact(s: State, x: Ref)
    requires Inv(s) && s.gcstate == Atomic && Reachable(s, x)
    ensures StepReady(s) && Intact(s, SingleStep(s), x)
  {
    AtomicFlipped(s);
    ReachableAlive(s, x);
    FlipGraph(s);
    FlippedIntact(s, AtomicStep(PropagateAll(s)), x);
  }

  lemma FlippedIntact(s: State, u: State, x: Ref)
    requires SameGraph(s, u) && Base(u) && Reachable(s, x) && x in s.heap
    ensures NoDup(u.allgc) && AllIn(u, u.allgc) && Intact(s, EnterSweep(u), x)
  {
    SameGraphReach(s, u, x);
    ReachableAlive(u, x);
    EnterSweepIntact(u, x);
    assert Intact(s, u, x);
  }

  /** While it marks, the collector only changes colours and gray lists. */
  lemma MarkFrames(s: State)
    requires Inv(s) && (s.gcstate == Pause || s.gcstate == Propagate)
    ensures StepReady(s)
    ensures var t := SingleStep(s);
      && t == s.(heap := t.heap, gray := t.gray, grayagain := t.grayagain, gcstate := t.gcstate)
      && Grew(s.heap, t.heap)
  {
    if s.gcstate == Pause {
      PauseStartable(s);
      RestartBase(s);
    } else {
      PropagateLists(s);
    }
  }

  lemma MarkIntact(s: State, x: Ref)
    requires Inv(s) && (s.gcstate == Pause || s.gcstate == Propagate) && x in s.heap
    ensures StepReady(s) && Intact(s, SingleStep(s), x)
  {
    MarkFrames(s);
    assert Darker(s.heap[x], SingleStep(s).heap[x]);
  }

  lemma FinishIntact(s: State, x: Ref)
    requires Inv(s) && (s.gcstate == SwpEnd || s.gcstate == CallFin) && x in s.heap
    ensures StepReady(s) && x in SingleStep(s).heap
    ensures s.gcstate == SwpEnd ==> Intact(s, SingleStep(s), x)
  {
    CollectInv(s);
  }

  /** A step of the collector leaves every reachable object as it is; only the stack of the
      running thread grows when a finalizer is called. */
  lemma CollectIntact(s: State, x: Ref)
    requires Inv(s) && Reachable(s, x)
    ensures StepReady(s) && x in s.heap && x in SingleStep(s).heap
    ensures s.gcstate != CallFin ==> Intact(s, SingleStep(s), x)
  {
    ReachableAlive(s, x);
    if s.gcstate == Pause || s.gcstate == Propagate {
      MarkIntact(s, x);
    } else if s.gcstate == Atomic {
      AtomicIntact(s, x);
    } else if s.gcstate == SwpEnd || s.gcstate == CallFin {
      FinishIntact(s, x);
    } else {
      SweepStepIntact(s, x);
    }
  }

  lemma SweepStepIntact(s: State, x: Ref)
    requires Inv(s) && Sweeping?(s.gcstate) && Alive(s, x)
    ensures StepReady(s) && Intact(s, SingleStep(s), x)
  {
    SweepIntact(s, GCSWEEPMAX, x);
    assert !Lost(s);
    SweepingStep(s);
    SweepStepParts(s, NextSweep(s.gcstate), NextCursor(s.gcstate));
  }

  /** What the program does, moving the sweep cursor included, frees nothing that is alive. */
  lemma ActionKeeps(s: State, a: Action, x: Ref)
    requires Defined(s, a) && a != Collect && a != StartFullGc && Alive(s, x)
    ensures x in Apply(s, a).heap
  {
    match a
    case StoreRef(p, meta, refs, v, back) => StoreKeys(s, p, meta, refs, v, back);
    case StoreUpval(cs, v) => UpvalueKeys(s, cs, v);
    case RegisterFinalizer(o) => RegisterKeys(s, o, x);
    case _ =>
  }

  /** No action frees an object that the program can reach. */
  lemma NothingReachableFreed(s: State, a: Action, x: Ref)
    requires Inv(s) && Enabled(s, a) && Reachable(s, x)
    ensures Defined(s, a) && x in s.heap && x in Apply(s, a).heap
  {
    ApplyInv(s, a);
    ReachableAlive(s, x);
    if a == Collect {
      CollectIntact(s, x);
    } else if a == StartFullGc {
      EnterSweepIntact(s, x);
    } else {
      ActionKeeps(s, a, x);
    }
  }

  lemma StoreKeys(s: State, p: Ref, meta: Option<Ref>, refs: seq<Ref>, v: Option<Ref>, back: bool)
    requires StoreReady(s, p, meta, refs)
    ensures Store(s, p, meta, refs, v, back).heap.Keys == s.heap.Keys
  {
  }

  lemma UpvalueKeys(s: State, cs: map<Ref, seq<Ref>>, v: Ref)
    requires UpvalueReady(s, cs, v)
    ensures StoreUpvalue(s, cs, v).heap.Keys == s.heap.Keys
  {
    assert SetUpvalues(s, cs).heap.Keys == s.heap.Keys;
  }

  lemma RegisterKeys(s: State, o: Ref, x: Ref)
    requires CheckReady(s, o) && Alive(s, x)
    ensures x in CheckFinalizer(s, o).heap
  {
    if !s.heap[o].finalized && IsSweepPhase(s.gcstate) && s.sweepgc == After(o) {
      assert Alive(SweptHere(s, o), x);
      assert Alive(SweepToLive(SweptHere(s, o)), x);
    }
  }

  // ---------- whole runs ----------

  /** The state of the collector when Lua starts (lua_newstate, lstate.c): the main thread and
      the registry, nothing else. */
  function InitialState(registry: Ref, mainthread: Ref): State
    requires registry != mainthread
  {
    State(map[mainthread := Obj(Thread, White(false), false, None, []),
              registry := Obj(Table, White(false), false, None, [])],
          Pause, false, [registry], [], [], [], [], [], NoCursor, false, mainthread, mainthread, [registry], {})
  }

  lemma InitialInv(registry: Ref, mainthread: Ref)
    requires registry != mainthread
    ensures Inv(InitialState(registry, mainthread))
  {
  }

  /** The actions can be taken one after the other, starting in `s`, and none follows a pointer to
      freed memory. */
  ghost predicate Runnable(s: State, actions: seq<Action>)
    decreases |actions|, 0
  {
    actions == []
    || (Runnable(s, Init(actions)) && Enabled(Run(s, Init(actions)), Last(actions))
        && Defined(Run(s, Init(actions)), Last(actions)))
  }

  ghost function Run(s: State, actions: seq<Action>): State
    requires Runnable(s, actions)
    decreases |actions|, 1
  {
    if actions == [] then s else Apply(Run(s, Init(actions)), Last(actions))
  }

  function Init(actions: seq<Action>): (r: seq<Action>)
    requires actions != []
    ensures |r| == |actions| - 1
  {
    actions[..|actions| - 1]
  }

  function Last(actions: seq<Action>): Action
    requires actions != []
  {
    actions[|actions| - 1]
  }

  /** No action of the run takes the sweep cursor along. */
  ghost predicate KeepsCursor(s: State, actions: seq<Action>)
    requires Runnable(s, actions)
    decreases |actions|
  {
    actions == [] || (KeepsCursor(s, Init(actions)) && !Loses(Run(s, Init(actions)), Last(actions)))
  }

  /** A run can be cut after any number of actions. */
  lemma {:induction false} RunPrefix(s: State, actions: seq<Action>, k: nat)
    requires Runnable(s, actions) && k <= |actions|
    ensures Runnable(s, actions[..k])
    ensures KeepsCursor(s, actions) ==> KeepsCursor(s, actions[..k])
    decreases |actions|
  {
    if k == |actions| {
      assert actions[..k] == actions;
    } else {
      RunPrefix(s, Init(actions), k);
      assert Init(actions)[..k] == actions[..k];
    }
  }

  lemma {:induction false} RunInv(s: State, actions: seq<Action>)
    requires Inv(s) && Runnable(s, actions) && KeepsCursor(s, actions)
    ensures Inv(Run(s, actions))
    decreases |actions|
  {
    if actions != [] {
      RunInv(s, Init(actions));
      ApplyInv(Run(s, Init(actions)), Last(actions));
    }
  }

  /** The state after `k` actions of a run. */
  ghost function StateAfter(s: State, actions: seq<Action>, k: nat): State
    requires Runnable(s, actions) && k <= |actions|
  {
    RunPrefix(s, actions, k);
    Run(s, actions[..k])
  }

  /** Safety of the runs that keep the cursor: after any number of actions, whatever the program can
      reach is allocated, no action frees it, and no action follows a pointer to freed memory. */
  lemma RunSafety(s: State, actions: seq<Action>, k: nat, x: Ref, a: Action)
    requires Inv(s) && Runnable(s, actions) && KeepsCursor(s, actions) && k <= |actions|
    requires Reachable(StateAfter(s, actions, k), x) && Enabled(StateAfter(s, actions, k), a)
    ensures x in StateAfter(s, actions, k).heap
    ensures Defined(StateAfter(s, actions, k), a) && x in Apply(StateAfter(s, actions, k), a).heap
  {
    RunPrefix(s, actions, k);
    RunInv(s, actions[..k]);
    NothingReachableFreed(StateAfter(s, actions, k), a, x);
  }

  // ---------- what the invariant says ----------

  /** lgc.h:15-25: while the collector is marking, a black object never points to a white one,
      and a gray object other than a fixed string waits in exactly one gray list, once. */
  lemma MainInvariant(s: State, x: Ref)
    requires Inv(s) && KeepInvariant(s.gcstate) && x in s.heap
    ensures s.heap[x].colour.Black? ==> forall y :: y in s.heap[x].Out() ==> y in s.heap && !IsWhite(s, y)
    ensures s.heap[x].colour.Gray? && x !in s.fixedgc ==> (x in s.gray) != (x in s.grayagain)
    ensures NoDup(s.gray + s.grayagain)
  {
    NoDupConcat(s.gray, s.grayagain);
    assert Alive(s, x) && LiveOut(s, x);
    if s.heap[x].colour.Black? {
      assert !GrayNode(s, x) && OutMarked(s, x);
    } else if s.heap[x].colour.Gray? {
      assert GrayListed(s, x);
    }
  }

  function Count(b: bool): nat {
    if b then 1 else 0
  }

  /** Every object but the main thread is on exactly one list, once, and has FINALIZEDBIT
      exactly if that list is `finobj` or `tobefnz`. */
  lemma OnOneList(s: State, x: Ref)
    requires Inv(s)
    ensures Count(x in s.allgc) + Count(x in s.finobj) + Count(x in s.tobefnz) + Count(x in s.fixedgc)
            == Count(x in s.heap && x != s.mainthread)
    ensures x in s.heap ==> (s.heap[x].finalized <==> x in s.finobj || x in s.tobefnz)
    ensures NoDup(s.allgc) && NoDup(s.finobj) && NoDup(s.tobefnz) && NoDup(s.fixedgc)
  {
  }

  /** While a list is being swept, the cursor is inside it, everything before the cursor has the
      current white, and every object still to be freed is in `allgc` ahead of the cursor. */
  lemma SweepOrder(s: State, x: Ref)
    requires Inv(s) && IsSweepPhase(s.gcstate)
    ensures CursorIn(SweepTarget(s), s.sweepgc)
    ensures x in Passed(SweepTarget(s), s.sweepgc) ==> CurrentWhite(s, x)
    ensures Dead(s, x) ==> s.gcstate == SwpAllGc && x in Ahead(s.allgc, s.sweepgc) && !Reachable(s, x)
  {
    PassedAhead(SweepTarget(s), s.sweepgc);
    if Dead(s, x) && Reachable(s, x) { ReachableAlive(s, x); }
  }
}
