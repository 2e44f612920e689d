/** A full collection frees everything that cannot be reached. */
module LuaComplete {
  import opened LuaHeap
  import opened LuaTricolour
  import opened LuaCollector
  import opened LuaCycle
  import opened LuaAtomic
  import opened LuaSweep
  import opened LuaFinalize
  import opened LuaSafety
  import opened LuaFullGc

  // ---------- one cycle keeps no more than a closed set ----------

  ghost predicate RootsWithin(s: State, r: set<Ref>) {
    forall x :: IsRoot(s, x) ==> x in r
  }

  /** Whatever lies outside `r` is dead. */
  ghost predicate OutsideDead(s: State, r: set<Ref>) {
    forall x :: x in s.heap ==> x in r || Dead(s, x)
  }

  /** On the way through a cycle: what is marked lies in `r`; then what lies outside is dead;
      then nothing lies outside. */
  ghost predicate CycleWithin(s: State, r: set<Ref>) {
    match s.gcstate
    case Propagate => RootsWithin(s, r) && EdgeClosed(s, r) && Sound(s, r)
    case Atomic => RootsWithin(s, r) && EdgeClosed(s, r) && Sound(s, r)
    case SwpAllGc => OutsideDead(s, r)
    case _ => forall x :: x in s.heap ==> x in r
  }

  lemma RestartWithin(s: State, r: set<Ref>)
    requires Startable(s) && RootsWithin(s, r) && EdgeClosed(s, r) && Sound(s, r)
    ensures StepReady(s) && CycleWithin(SingleStep(s), r)
  {
    RestartBase(s);
    assert forall x :: x in RootList(s) ==> IsRoot(s, x);
    RootsWithinMarks(s, r);
    WithinPhase(RestartCollection(s), Propagate, r);
  }

  lemma RootsWithinMarks(s: State, r: set<Ref>)
    requires Closed(s) && AllIn(s, RootList(s)) && InSet(RootList(s), r) && EdgeClosed(s, r) && Sound(s, r)
    requires MarkInv(s.(gray := [], grayagain := []), {}, s.heap.Keys)
    ensures EdgeClosed(RestartCollection(s), r) && Sound(RestartCollection(s), r)
  {
    ResetWithin(s, r);
    MarkListInv(s.(gray := [], grayagain := []), RootList(s), {}, r);
  }

  lemma ResetWithin(s: State, r: set<Ref>)
    requires EdgeClosed(s, r) && Sound(s, r)
    ensures var s0 := s.(gray := [], grayagain := []); EdgeClosed(s0, r) && Sound(s0, r)
  {
    var s0 := s.(gray := [], grayagain := []);
    assert forall x :: IsWhite(s0, x) <==> IsWhite(s, x);
  }

  lemma WithinPhase(s: State, g: GCState, r: set<Ref>)
    requires EdgeClosed(s, r) && Sound(s, r)
    ensures EdgeClosed(s.(gcstate := g), r) && Sound(s.(gcstate := g), r)
  {
    assert forall x :: IsWhite(s.(gcstate := g), x) <==> IsWhite(s, x);
  }

  lemma PropagateWithin(s: State, r: set<Ref>)
    requires Inv(s) && s.gcstate == Propagate && CycleWithin(s, r)
    ensures StepReady(s) && CycleWithin(SingleStep(s), r)
  {
    PropagatePhase(s);
    PropagateMarkInv(s, Elems(s.grayagain), r);
    PropagatedWithin(s, SingleStep(s), r);
  }

  lemma PropagatedWithin(s: State, t: State, r: set<Ref>)
    requires Closed(s) && GrayList(s, s.gray) && s.gray != [] && AllIn(s, s.gray) && GrayNode(s, s.gray[0])
    requires RootsWithin(s, r) && EdgeClosed(PropagateMark(s), r) && Sound(PropagateMark(s), r)
    requires t == PropagateMark(s).(gcstate := t.gcstate) && KeepInvariant(t.gcstate)
    ensures CycleWithin(t, r)
  {
    WithinPhase(PropagateMark(s), t.gcstate, r);
    assert forall x :: IsRoot(t, x) ==> IsRoot(s, x);
  }

  lemma DrainedWithin(s: State, r: set<Ref>)
    requires Base(s) && MarkPhase(s) && RootsWithin(s, r) && EdgeClosed(s, r) && Sound(s, r)
    ensures Closed(s) && Base(PropagateAll(s)) && MarkPhase(PropagateAll(s))
    ensures var t := PropagateAll(s);
      && MarkInv(t, Elems(t.grayagain), r)
      && InSet([t.running] + t.globals, r) && InSet(t.finobj, r) && InSet(t.tobefnz, r)
  {
    PropagateAllPhase(s);
    PropagateAllInv(s, Elems(s.grayagain), r);
    LiveIsClosed(PropagateAll(s));
    WithinLater(s, PropagateAll(s), r);
  }

  lemma DrainFlipWithin(s: State, r: set<Ref>)
    requires Base(s) && MarkPhase(s) && RootsWithin(s, r) && EdgeClosed(s, r) && Sound(s, r)
    ensures Closed(s) && AtomicReady(PropagateAll(s)) && OutsideDead(AtomicStep(PropagateAll(s)), r)
  {
    DrainedWithin(s, r);
    FlipWithin(PropagateAll(s), r);
  }

  lemma AtomicWithin(s: State, r: set<Ref>)
    requires Base(s) && MarkPhase(s) && s.gcstate == Atomic && CycleWithin(s, r)
    ensures StepReady(s) && OutsideDead(SingleStep(s), r) && SingleStep(s).gcstate == SwpAllGc
  {
    AtomicFlipped(s);
    DrainFlipWithin(s, r);
    EnterWithin(AtomicStep(PropagateAll(s)), r);
  }

  lemma WithinLater(s: State, t: State, r: set<Ref>)
    requires Closed(s) && GrayList(s, s.gray) && t == PropagateAll(s) && Covered(s, Elems(s.grayagain))
    requires MarkPhase(t) && Closed(t) && EdgeClosed(t, r) && Sound(t, r) && RootsWithin(s, r)
    ensures MarkInv(t, Elems(t.grayagain), r) && RootsWithin(t, r)
    ensures InSet([t.running] + t.globals, r) && InSet(t.finobj, r) && InSet(t.tobefnz, r)
  {
    assert forall x :: IsRoot(t, x) ==> IsRoot(s, x);
  }

  lemma FlipWithin(s: State, r: set<Ref>)
    requires Base(s) && MarkPhase(s) && s.gray == []
    requires MarkInv(s, Elems(s.grayagain), r)
    requires InSet([s.running] + s.globals, r) && InSet(s.finobj, r) && InSet(s.tobefnz, r)
    ensures AtomicReady(s) && OutsideDead(AtomicStep(s), r)
  {
    AtomicMarksInv(s, r);
    AtomicFrames(s);
    UnmarkedDie(AtomicMarks(s), r);
  }

  lemma UnmarkedDie(u: State, r: set<Ref>)
    requires NoneDead(u) && Sound(u, r)
    ensures var t := u.(currentwhite := !u.currentwhite); OutsideDead(t, r)
  {
    forall x | x in u.heap && x !in r ensures Dead(u.(currentwhite := !u.currentwhite), x) {
      assert !Dead(u, x) && IsWhite(u, x);
    }
  }

  lemma EnterWithin(s: State, r: set<Ref>)
    requires Base(s) && OutsideDead(s, r)
    ensures NoDup(s.allgc) && AllIn(s, s.allgc)
    ensures OutsideDead(EnterSweep(s), r) && EnterSweep(s).gcstate == SwpAllGc
  {
    var t := s.(gcstate := SwpAllGc, sweepgc := Header);
    assert Lists(t);
    var done := SweepSomeEffect(t, 1);
    assert forall x :: Dead(s, x) ==> Dead(t, x);
  }

  lemma SweepSomeWithin(s: State, r: set<Ref>)
    requires Base(s) && SweepPhase(s) && Sweeping?(s.gcstate)
    requires forall x :: x in s.heap ==> x in r || (s.gcstate == SwpAllGc && Dead(s, x))
    ensures NoDup(Ahead(SweepTarget(s), s.sweepgc)) && AllIn(s, Ahead(SweepTarget(s), s.sweepgc))
    ensures var t := SweepSome(s, GCSWEEPMAX);
      forall x :: x in t.heap ==> x in r || (s.gcstate == SwpAllGc && Dead(t, x) && t.sweepgc != NoCursor)
  {
    var done := SweepSomeEffect(s, GCSWEEPMAX);
    SweepSomeInv(s, GCSWEEPMAX);
    var t := SweepSome(s, GCSWEEPMAX);
    assert forall x :: x in t.heap ==> x in r || (s.gcstate == SwpAllGc && Dead(t, x));
    if t.sweepgc == NoCursor && s.gcstate == SwpAllGc {
      NothingDeadLeft(t);
    }
  }

  lemma NothingDeadLeft(s: State)
    requires SweepPhase(s) && s.gcstate == SwpAllGc && s.sweepgc == NoCursor
    ensures NoneDead(s)
  {
    assert forall x :: x in s.allgc ==> CurrentWhite(s, x);
  }

  lemma SweepWithin(s: State, r: set<Ref>)
    requires Base(s) && SweepPhase(s) && Sweeping?(s.gcstate) && CycleWithin(s, r)
    ensures StepReady(s) && CycleWithin(SingleStep(s), r)
  {
    SweepSomeWithin(s, r);
    assert !Lost(s);
    SweepingStep(s);
    SweepStepParts(s, NextSweep(s.gcstate), NextCursor(s.gcstate));
    SweptWithin(s, if s.sweepgc != NoCursor then SweepSome(s, GCSWEEPMAX) else s, SingleStep(s), r);
  }

  lemma SweptWithin(s: State, s1: State, t: State, r: set<Ref>)
    requires Sweeping?(s.gcstate) && s1.gcstate == s.gcstate && (s1 == s ==> SweepPhase(s) && CycleWithin(s, r))
    requires s1 != s ==>
      forall x :: x in s1.heap ==> x in r || (s.gcstate == SwpAllGc && Dead(s1, x) && s1.sweepgc != NoCursor)
    requires t == if s1.sweepgc != NoCursor then s1
             else s1.(gcstate := NextSweep(s.gcstate), sweepgc := NextCursor(s.gcstate))
    ensures CycleWithin(t, r)
  {
    if s1 == s && s.gcstate == SwpAllGc && s.sweepgc == NoCursor {
      NothingDeadLeft(s);
    }
  }

  lemma StepWithin(s: State, r: set<Ref>)
    requires Inv(s) && s.gcstate != Pause && s.gcstate != CallFin && CycleWithin(s, r)
    ensures StepReady(s) && CycleWithin(SingleStep(s), r)
  {
    if s.gcstate == Propagate {
      PropagateWithin(s, r);
    } else if s.gcstate == Atomic {
      AtomicWithin(s, r);
    } else if Sweeping?(s.gcstate) {
      SweepWithin(s, r);
    } else {
      CollectInv(s);
    }
  }

  lemma {:induction false} CycleEndsWithin(s: State, r: set<Ref>)
    requires Inv(s) && s.gcstate != Pause && CycleWithin(s, r)
    ensures CycleWithin(RunUntil(s, {CallFin}), r)
    decreases Left(s, {CallFin}).0, Left(s, {CallFin}).1
  {
    if s.gcstate != CallFin {
      Advance(s, {CallFin});
      StepWithin(s, r);
      StepProgress(s);
      CycleEndsWithin(SingleStep(s), r);
    }
  }

  // ---------- luaC_fullgc ----------

  /** luaC_fullgc (lgc.c:1156-1172). */
  ghost function Prepare(s: State, isemergency: bool): (t: State)
    requires Inv(s)
    ensures Inv(t)
  {
    EmergencyInv(s, isemergency);
    var s1 := s.(emergency := isemergency);
    if KeepInvariant(s1.gcstate) then StartFullGcInv(s1); EnterSweep(s1) else s1
  }

  /** All phases but the pause. */
  const NotPause: set<GCState> := {Propagate, Atomic, SwpAllGc, SwpFinObj, SwpToBeFnz, SwpEnd, CallFin}

  ghost function FullGc(s: State, isemergency: bool): (t: State)
    requires Inv(s)
    ensures Inv(t) && t.gcstate == Pause
  {
    var t := FullCycle(Prepare(s, isemergency));
    EmergencyInv(t, false);
    t.(emergency := false)
  }

  /** Finish the cycle that is under way, then run a whole one. */
  ghost function FullCycle(s: State): (t: State)
    requires Inv(s)
    ensures Inv(t) && t.gcstate == Pause
  {
    RunUntil(RunUntil(RunUntil(RunUntil(s, {Pause}), NotPause), {CallFin}), {Pause})
  }

  /** What a full collection has to keep. */
  ghost function Needed(s: State): set<Ref> {
    set x | x in s.heap && (Reachable(s, x) || x in s.fixedgc)
  }

  lemma NeededClosed(s: State)
    requires Inv(s)
    ensures RootsWithin(s, Needed(s)) && EdgeClosed(s, Needed(s))
    ensures s.gcstate == Pause ==> Sound(s, Needed(s))
  {
    forall x | IsRoot(s, x) ensures x in Needed(s) {
      assert PathTo(s, [x], x);
      assert Alive(s, x);
    }
    forall x | x in s.heap && x in Needed(s) ensures forall y :: y in s.heap[x].Out() ==> y in Needed(s) {
      if Reachable(s, x) {
        ReachableAlive(s, x);
        forall y | y in s.heap[x].Out() ensures y in Needed(s) { EdgeReachable(s, x, y); }
      } else {
        assert !IsWhite(s, x) && x in s.fixedgc;
        FixedLeaf(s, x);
      }
    }
  }

  lemma EdgeReachable(s: State, x: Ref, y: Ref)
    requires LiveClosed(s) && Reachable(s, x) && x in s.heap && y in s.heap[x].Out()
    ensures Reachable(s, y) && y in s.heap
  {
    var p :| PathTo(s, p, x);
    var q := p + [y];
    assert forall i :: 0 <= i < |p| ==> q[i] == p[i];
    assert PathTo(s, q, y);
    ReachableAlive(s, y);
  }

  lemma FixedLeaf(s: State, x: Ref)
    requires Inv(s) && x in s.fixedgc
    ensures x in s.heap && s.heap[x].Out() == []
  {
    assert !Dead(s, x);
    assert Alive(s, x) && LiveOut(s, x);
  }

  lemma PrepareGraph(s: State, isemergency: bool)
    requires Inv(s) && NoFinalizers(s.(emergency := isemergency))
    ensures GraphKept(s, Prepare(s, isemergency)) && NoFinalizers(Prepare(s, isemergency))
  {
    EmergencyInv(s, isemergency);
    var s1 := s.(emergency := isemergency);
    SamePhaseGraph(s, s1);
    if KeepInvariant(s1.gcstate) {
      EnterSweepGraph(s1);
      NoFinalizersKept(s1, EnterSweep(s1));
      GraphKeptTrans(s, s1, EnterSweep(s1));
    }
  }

  lemma FirstStep(p: State)
    requires Inv(p) && p.gcstate == Pause
    ensures StepReady(p) && Inv(SingleStep(p)) && RunUntil(p, NotPause) == SingleStep(p)
    ensures SingleStep(p).gcstate == Propagate
  {
    Advance(p, NotPause);
    StepProgress(p);
  }

  lemma CycleGraph(p: State)
    requires Inv(p) && p.gcstate == Pause && NoFinalizers(p)
    ensures var q := RunUntil(RunUntil(p, NotPause), {CallFin}); GraphKept(p, q) && NoFinalizers(q)
  {
    RunGraph(p, NotPause);
    RunGraph(RunUntil(p, NotPause), {CallFin});
    GraphKeptTrans(p, RunUntil(p, NotPause), RunUntil(RunUntil(p, NotPause), {CallFin}));
  }

  lemma StartWithin(p: State)
    requires Inv(p) && p.gcstate == Pause
    ensures StepReady(p) && CycleWithin(SingleStep(p), Needed(p))
  {
    NeededClosed(p);
    PauseStartable(p);
    RestartWithin(p, Needed(p));
  }

  lemma CallFinWithin(q: State, r: set<Ref>)
    requires q.gcstate == CallFin && CycleWithin(q, r)
    ensures q.heap.Keys <= r
  {
  }

  lemma EndsWithin(s: State, r: set<Ref>)
    requires Inv(s) && s.gcstate == Propagate && CycleWithin(s, r)
    ensures RunUntil(s, {CallFin}).heap.Keys <= r
  {
    CycleEndsWithin(s, r);
    CallFinWithin(RunUntil(s, {CallFin}), r);
  }

  lemma CycleWithinNeeded(p: State)
    requires Inv(p) && p.gcstate == Pause
    ensures RunUntil(RunUntil(p, NotPause), {CallFin}).heap.Keys <= Needed(p)
  {
    FirstStep(p);
    StartWithin(p);
    EndsWithin(SingleStep(p), Needed(p));
  }

  /** One cycle, from the pause to the finalizers, leaves what is needed and nothing else. */
  lemma CycleExact(p: State)
    requires Inv(p) && p.gcstate == Pause && NoFinalizers(p)
    ensures var q := RunUntil(RunUntil(p, NotPause), {CallFin});
      GraphKept(p, q) && NoFinalizers(q) && q.heap.Keys == Needed(p)
  {
    CycleGraph(p);
    CycleWithinNeeded(p);
    NeededExact(p, RunUntil(RunUntil(p, NotPause), {CallFin}));
  }

  lemma NeededExact(p: State, q: State)
    requires GraphKept(p, q) && Lists(q) && q.heap.Keys <= Needed(p)
    ensures q.heap.Keys == Needed(p)
  {
    NeededStays(p, q);
  }

  lemma NeededStays(p: State, q: State)
    requires GraphKept(p, q) && Lists(q)
    ensures Needed(p) <= q.heap.Keys
  {
    forall x | x in Needed(p) ensures x in q.heap {
      if Reachable(p, x) { assert Intact(p, q, x); } else { assert x in q.fixedgc; }
    }
  }

  lemma NeededSame(s: State, t: State)
    requires GraphKept(s, t) && Lists(t)
    ensures Needed(s) == Needed(t)
  {
    NeededStays(s, t);
    forall x ensures x in Needed(s) <==> x in Needed(t) {
      GraphKeptReach(s, t, x);
      if x in Needed(t) { assert Intact(s, t, x); }
    }
  }

  /** Completeness: from any phase, a full collection without finalizers to call ends in the
      pause with exactly the reachable objects and the fixed strings; every other object is
      gone, the survivors keep their references, and all but the fixed strings are white. */
  lemma FullGcExact(s: State, isemergency: bool)
    requires Inv(s) && NoFinalizers(s.(emergency := isemergency))
    ensures var t := FullGc(s, isemergency);
      && t.gcstate == Pause && t.heap.Keys == Needed(s) && GraphKept(s, t)
      && forall x :: x in t.heap ==> x in t.fixedgc || CurrentWhite(t, x)
  {
    var p := ToPause(s, isemergency);
    CycleExact(p);
    var q := RunUntil(RunUntil(p, NotPause), {CallFin});
    GraphKeptTrans(s, p, q);
    FinishExact(s, q);
  }

  lemma ToPause(s: State, isemergency: bool) returns (p: State)
    requires Inv(s) && NoFinalizers(s.(emergency := isemergency))
    ensures p == RunUntil(Prepare(s, isemergency), {Pause}) && Inv(p) && p.gcstate == Pause
    ensures NoFinalizers(p) && GraphKept(s, p) && Needed(s) == Needed(p)
  {
    PrepareGraph(s, isemergency);
    p := RunUntil(Prepare(s, isemergency), {Pause});
    RunGraph(Prepare(s, isemergency), {Pause});
    GraphKeptTrans(s, Prepare(s, isemergency), p);
    NeededSame(s, p);
  }

  lemma FinishExact(s: State, q: State)
    requires Inv(q) && q.gcstate == CallFin && NoFinalizers(q) && GraphKept(s, q)
    ensures var t := RunUntil(q, {Pause}).(emergency := false);
      && t.gcstate == Pause && t.heap == q.heap && GraphKept(s, t)
      && forall x :: x in t.heap ==> x in t.fixedgc || CurrentWhite(t, x)
  {
    Advance(q, {Pause});
    assert SingleStep(q) == q.(gcstate := Pause);
    assert RunUntil(q, {Pause}) == q.(gcstate := Pause);
    var t := q.(gcstate := Pause, emergency := false);
    SameBase(q, t);
    SamePhaseGraph(q, t);
    GraphKeptTrans(s, q, t);
  }

  // ---------- the preliminary sweep ----------

  lemma SweepKeepsAll(s: State, count: nat)
    requires Base(s) && SweepPhase(s) && Sweeping?(s.gcstate) && NoneDead(s)
    ensures NoDup(Ahead(SweepTarget(s), s.sweepgc)) && AllIn(s, Ahead(SweepTarget(s), s.sweepgc))
    ensures NoneDead(SweepSome(s, count)) && SweepSome(s, count).heap.Keys == s.heap.Keys
  {
    var done := SweepSomeEffect(s, count);
    SweepAlive(s, SweepSome(s, count), done);
    assert forall x :: x in s.heap ==> !Dead(s, x);
  }

  lemma SweepStepKeepsAll(s: State)
    requires Base(s) && SweepPhase(s) && IsSweepPhase(s.gcstate) && NoneDead(s)
    ensures StepReady(s) && NoneDead(SingleStep(s)) && SingleStep(s).heap.Keys == s.heap.Keys
    ensures IsSweepPhase(SingleStep(s).gcstate) || SingleStep(s).gcstate == CallFin
  {
    if Sweeping?(s.gcstate) {
      SweepKeepsAll(s, GCSWEEPMAX);
      var s1 := if s.sweepgc != NoCursor then SweepSome(s, GCSWEEPMAX) else s;
      SweepStepHeap(s);
      StillNoneDead(s1, SingleStep(s));
    } else {
      WhitenNoneDead(s);
    }
  }

  lemma SweepStepHeap(s: State)
    requires StepReady(s) && Sweeping?(s.gcstate) && !Lost(s)
    ensures var s1 := if s.sweepgc != NoCursor then SweepSome(s, GCSWEEPMAX) else s;
      SingleStep(s).heap == s1.heap && SingleStep(s).currentwhite == s1.currentwhite
    ensures IsSweepPhase(SingleStep(s).gcstate)
  {
    SweepingStep(s);
    SweepStepParts(s, NextSweep(s.gcstate), NextCursor(s.gcstate));
  }

  lemma WhitenNoneDead(s: State)
    requires NoneDead(s) && s.mainthread in s.heap
    ensures NoneDead(SetColour(s, s.mainthread, White(s.currentwhite)).(gcstate := CallFin))
  {
    assert forall x :: x in s.heap ==> !Dead(s, x);
  }

  lemma StillNoneDead(s: State, t: State)
    requires NoneDead(s) && t.heap == s.heap && t.currentwhite == s.currentwhite
    ensures NoneDead(t)
  {
    assert forall x :: x in s.heap ==> !Dead(s, x);
  }

  lemma {:induction false} RunKeepsAll(s: State)
    requires Inv(s) && (IsSweepPhase(s.gcstate) || s.gcstate == CallFin) && NoneDead(s)
    ensures RunUntil(s, {Pause}).heap.Keys == s.heap.Keys
    decreases Left(s, {Pause}).0, Left(s, {Pause}).1
  {
    if s.gcstate == CallFin {
      FinalizersKeepAll(s);
    } else {
      Advance(s, {Pause});
      SweepStepKeepsAll(s);
      RunKeepsAll(SingleStep(s));
    }
  }

  lemma CallFinKeepsAll(s: State)
    requires s.gcstate == CallFin && StepReady(s)
    ensures var t := SingleStep(s); t.heap.Keys == s.heap.Keys && (t.gcstate == CallFin || t.gcstate == Pause)
  {
  }

  /** Calling finalizers frees nothing. */
  lemma {:induction false} FinalizersKeepAll(s: State)
    requires Inv(s) && (s.gcstate == CallFin || s.gcstate == Pause)
    ensures RunUntil(s, {Pause}).heap.Keys == s.heap.Keys
    decreases Left(s, {Pause}).0, Left(s, {Pause}).1, 0
  {
    if s.gcstate == CallFin {
      Advance(s, {Pause});
      CallFinKeepsAll(s);
      FinalizersKeepAll(SingleStep(s));
    }
  }

  /** Started while the collector is marking, the sweep that clears the marks frees nothing. */
  lemma PreliminarySweepFreesNothing(s: State, isemergency: bool)
    requires Inv(s) && KeepInvariant(s.gcstate)
    ensures RunUntil(Prepare(s, isemergency), {Pause}).heap.Keys == s.heap.Keys
  {
    EmergencyInv(s, isemergency);
    EnterKeepsAll(s.(emergency := isemergency));
    RunKeepsAll(Prepare(s, isemergency));
  }

  lemma EnterKeepsAll(s: State)
    requires Base(s) && NoneDead(s)
    ensures NoDup(s.allgc) && AllIn(s, s.allgc)
    ensures var t := EnterSweep(s); NoneDead(t) && t.heap.Keys == s.heap.Keys && t.gcstate == SwpAllGc
  {
    var t := s.(gcstate := SwpAllGc, sweepgc := Header);
    SameBase(s, t);
    assert DeadOnAllgc(t) && SweepPhase(t);
    SweepKeepsAll(t, 1);
    SweepSomeInv(t, 1);
  }
}
