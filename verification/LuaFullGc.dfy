/** Completeness: a full collection (luaC_fullgc, lgc.c:1156-1172), started in any phase,
    terminates in the pause state and leaves exactly the reachable objects. */
module LuaFullGc {
  import opened LuaHeap
  import opened LuaTricolour
  import opened LuaCollector
  import opened LuaCycle
  import opened LuaAtomic
  import opened LuaSweep
  import opened LuaMutator
  import opened LuaFinalize
  import opened LuaSafety

  // ---------- luaC_runtilstate terminates ----------

  function Rank(g: GCState): nat {
    match g
    case Pause => 8
    case Propagate => 7
    case Atomic => 6
    case SwpAllGc => 5
    case SwpFinObj => 4
    case SwpToBeFnz => 3
    case SwpEnd => 2
    case CallFin => 1
  }

  /** What is left to do in the current phase. */
  ghost function Inner(s: State): nat {
    match s.gcstate
    case Propagate => Work(s)
    case CallFin => |s.tobefnz|
    case _ => |Ahead(CursorList(s), s.sweepgc)|
  }

  lemma SweepShorter(s: State)
    requires Lists(s) && Sweeping?(s.gcstate)
    requires NoDup(Ahead(SweepTarget(s), s.sweepgc)) && AllIn(s, Ahead(SweepTarget(s), s.sweepgc))
    ensures var t := SweepSome(s, GCSWEEPMAX);
      t.sweepgc != NoCursor ==> |Ahead(SweepTarget(t), t.sweepgc)| < |Ahead(SweepTarget(s), s.sweepgc)|
  {
    TargetFacts(s);
    var pre, rest := Passed(SweepTarget(s), s.sweepgc), Ahead(SweepTarget(s), s.sweepgc);
    SweepListFacts(s.heap, s.currentwhite, pre, rest, GCSWEEPMAX);
    var r := SweepList(s.heap, s.currentwhite, pre, rest, GCSWEEPMAX);
    PassedAt(r.pre, r.rest);
  }

  /** From `s` to `t` the collector got on: a later phase, or less to do in this one. */
  ghost predicate Progress(s: State, t: State) {
    || t.gcstate == Pause || Rank(t.gcstate) < Rank(s.gcstate)
    || (t.gcstate == s.gcstate && Inner(t) < Inner(s))
  }

  lemma MarkProgress(s: State)
    requires StepReady(s) && KeepInvariant(s.gcstate)
    ensures Progress(s, SingleStep(s)) && SingleStep(s).gcstate != Pause
  {
    if s.gcstate == Propagate {
      PropagateProgress(s);
    } else {
      AtomicProgress(s);
    }
  }

  lemma PropagateProgress(s: State)
    requires StepReady(s) && s.gcstate == Propagate
    ensures var t := SingleStep(s); t.gcstate == Atomic || (t.gcstate == Propagate && Work(t) < Work(s))
  {
    PropagateMarkGray(s);
    assert SingleStep(s).heap == PropagateMark(s).heap;
    SameWork(PropagateMark(s), SingleStep(s));
  }

  lemma SameWork(s: State, t: State)
    requires t.heap == s.heap && t.gray == s.gray
    ensures Work(t) == Work(s)
  {
  }

  lemma AtomicProgress(s: State)
    requires StepReady(s) && s.gcstate == Atomic
    ensures SingleStep(s).gcstate == SwpAllGc
  {
    AtomicFrame(PropagateAll(s));
    EnterPhase(AtomicStep(PropagateAll(s)));
  }

  lemma EnterPhase(s: State)
    requires NoDup(s.allgc) && AllIn(s, s.allgc)
    ensures EnterSweep(s).gcstate == SwpAllGc
  {
  }

  lemma SweepProgress(s: State)
    requires Lists(s) && StepReady(s) && Sweeping?(s.gcstate) && !Lost(s)
    ensures Progress(s, SingleStep(s)) && SingleStep(s).gcstate != Pause
  {
    SweepingStep(s);
    SweepStepParts(s, NextSweep(s.gcstate), NextCursor(s.gcstate));
    SweepShorter(s);
    StillFollowed(s);
  }

  /** A step that does not finish its list leaves the cursor in it. */
  lemma StillFollowed(s: State)
    requires Lists(s) && StepReady(s) && Sweeping?(s.gcstate) && !Lost(s)
    ensures !Lost(SweepSome(s, GCSWEEPMAX))
  {
    var done := SweepSomeEffect(s, GCSWEEPMAX);
  }

  lemma AwayProgress(s: State)
    requires Lists(s) && StepReady(s) && Lost(s)
    ensures Progress(s, SingleStep(s)) && SingleStep(s).gcstate != Pause
  {
    var v := s.(gcstate := SwpAllGc);
    assert Lists(v);
    SweepShorter(v);
    AwayParts(s);
    if SweepSome(v, GCSWEEPMAX).sweepgc != NoCursor {
      AwayCursor(s);
    }
  }

  /** The rest of `allgc` is swept up to an object of `allgc`, so the cursor stays lost. */
  lemma AwayCursor(s: State)
    requires Lists(s) && StepReady(s) && Lost(s)
    ensures var v := s.(gcstate := SwpAllGc);
      && NoDup(Ahead(v.allgc, v.sweepgc)) && AllIn(v, Ahead(v.allgc, v.sweepgc))
      && (SweepSome(v, GCSWEEPMAX).sweepgc.After? ==> SweepSome(v, GCSWEEPMAX).sweepgc.o !in s.tobefnz)
      && SweepSome(v, GCSWEEPMAX).sweepgc != Header
  {
    var v := s.(gcstate := SwpAllGc);
    assert Lists(v);
    var done := SweepSomeEffect(v, GCSWEEPMAX);
    var t := SweepSome(v, GCSWEEPMAX);
    if t.sweepgc.After? { assert t.sweepgc.o in t.allgc && t.sweepgc.o in v.allgc; }
    SweptPast(v, GCSWEEPMAX);
  }

  lemma EndProgress(s: State)
    requires StepReady(s) && (s.gcstate == SwpEnd || s.gcstate == CallFin || s.gcstate == Pause)
    ensures s.gcstate != Pause ==> Progress(s, SingleStep(s))
    ensures s.gcstate == SwpEnd ==> SingleStep(s).gcstate == CallFin
    ensures s.gcstate == Pause ==> SingleStep(s).gcstate == Propagate
  {
  }

  /** Outside the pause every step makes progress; only GCScallfin leads to the pause. */
  lemma StepProgress(s: State)
    requires Lists(s) && StepReady(s)
    ensures s.gcstate != Pause ==> Progress(s, SingleStep(s))
    ensures s.gcstate == Pause ==> SingleStep(s).gcstate == Propagate
    ensures s.gcstate != CallFin ==> SingleStep(s).gcstate != Pause
  {
    if KeepInvariant(s.gcstate) {
      MarkProgress(s);
    } else if Lost(s) {
      AwayProgress(s);
    } else if Sweeping?(s.gcstate) {
      SweepProgress(s);
    } else {
      EndProgress(s);
    }
  }

  /** The phases in which `luaC_fullgc` stops. */
  ghost predicate CanStop(stop: set<GCState>) {
    Pause in stop || CallFin in stop
  }

  ghost function Left(s: State, stop: set<GCState>): (nat, nat) {
    if s.gcstate in stop then (0, 0) else (Rank(s.gcstate), Inner(s))
  }

  lemma Advance(s: State, stop: set<GCState>)
    requires Inv(s) && CanStop(stop) && s.gcstate !in stop
    ensures StepReady(s) && Inv(SingleStep(s))
    ensures var a, b := Left(SingleStep(s), stop), Left(s, stop); a.0 < b.0 || (a.0 == b.0 && a.1 < b.1)
  {
    CollectInv(s);
    AdvanceLeft(s, stop);
  }

  lemma AdvanceLeft(s: State, stop: set<GCState>)
    requires Lists(s) && StepReady(s) && CanStop(stop) && s.gcstate !in stop
    ensures var a, b := Left(SingleStep(s), stop), Left(s, stop); a.0 < b.0 || (a.0 == b.0 && a.1 < b.1)
  {
    StepProgress(s);
  }

  /** luaC_runtilstate (lgc.c:1101-1105): step until the phase is in `stop`. */
  ghost function RunUntil(s: State, stop: set<GCState>): (t: State)
    requires Inv(s) && CanStop(stop)
    ensures Inv(t) && t.gcstate in stop
    decreases Left(s, stop).0, Left(s, stop).1
  {
    if s.gcstate in stop then s
    else
      Advance(s, stop);
      RunUntil(SingleStep(s), stop)
  }

  // ---------- the graph does not change while no finalizer is called ----------

  /** From `s` to `t` nothing was allocated or stored, and only unreachable objects were freed. */
  ghost predicate GraphKept(s: State, t: State) {
    && (forall x :: Reachable(s, x) ==> Intact(s, t, x))
    && (forall x :: x in t.heap ==> Intact(s, t, x))
    && (forall x :: IsRoot(s, x) <==> IsRoot(t, x))
    && t.fixedgc == s.fixedgc
  }

  lemma PrefixReachable(s: State, p: seq<Ref>, i: nat)
    requires i < |p| && IsRoot(s, p[0]) && Chain(s.heap, p)
    ensures Reachable(s, p[i])
  {
    assert PathTo(s, p[..i + 1], p[i]);
  }

  lemma GraphKeptReach(s: State, t: State, x: Ref)
    requires GraphKept(s, t)
    ensures Reachable(s, x) <==> Reachable(t, x)
  {
    if Reachable(s, x) {
      var p :| PathTo(s, p, x);
      forall i | 0 <= i < |p| - 1 ensures p[i] in t.heap && p[i + 1] in t.heap[p[i]].Out() {
        PrefixReachable(s, p, i);
        assert t.heap[p[i]].Out() == s.heap[p[i]].Out();
      }
      assert PathTo(t, p, x);
    }
    if Reachable(t, x) {
      var p :| PathTo(t, p, x);
      forall i | 0 <= i < |p| - 1 ensures p[i] in s.heap && p[i + 1] in s.heap[p[i]].Out() {
        assert Intact(s, t, p[i]);
        assert t.heap[p[i]].Out() == s.heap[p[i]].Out();
      }
      assert PathTo(s, p, x);
    }
  }

  lemma GraphKeptTrans(s: State, t: State, u: State)
    requires GraphKept(s, t) && GraphKept(t, u)
    ensures GraphKept(s, u)
  {
    forall x | Reachable(s, x) ensures Intact(s, u, x) {
      GraphKeptReach(s, t, x);
      assert Intact(s, t, x) && Intact(t, u, x);
    }
    forall x | x in u.heap ensures Intact(s, u, x) {
      assert Intact(t, u, x);
      assert Intact(s, t, x);
    }
  }

  /** No finalizer will be called: an emergency collection, or one for which every object that has a
      finalizer is still in use. */
  ghost predicate NoFinalizers(s: State) {
    s.emergency || (s.tobefnz == [] && forall x :: x in s.finobj ==> Held(s, x))
  }

  /** What is strongly reachable stays so while the graph is kept. */
  lemma StrongKept(s: State, t: State, x: Ref)
    requires GraphKept(s, t) && t.mainthread == s.mainthread && t.running == s.running && t.globals == s.globals
    requires Held(s, x)
    ensures Held(t, x)
  {
    var p :| HeldPath(s, p, x);
    forall i | 0 <= i < |p| - 1 ensures p[i] in t.heap && p[i + 1] in t.heap[p[i]].Out() {
      assert IsRoot(s, p[0]);
      PrefixReachable(s, p, i);
      assert t.heap[p[i]].Out() == s.heap[p[i]].Out();
    }
    assert HeldPath(t, p, x);
  }

  /** From `s` to `t` no object was registered or found to be finalized. */
  ghost predicate FewerToFinalize(s: State, t: State) {
    && t.mainthread == s.mainthread && t.running == s.running && t.globals == s.globals && t.emergency == s.emergency
    && (forall x :: x in t.finobj ==> x in s.finobj)
    && (s.tobefnz == [] ==> t.tobefnz == [])
  }

  lemma NoFinalizersKept(s: State, t: State)
    requires GraphKept(s, t) && FewerToFinalize(s, t) && NoFinalizers(s)
    ensures NoFinalizers(t)
  {
    if !s.emergency {
      forall x | x in t.finobj ensures Held(t, x) { StrongKept(s, t, x); }
    }
  }

  lemma SweepGraph(s: State, count: nat)
    requires Base(s) && SweepPhase(s) && Sweeping?(s.gcstate)
    ensures NoDup(Ahead(SweepTarget(s), s.sweepgc)) && AllIn(s, Ahead(SweepTarget(s), s.sweepgc))
    ensures GraphKept(s, SweepSome(s, count)) && FewerToFinalize(s, SweepSome(s, count))
  {
    var done := SweepSomeEffect(s, count);
    var t := SweepSome(s, count);
    SweepAlive(s, t, done);
    forall x | Reachable(s, x) ensures Intact(s, t, x) {
      ReachableAlive(s, x);
    }
    SweepRoots(s, t, done);
    SweepFewer(s, t, done);
  }

  lemma SweepFewer(s: State, t: State, done: seq<Ref>)
    requires SweepEffect(s, t, done) && Sweeping?(s.gcstate)
    ensures FewerToFinalize(s, t)
  {
    NoMembers(SweepTarget(s), SweepTarget(t));
  }

  lemma NoMembers(l: seq<Ref>, m: seq<Ref>)
    requires forall x :: x in m ==> x in l
    ensures l == [] ==> m == []
  {
    assert m != [] ==> m[0] in m;
  }

  lemma SweepRoots(s: State, t: State, done: seq<Ref>)
    requires LiveClosed(s) && SweepEffect(s, t, done) && Sweeping?(s.gcstate)
    ensures forall x :: IsRoot(s, x) <==> IsRoot(t, x)
  {
    forall x | IsRoot(s, x) ensures IsRoot(t, x) {
      assert Alive(s, x);
    }
  }

  lemma SamePhaseGraph(s: State, t: State)
    requires t == s.(gcstate := t.gcstate, sweepgc := t.sweepgc, emergency := t.emergency) && LiveClosed(s)
    ensures GraphKept(s, t)
  {
    forall x | Reachable(s, x) ensures Intact(s, t, x) { ReachableAlive(s, x); }
  }

  lemma FewerTrans(s: State, t: State, u: State)
    requires FewerToFinalize(s, t) && FewerToFinalize(t, u)
    ensures FewerToFinalize(s, u)
  {
  }

  lemma SweepStepGraph(s: State)
    requires Inv(s) && Sweeping?(s.gcstate)
    ensures StepReady(s) && GraphKept(s, SingleStep(s)) && FewerToFinalize(s, SingleStep(s))
  {
    SweepSomeInv(s, GCSWEEPMAX);
    SweepGraph(s, GCSWEEPMAX);
    assert !Lost(s);
    SweepingStep(s);
    SweepStepParts(s, NextSweep(s.gcstate), NextCursor(s.gcstate));
    SweptGraph(s, if s.sweepgc != NoCursor then SweepSome(s, GCSWEEPMAX) else s, SingleStep(s));
  }

  lemma SweptGraph(s: State, s1: State, t: State)
    requires LiveClosed(s) && LiveClosed(s1) && (s1 == s || (GraphKept(s, s1) && FewerToFinalize(s, s1)))
    requires t == s1.(gcstate := t.gcstate, sweepgc := t.sweepgc)
    ensures GraphKept(s, t) && FewerToFinalize(s, t)
  {
    SamePhaseGraph(s1, t);
    if s1 != s { GraphKeptTrans(s, s1, t); }
  }

  lemma EnterSweepGraph(s: State)
    requires Base(s) && DeadOnAllgc(s)
    ensures NoDup(s.allgc) && AllIn(s, s.allgc) && GraphKept(s, EnterSweep(s)) && FewerToFinalize(s, EnterSweep(s))
  {
    var t := s.(gcstate := SwpAllGc, sweepgc := Header);
    SameBase(s, t);
    assert forall x :: Dead(t, x) ==> Dead(s, x);
    SamePhaseGraph(s, t);
    SweepGraph(t, 1);
    GraphKeptTrans(s, t, EnterSweep(s));
  }

  lemma SameGraphKept(s: State, t: State)
    requires SameGraph(s, t) && t.heap.Keys == s.heap.Keys && t.fixedgc == s.fixedgc && LiveClosed(s)
    requires forall x :: IsRoot(t, x) ==> IsRoot(s, x)
    ensures GraphKept(s, t)
  {
    forall x | Reachable(s, x) ensures Intact(s, t, x) { ReachableAlive(s, x); }
  }

  lemma AtomicGraph(s: State)
    requires Inv(s) && s.gcstate == Atomic
    ensures StepReady(s) && GraphKept(s, SingleStep(s))
  {
    AtomicFlipped(s);
    FlipGraph(s);
    FlipGrew(s);
    AtomicRoots(PropagateAll(s));
    FlippedGraph(s, AtomicStep(PropagateAll(s)));
  }

  lemma FlippedGraph(s: State, u: State)
    requires LiveClosed(s) && SameGraph(s, u) && u.heap.Keys == s.heap.Keys && u.fixedgc == s.fixedgc
    requires Base(u) && DeadOnAllgc(u) && forall x :: IsRoot(u, x) ==> IsRoot(s, x)
    ensures NoDup(u.allgc) && AllIn(u, u.allgc) && GraphKept(s, EnterSweep(u))
  {
    SameGraphKept(s, u);
    EnterSweepGraph(u);
    GraphKeptTrans(s, u, EnterSweep(u));
  }

  lemma AtomicRoots(s: State)
    requires AtomicReady(s)
    ensures forall x :: IsRoot(AtomicStep(s), x) ==> IsRoot(s, x)
  {
  }

  /** When everything strongly reachable is marked, nothing in use is taken for garbage. */
  lemma AtomicFinalizers(s: State)
    requires Inv(s) && s.gcstate == Atomic && NoFinalizers(s)
    ensures StepReady(s) && NoFinalizers(SingleStep(s))
  {
    AtomicGraph(s);
    DrainFinalizers(s);
    var p := PropagateAll(s);
    AtomicFewer(p);
    AtomicFlips(p);
    EnterSweepGraph(AtomicStep(p));
    if !s.emergency {
      FewerTrans(p, AtomicStep(p), SingleStep(s));
      FewerTrans(s, p, SingleStep(s));
      NoFinalizersKept(s, SingleStep(s));
    }
  }

  lemma DrainFinalizers(s: State)
    requires Base(s) && MarkPhase(s) && NoFinalizers(s)
    ensures Closed(s)
    ensures var p := PropagateAll(s);
      Base(p) && MarkPhase(p) && p.gray == [] && NoFinalizers(p) && FewerToFinalize(s, p)
  {
    PropagateAllPhase(s);
    GrewGraph(s, PropagateAll(s));
    NoFinalizersKept(s, PropagateAll(s));
  }

  lemma AtomicFewer(s: State)
    requires Base(s) && MarkPhase(s) && s.gray == [] && NoFinalizers(s)
    ensures AtomicReady(s) && (s.emergency || FewerToFinalize(s, AtomicStep(s)))
    ensures AtomicStep(s).emergency == s.emergency
  {
    AtomicIsReady(s);
    if !s.emergency {
      forall x | x in s.finobj ensures !IsWhite(MarkStrong(s), x) { StrongMarked(s, x); }
      NoneSeparated(s);
    }
  }

  lemma NoneSeparated(s: State)
    requires AtomicReady(s) && s.tobefnz == [] && forall x :: x in s.finobj ==> !IsWhite(MarkStrong(s), x)
    ensures FewerToFinalize(s, AtomicStep(s))
  {
    var v := MarkStrong(s);
    NoneWhiteLeft(v.heap, v.finobj);
    assert SeparateToBeFnz(v).tobefnz == [];
  }

  lemma NoneWhiteLeft(h: map<Ref, Obj>, l: seq<Ref>)
    requires forall x :: x in l ==> x in h && !h[x].colour.White?
    ensures Whites(h, l) == []
  {
    NoMembers([], Whites(h, l));
  }

  lemma StrongMarked(s: State, x: Ref)
    requires Base(s) && MarkPhase(s) && s.gray == [] && Held(s, x)
    ensures AtomicReady(s) && !IsWhite(MarkStrong(s), x)
  {
    StrongRootsMarked(s);
    StrongMarkedIn(s, MarkStrong(s), x);
  }

  lemma StrongMarkedIn(s: State, v: State, x: Ref)
    requires Grew(s.heap, v.heap) && v.gray == [] && Covered(v, {})
    requires (forall y :: HeldRoot(s, y) ==> !IsWhite(v, y)) && Held(s, x)
    ensures !IsWhite(v, x)
  {
    var p :| HeldPath(s, p, x);
    MarkedAlong(s, v, p, |p| - 1);
  }

  lemma StrongRootsMarked(s: State)
    requires Base(s) && MarkPhase(s) && s.gray == []
    ensures AtomicReady(s)
    ensures var v := MarkStrong(s); Grew(s.heap, v.heap) && Covered(v, {})
    ensures forall x :: HeldRoot(s, x) ==> !IsWhite(MarkStrong(s), x)
  {
    AtomicIsReady(s);
    RootsIn(s);
    StrongInv(s, s.heap.Keys);
    GrewMarked(s, MarkStrong(s), s.mainthread);
    RootsListed(s, MarkStrong(s));
  }

  lemma RootsListed(s: State, v: State)
    requires NoneWhite(v, [s.running] + s.globals) && !IsWhite(v, s.mainthread)
    ensures forall x :: HeldRoot(s, x) ==> !IsWhite(v, x)
  {
    forall x | HeldRoot(s, x) && x != s.mainthread ensures !IsWhite(v, x) {
      assert x in [s.running] + s.globals;
    }
  }

  lemma {:induction false} MarkedAlong(s: State, v: State, p: seq<Ref>, i: nat)
    requires i < |p| && Chain(s.heap, p) && Grew(s.heap, v.heap) && v.gray == [] && Covered(v, {}) && !IsWhite(v, p[0])
    ensures !IsWhite(v, p[i])
  {
    if i > 0 {
      MarkedAlong(s, v, p, i - 1);
      assert Darker(s.heap[p[i - 1]], v.heap[p[i - 1]]);
      assert OutMarked(v, p[i - 1]);
      assert p[i - 1 + 1] in s.heap[p[i - 1]].Out();
    }
  }

  lemma MarkGraph(s: State)
    requires Inv(s) && (s.gcstate == Pause || s.gcstate == Propagate)
    ensures StepReady(s) && GraphKept(s, SingleStep(s)) && FewerToFinalize(s, SingleStep(s))
  {
    MarkFrames(s);
    GrewGraph(s, SingleStep(s));
  }

  lemma GrewGraph(s: State, t: State)
    requires t == s.(heap := t.heap, gray := t.gray, grayagain := t.grayagain, gcstate := t.gcstate)
    requires Grew(s.heap, t.heap) && LiveClosed(s)
    ensures GraphKept(s, t) && FewerToFinalize(s, t)
  {
    GrewIntact(s, t);
    SameGraphKept(s, t);
  }

  /** The step does not call a finalizer. */
  predicate CallsNone(s: State) {
    s.gcstate == CallFin ==> s.tobefnz == [] || s.emergency
  }

  lemma EndGraph(s: State)
    requires Inv(s) && (s.gcstate == SwpEnd || s.gcstate == CallFin) && CallsNone(s)
    ensures StepReady(s) && GraphKept(s, SingleStep(s)) && FewerToFinalize(s, SingleStep(s))
  {
    CollectInv(s);
    SameGraphKept(s, SingleStep(s));
  }

  /** A step that calls no finalizer changes neither the roots nor the references of what survives. */
  lemma StepGraph(s: State)
    requires Inv(s) && CallsNone(s)
    ensures StepReady(s) && GraphKept(s, SingleStep(s))
  {
    if s.gcstate == Pause || s.gcstate == Propagate {
      MarkGraph(s);
    } else if s.gcstate == Atomic {
      AtomicGraph(s);
    } else if Sweeping?(s.gcstate) {
      SweepStepGraph(s);
    } else {
      EndGraph(s);
    }
  }

  /** If no finalizer is to be called, none will be. */
  lemma StepFinalizers(s: State)
    requires Inv(s) && NoFinalizers(s)
    ensures CallsNone(s) && StepReady(s) && NoFinalizers(SingleStep(s))
  {
    if s.gcstate == Atomic {
      AtomicFinalizers(s);
    } else {
      StepGraph(s);
      StepFewer(s);
      NoFinalizersKept(s, SingleStep(s));
    }
  }

  lemma StepFewer(s: State)
    requires Inv(s) && CallsNone(s) && s.gcstate != Atomic
    ensures StepReady(s) && FewerToFinalize(s, SingleStep(s))
  {
    if s.gcstate == Pause || s.gcstate == Propagate {
      MarkGraph(s);
    } else if Sweeping?(s.gcstate) {
      SweepStepGraph(s);
    } else {
      EndGraph(s);
    }
  }

  lemma {:induction false} RunGraph(s: State, stop: set<GCState>)
    requires Inv(s) && CanStop(stop) && NoFinalizers(s)
    ensures GraphKept(s, RunUntil(s, stop)) && NoFinalizers(RunUntil(s, stop))
    decreases Left(s, stop).0, Left(s, stop).1
  {
    SamePhaseGraph(s, s);
    if s.gcstate !in stop {
      Advance(s, stop);
      StepFinalizers(s);
      StepGraph(s);
      RunGraph(SingleStep(s), stop);
      GraphKeptTrans(s, SingleStep(s), RunUntil(s, stop));
    }
  }
}
