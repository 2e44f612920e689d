/** What a full collection does with finalizers.  It calls those that are due, old ones first, then those
    of the objects that it finds out of reach, in the order in which they were registered last; in an
    emergency it calls none, and puts the new ones behind the old.  The finalizers do nothing here but
    receive their object. */
module LuaDueFinalizers {
  import opened LuaHeap
  import opened LuaTricolour
  import opened LuaCollector
  import opened LuaCycle
  import opened LuaAtomic
  import opened LuaSweep
  import opened LuaFinalize
  import opened LuaSafety
  import opened LuaFullGc
  import opened LuaComplete
  import opened LuaKept

  // ---------- objects are handed over ----------

  /** From `s` to `t` the objects `c`, in this order, were put on the stack of the running thread; other
      references are as they were, and nothing reachable was freed. */
  ghost predicate Served(s: State, t: State, c: seq<Ref>) {
    && t.mainthread == s.mainthread && t.running == s.running && t.globals == s.globals && t.fixedgc == s.fixedgc
    && s.running in s.heap && s.running in t.heap
    && t.heap[s.running].meta == s.heap[s.running].meta && t.heap[s.running].refs == s.heap[s.running].refs + c
    && (forall x :: Reachable(s, x) ==> x in t.heap)
    && (forall x :: x in t.heap ==> x in s.heap && t.heap[x].kind == s.heap[x].kind)
    && (forall x :: x in t.heap && x != s.running ==> SameRefsOf(s.heap[x], t.heap[x]))
    && (forall x :: IsRoot(t, x) || x in c ==> IsRoot(s, x))
    && (forall x :: IsRoot(s, x) ==> IsRoot(t, x) || x in c)
  }

  lemma ServedOut(s: State, t: State, c: seq<Ref>, z: Ref, w: Ref)
    requires Served(s, t, c) && z in t.heap
    ensures w in t.heap[z].Out() <==> w in s.heap[z].Out() || (z == s.running && w in c)
  {
  }

  lemma RootReachable(s: State, x: Ref)
    requires IsRoot(s, x)
    ensures Reachable(s, x)
  {
    assert PathTo(s, [x], x);
  }

  lemma ReachOn(s: State, z: Ref, w: Ref)
    requires Reachable(s, z) && z in s.heap && w in s.heap[z].Out()
    ensures Reachable(s, w)
  {
    var p :| PathTo(s, p, z);
    var q := p + [w];
    forall i | 0 <= i < |q| - 1 ensures q[i] in s.heap && q[i + 1] in s.heap[q[i]].Out() {
      if i < |p| - 1 { assert q[i] == p[i] && q[i + 1] == p[i + 1]; }
    }
    assert PathTo(s, q, w);
  }

  lemma {:induction false} ServedAlong(s: State, t: State, c: seq<Ref>, p: seq<Ref>, i: nat)
    requires Served(s, t, c) && i < |p| && IsRoot(s, p[0]) && Chain(s.heap, p)
    ensures Reachable(t, p[i])
  {
    if i == 0 {
      if IsRoot(t, p[0]) {
        RootReachable(t, p[0]);
      } else {
        RootReachable(t, t.running);
        ServedOut(s, t, c, s.running, p[0]);
        ReachOn(t, t.running, p[0]);
      }
    } else {
      ServedAlong(s, t, c, p, i - 1);
      PrefixReachable(s, p, i - 1);
      var z, w := p[i - 1], p[i - 1 + 1];
      ServedOut(s, t, c, z, w);
      ReachOn(t, z, w);
    }
  }

  lemma {:induction false} ServedBack(s: State, t: State, c: seq<Ref>, p: seq<Ref>, i: nat)
    requires Served(s, t, c) && i < |p| && IsRoot(t, p[0]) && Chain(t.heap, p)
    ensures Reachable(s, p[i])
  {
    if i == 0 {
      RootReachable(s, p[0]);
    } else {
      ServedBack(s, t, c, p, i - 1);
      var z, w := p[i - 1], p[i - 1 + 1];
      ServedOut(s, t, c, z, w);
      if w in s.heap[z].Out() { ReachOn(s, z, w); } else { RootReachable(s, w); }
    }
  }

  lemma ServedReach(s: State, t: State, c: seq<Ref>, x: Ref)
    requires Served(s, t, c)
    ensures Reachable(s, x) <==> Reachable(t, x)
  {
    if Reachable(s, x) {
      var p :| PathTo(s, p, x);
      ServedAlong(s, t, c, p, |p| - 1);
    }
    if Reachable(t, x) {
      var p :| PathTo(t, p, x);
      ServedBack(s, t, c, p, |p| - 1);
    }
  }

  lemma ServedTrans(s: State, t: State, u: State, c: seq<Ref>, d: seq<Ref>)
    requires Served(s, t, c) && Served(t, u, d)
    ensures Served(s, u, c + d)
  {
    assert u.heap[s.running].refs == s.heap[s.running].refs + (c + d);
    forall x | Reachable(s, x) ensures x in u.heap { ServedReach(s, t, c, x); }
    forall x | x in u.heap && x != s.running ensures SameRefsOf(s.heap[x], u.heap[x]) {
      assert SameRefsOf(t.heap[x], u.heap[x]) && SameRefsOf(s.heap[x], t.heap[x]);
    }
    assert forall x :: x in c + d <==> x in c || x in d;
  }

  // ---------- who can be had ----------

  /** The same with the roots of LuaKept: what the finalizers that are due can hand over counts. */
  lemma {:induction false} AttainAlong(s: State, t: State, c: seq<Ref>, p: seq<Ref>, i: nat)
    requires Served(s, t, c) && s.tobefnz == c + t.tobefnz && i < |p| && AttainRoot(s, p[0]) && Chain(s.heap, p)
    ensures Attainable(t, p[i])
  {
    if i == 0 {
      if p[0] in c {
        RootAttainable(t, t.running);
        ServedOut(s, t, c, s.running, p[0]);
        AttainOn(t, t.running, p[0]);
      } else {
        RootAttainable(t, p[0]);
      }
    } else {
      AttainAlong(s, t, c, p, i - 1);
      PrefixReachable(s, p, i - 1);
      var z, w := p[i - 1], p[i - 1 + 1];
      ServedOut(s, t, c, z, w);
      AttainOn(t, z, w);
    }
  }

  lemma {:induction false} AttainBack(s: State, t: State, c: seq<Ref>, p: seq<Ref>, i: nat)
    requires Served(s, t, c) && s.tobefnz == c + t.tobefnz && i < |p| && AttainRoot(t, p[0]) && Chain(t.heap, p)
    ensures Attainable(s, p[i])
  {
    if i == 0 {
      RootAttainable(s, p[0]);
    } else {
      AttainBack(s, t, c, p, i - 1);
      var z, w := p[i - 1], p[i - 1 + 1];
      ServedOut(s, t, c, z, w);
      if w in s.heap[z].Out() { AttainOn(s, z, w); } else { RootAttainable(s, w); }
    }
  }

  lemma ServedAttain(s: State, t: State, c: seq<Ref>, x: Ref)
    requires Served(s, t, c) && s.tobefnz == c + t.tobefnz
    ensures Attainable(s, x) <==> Attainable(t, x)
  {
    if Attainable(s, x) {
      var p :| AttainPath(s, p, x);
      AttainAlong(s, t, c, p, |p| - 1);
    }
    if Attainable(t, x) {
      var p :| AttainPath(t, p, x);
      AttainBack(s, t, c, p, |p| - 1);
    }
  }

  // ---------- steps outside the atomic phase ----------

  predicate SameLists(s: State, t: State) {
    t.finobj == s.finobj && t.tobefnz == s.tobefnz && t.emergency == s.emergency
  }

  /** A sweep that finds nothing dead leaves the list as it is. */
  lemma {:induction false} SweepKeepsOrder(h: map<Ref, Obj>, cw: bool, pre: seq<Ref>, rest: seq<Ref>, count: nat)
    requires NoDup(rest) && forall x :: x in rest ==> x in h && h[x].colour != White(!cw)
    ensures var r := SweepList(h, cw, pre, rest, count); r.pre + r.rest == pre + rest
    decreases |rest|
  {
    if rest != [] && count != 0 {
      var h1 := h[rest[0] := h[rest[0]].(colour := White(cw))];
      HeadOff(rest);
      SweepKeepsOrder(h1, cw, pre + [rest[0]], rest[1..], count - 1);
      assert pre + [rest[0]] + rest[1..] == pre + rest;
    }
  }

  lemma SweepSameLists(s: State, count: nat)
    requires Lists(s) && Sweeping?(s.gcstate) && (s.gcstate != SwpAllGc ==> NoneDead(s))
    ensures NoDup(Ahead(SweepTarget(s), s.sweepgc)) && AllIn(s, Ahead(SweepTarget(s), s.sweepgc))
    ensures SameLists(s, SweepSome(s, count))
  {
    TargetFacts(s);
    PassedAhead(SweepTarget(s), s.sweepgc);
    if s.gcstate != SwpAllGc {
      assert forall x :: x in Ahead(SweepTarget(s), s.sweepgc) ==> !Dead(s, x);
      SweepKeepsOrder(s.heap, s.currentwhite, Passed(SweepTarget(s), s.sweepgc),
                      Ahead(SweepTarget(s), s.sweepgc), count);
    }
  }

  lemma SweepStepSameLists(s: State)
    requires Inv(s) && Sweeping?(s.gcstate)
    ensures StepReady(s) && SameLists(s, SingleStep(s))
  {
    CollectInv(s);
    assert !Lost(s);
    SweepSameLists(s, GCSWEEPMAX);
    SweepingStep(s);
    SweepStepParts(s, NextSweep(s.gcstate), NextCursor(s.gcstate));
  }

  lemma StepSameLists(s: State)
    requires Inv(s) && CallsNone(s) && s.gcstate != Atomic
    ensures StepReady(s) && SameLists(s, SingleStep(s))
  {
    if s.gcstate == Pause || s.gcstate == Propagate {
      MarkFrames(s);
    } else if Sweeping?(s.gcstate) {
      SweepStepSameLists(s);
    } else {
      CollectInv(s);
    }
  }

  lemma RunningThere(s: State)
    requires LiveClosed(s)
    ensures s.running in s.heap && Reachable(s, s.running)
  {
    RootReachable(s, s.running);
  }

  /** Where the graph is kept nothing was handed over. */
  lemma KeptServed(s: State, t: State)
    requires GraphKept(s, t) && LiveClosed(s)
    requires t.mainthread == s.mainthread && t.running == s.running && t.globals == s.globals
    ensures Served(s, t, [])
  {
    RunningThere(s);
    assert Intact(s, t, s.running);
    forall x | Reachable(s, x) ensures x in t.heap { assert Intact(s, t, x); }
    forall x | x in t.heap ensures x in s.heap && t.heap[x].kind == s.heap[x].kind && SameRefsOf(s.heap[x], t.heap[x]) {
      assert Intact(s, t, x);
    }
  }

  lemma StepKeptServed(s: State)
    requires Inv(s) && CallsNone(s) && s.gcstate != Atomic
    ensures StepReady(s) && Served(s, SingleStep(s), []) && SameLists(s, SingleStep(s))
  {
    StepGraph(s);
    StepFewer(s);
    StepSameLists(s);
    KeptServed(s, SingleStep(s));
  }

  /** A call hands over the first object that waits. */
  lemma CallServed(s: State)
    requires Inv(s) && s.gcstate == CallFin && s.tobefnz != [] && !s.emergency
    ensures StepReady(s) && Served(s, SingleStep(s), [s.tobefnz[0]])
    ensures var t := SingleStep(s);
      && t.finobj == s.finobj && s.tobefnz == [s.tobefnz[0]] + t.tobefnz
      && t.emergency == s.emergency && t.gcstate == CallFin
  {
    CollectInv(s);
    RunningIn(s);
    CalledServed(s);
  }

  lemma CalledServed(s: State)
    requires LiveClosed(s) && Lists(s) && s.tobefnz != [] && s.tobefnz[0] in s.heap && s.running in s.heap
    ensures Served(s, CallFinalizer(s), [s.tobefnz[0]])
  {
    var t := CallFinalizer(s);
    var o := s.tobefnz[0];
    assert s.tobefnz == [o] + s.tobefnz[1..];
    assert o != s.running;
    forall x | Reachable(s, x) ensures x in t.heap { ReachableAlive(s, x); }
  }

  // ---------- up to the pause, outside the marking phases ----------

  lemma ServedHere(s: State)
    requires LiveClosed(s)
    ensures Served(s, s, [])
  {
    SamePhaseGraph(s, s);
    KeptServed(s, s);
  }

  /** The rest of a cycle whose marking is over: all that waits is handed over, or nothing in an emergency. */
  ghost predicate Finished(s: State, t: State) {
    && t.finobj == s.finobj && t.emergency == s.emergency
    && if s.emergency then Served(s, t, []) && t.tobefnz == s.tobefnz else Served(s, t, s.tobefnz) && t.tobefnz == []
  }

  lemma StepLater(s: State)
    requires Inv(s) && !KeepInvariant(s.gcstate) && s.gcstate != Pause
    ensures StepReady(s) && !KeepInvariant(SingleStep(s).gcstate)
    ensures SingleStep(s).gcstate == Pause ==> s.gcstate == CallFin && CallsNone(s)
  {
    CollectInv(s);
    StepProgress(s);
  }

  lemma {:induction false} RunFinishes(s: State)
    requires Inv(s) && !KeepInvariant(s.gcstate) && s.gcstate != Pause
    ensures Finished(s, RunUntil(s, {Pause}))
    decreases Left(s, {Pause}).0, Left(s, {Pause}).1
  {
    Advance(s, {Pause});
    StepLater(s);
    var t := SingleStep(s);
    if s.gcstate == CallFin && s.tobefnz != [] && !s.emergency {
      CallServed(s);
      RunFinishes(t);
      ServedTrans(s, t, RunUntil(t, {Pause}), [s.tobefnz[0]], t.tobefnz);
    } else {
      StepKeptServed(s);
      if t.gcstate == Pause {
        assert RunUntil(t, {Pause}) == t;
      } else {
        RunFinishes(t);
        FinishedOn(s, t, RunUntil(t, {Pause}));
      }
    }
  }

  lemma FinishedOn(s: State, t: State, u: State)
    requires Served(s, t, []) && SameLists(s, t) && Finished(t, u)
    ensures Finished(s, u)
  {
    var c := if s.emergency then [] else s.tobefnz;
    ServedTrans(s, t, u, [], c);
    assert [] + c == c;
  }

  // ---------- marking finds exactly what can be had ----------

  /** Nothing outside `r` is marked, and the roots of the mark phase lie inside. */
  ghost predicate MarkWithin(s: State, r: set<Ref>) {
    && KeepInvariant(s.gcstate) && EdgeClosed(s, r) && Sound(s, r)
    && forall x :: AttainRoot(s, x) ==> x in r
  }

  ghost function Attained(s: State): set<Ref> {
    set x | x in s.heap && (Attainable(s, x) || x in s.fixedgc)
  }

  lemma AttainedClosed(s: State)
    requires Inv(s) && s.gcstate == Pause
    ensures EdgeClosed(s, Attained(s)) && Sound(s, Attained(s)) && forall x :: AttainRoot(s, x) ==> x in Attained(s)
  {
    RootsIn(s);
    forall x | AttainRoot(s, x) ensures x in Attained(s) {
      RootAttainable(s, x);
      assert IsRoot(s, x) && Alive(s, x);
    }
    forall x | x in s.heap && x in Attained(s) ensures forall y :: y in s.heap[x].Out() ==> y in Attained(s) {
      AttainedOut(s, x);
    }
  }

  lemma AttainedOut(s: State, x: Ref)
    requires Inv(s) && s.gcstate == Pause && x in Attained(s)
    ensures forall y :: y in s.heap[x].Out() ==> y in Attained(s)
  {
    if Attainable(s, x) {
      assert !Dead(s, x);
      assert Alive(s, x) && LiveOut(s, x);
      forall y | y in s.heap[x].Out() ensures y in Attained(s) { AttainOn(s, x, y); }
    } else {
      FixedLeaf(s, x);
    }
  }

  lemma StartsWithin(s: State)
    requires Inv(s) && s.gcstate == Pause
    ensures StepReady(s) && Inv(SingleStep(s)) && MarkWithin(SingleStep(s), Attained(s))
    ensures SingleStep(s).gcstate == Propagate
  {
    CollectInv(s);
    AttainedClosed(s);
    PauseStartable(s);
    StartMarksWithin(s, Attained(s));
  }

  lemma StartMarksWithin(s: State, r: set<Ref>)
    requires Startable(s) && EdgeClosed(s, r) && Sound(s, r) && StepReady(s)
    requires forall x :: AttainRoot(s, x) ==> x in r
    ensures MarkWithin(SingleStep(s), r) && SingleStep(s).gcstate == Propagate
  {
    RestartBase(s);
    assert InSet(RootList(s), r) by { assert forall x :: x in RootList(s) ==> AttainRoot(s, x); }
    RootsWithinMarks(s, r);
    WithinPhase(RestartCollection(s), Propagate, r);
    SameRoots(s, SingleStep(s), r);
  }

  lemma SameRoots(s: State, t: State, r: set<Ref>)
    requires t == s.(heap := t.heap, gray := t.gray, grayagain := t.grayagain, gcstate := t.gcstate)
    requires forall x :: AttainRoot(s, x) ==> x in r
    ensures forall x :: AttainRoot(t, x) ==> x in r
  {
    assert forall x :: AttainRoot(t, x) ==> AttainRoot(s, x);
  }

  lemma PropagatesWithin(s: State, r: set<Ref>)
    requires Inv(s) && s.gcstate == Propagate && MarkWithin(s, r)
    ensures StepReady(s) && Inv(SingleStep(s)) && MarkWithin(SingleStep(s), r)
  {
    CollectInv(s);
    MarkFrames(s);
    PropagatePhase(s);
    PropagateMarkInv(s, Elems(s.grayagain), r);
    WithinPhase(PropagateMark(s), SingleStep(s).gcstate, r);
  }

  lemma DrainsWithin(s: State, r: set<Ref>)
    requires Base(s) && MarkPhase(s) && MarkWithin(s, r)
    ensures Closed(s)
    ensures var p := PropagateAll(s);
      && Base(p) && MarkPhase(p) && p.gray == [] && Grew(s.heap, p.heap) && MarkInv(p, Elems(p.grayagain), r)
      && p == s.(heap := p.heap, gray := p.gray, grayagain := p.grayagain)
  {
    PropagateAllPhase(s);
    PropagateAllInv(s, Elems(s.grayagain), r);
    LiveIsClosed(PropagateAll(s));
  }

  /** In the state in which the atomic phase decides who is garbage, nothing outside `r` is marked. */
  lemma StrongWithin(p: State, r: set<Ref>)
    requires Base(p) && MarkPhase(p) && p.gray == [] && MarkInv(p, Elems(p.grayagain), r)
    requires InSet([p.running] + p.globals, r)
    ensures AtomicReady(p) && Sound(MarkStrong(p), r)
  {
    AtomicIsReady(p);
    StrongInv(p, r);
  }

  /** What can be had is marked then. */
  lemma AttainedMarked(p: State, x: Ref)
    requires Base(p) && MarkPhase(p) && p.gray == [] && Attainable(p, x)
    ensures AtomicReady(p) && !IsWhite(MarkStrong(p), x)
  {
    StrongRootsMarked(p);
    var v := MarkStrong(p);
    forall y | y in p.tobefnz ensures !IsWhite(v, y) { GrewMarked(p, v, y); }
    AttainedMarkedIn(p, v, x);
  }

  lemma AttainedMarkedIn(p: State, v: State, x: Ref)
    requires Attainable(p, x) && Grew(p.heap, v.heap) && v.gray == [] && Covered(v, {})
    requires forall y :: AttainRoot(p, y) ==> !IsWhite(v, y)
    ensures !IsWhite(v, x)
  {
    var q :| AttainPath(p, q, x);
    MarkedAlong(p, v, q, |q| - 1);
  }

  /** Of the list `l`, `d` are the members outside `a` and `used` the others, both in the order of `l`. */
  ghost predicate Parted(l: seq<Ref>, a: set<Ref>, d: seq<Ref>, used: seq<Ref>) {
    && (forall x :: x in d <==> x in l && x !in a) && InOrder(l, d)
    && (forall x :: x in used <==> x in l && x in a) && InOrder(l, used)
  }

  lemma PartedHere(p: State, r: set<Ref>) returns (d: seq<Ref>)
    requires Base(p) && MarkPhase(p) && p.gray == [] && MarkInv(p, Elems(p.grayagain), r)
    requires InSet([p.running] + p.globals, r) && forall x :: x in r && x in p.finobj ==> Attainable(p, x)
    ensures AtomicReady(p) && Parted(p.finobj, r, d, AtomicStep(p).finobj) && AtomicStep(p).tobefnz == p.tobefnz + d
  {
    StrongWithin(p, r);
    var v := MarkStrong(p);
    d := Whites(v.heap, v.finobj);
    FilterOrder(v.heap, v.finobj);
    forall x | x in p.finobj ensures !v.heap[x].colour.White? <==> x in r {
      if x in r { AttainedMarked(p, x); }
      assert IsWhite(v, x) <==> v.heap[x].colour.White?;
    }
  }

  // ---------- the new cycle ----------

  /** The collector has gone on from `s0` with the marking, and finds nothing but `r`: what could be had
      in `s0`. */
  ghost predicate Marking(s0: State, s: State, r: set<Ref>) {
    Inv(s) && MarkWithin(s, r) && r == Attained(s0) && Served(s0, s, []) && SameLists(s0, s)
  }

  /** The atomic phase and the sweep that it starts. */
  lemma AtomicParts(s0: State, s: State, r: set<Ref>) returns (d: seq<Ref>)
    requires Marking(s0, s, r) && s.gcstate == Atomic
    ensures StepReady(s) && Inv(SingleStep(s)) && Served(s, SingleStep(s), [])
    ensures var t := SingleStep(s);
      && Parted(s.finobj, r, d, t.finobj) && t.tobefnz == s.tobefnz + d && t.emergency == s.emergency
      && t.gcstate == SwpAllGc
  {
    CollectInv(s);
    AtomicServed(s);
    AtomicFlipped(s);
    NotFixed(s);
    d := DueHere(s0, s, r);
    EnterSameLists(AtomicStep(PropagateAll(s)));
    assert SingleStep(s) == EnterSweep(AtomicStep(PropagateAll(s)));
  }

  lemma NotFixed(s: State)
    requires Lists(s)
    ensures forall x :: x in s.finobj ==> x !in s.fixedgc
  {
  }

  /** What the atomic phase finds out of reach. */
  lemma DueHere(s0: State, s: State, r: set<Ref>) returns (d: seq<Ref>)
    requires Base(s) && MarkPhase(s) && MarkWithin(s, r) && r == Attained(s0) && Served(s0, s, []) && SameLists(s0, s)
    requires forall x :: x in s.finobj ==> x !in s.fixedgc
    ensures Closed(s) && GrayList(s, s.gray) && AtomicReady(PropagateAll(s))
    ensures var f := AtomicStep(PropagateAll(s));
      Parted(s.finobj, r, d, f.finobj) && f.tobefnz == s.tobefnz + d && f.emergency == s.emergency
  {
    DrainsWithin(s, r);
    var p := PropagateAll(s);
    DrainAttained(s0, s, p, r);
    RootsInside(s, p, r);
    d := PartedHere(p, r);
  }

  lemma DrainAttained(s0: State, s: State, p: State, r: set<Ref>)
    requires LiveClosed(s) && Grew(s.heap, p.heap) && p == s.(heap := p.heap, gray := p.gray, grayagain := p.grayagain)
    requires r == Attained(s0) && Served(s0, s, []) && SameLists(s0, s) && forall x :: x in s.finobj ==> x !in s.fixedgc
    ensures forall x :: x in r && x in p.finobj ==> Attainable(p, x)
  {
    DrainServed(s, p);
    ServedTrans(s0, s, p, [], []);
    forall x | x in r && x in p.finobj ensures Attainable(p, x) { ServedAttain(s0, p, [], x); }
  }

  lemma RootsInside(s: State, p: State, r: set<Ref>)
    requires p.running == s.running && p.globals == s.globals && forall x :: AttainRoot(s, x) ==> x in r
    ensures InSet([p.running] + p.globals, r)
  {
    assert forall x :: x in [p.running] + p.globals ==> AttainRoot(s, x);
  }

  lemma AtomicServed(s: State)
    requires Inv(s) && s.gcstate == Atomic
    ensures StepReady(s) && Served(s, SingleStep(s), [])
  {
    AtomicGraph(s);
    AtomicFlipped(s);
    SameHolders(s, AtomicStep(PropagateAll(s)));
    KeptServed(s, SingleStep(s));
  }

  lemma SameHolders(s: State, f: State)
    requires Closed(s) && GrayList(s, s.gray) && AtomicReady(PropagateAll(s)) && f == AtomicStep(PropagateAll(s))
    requires NoDup(f.allgc) && AllIn(f, f.allgc)
    ensures var t := EnterSweep(f); t.mainthread == s.mainthread && t.running == s.running && t.globals == s.globals
  {
  }

  lemma DrainServed(s: State, p: State)
    requires LiveClosed(s) && Grew(s.heap, p.heap) && p == s.(heap := p.heap, gray := p.gray, grayagain := p.grayagain)
    ensures Served(s, p, [])
  {
    GrewGraph(s, p);
    KeptServed(s, p);
  }

  lemma EnterSameLists(f: State)
    requires Lists(f)
    ensures NoDup(f.allgc) && AllIn(f, f.allgc) && SameLists(f, EnterSweep(f)) && EnterSweep(f).gcstate == SwpAllGc
  {
    SweepSameLists(f.(gcstate := SwpAllGc, sweepgc := Header), 1);
  }

  lemma {:induction false} SweepsOn(s: State)
    requires Inv(s) && !KeepInvariant(s.gcstate) && s.gcstate != Pause
    ensures Served(s, RunUntil(s, {CallFin}), []) && SameLists(s, RunUntil(s, {CallFin}))
    decreases Left(s, {CallFin}).0, Left(s, {CallFin}).1
  {
    if s.gcstate == CallFin {
      ServedHere(s);
    } else {
      Advance(s, {CallFin});
      StepLater(s);
      StepKeptServed(s);
      SweepsOn(SingleStep(s));
      ServedTrans(s, SingleStep(s), RunUntil(SingleStep(s), {CallFin}), [], []);
    }
  }

  /** From the marking to the phase of the finalizers. */
  ghost predicate CycleParted(s: State, q: State, r: set<Ref>, d: seq<Ref>) {
    Served(s, q, []) && Parted(s.finobj, r, d, q.finobj) && q.tobefnz == s.tobefnz + d && q.emergency == s.emergency
  }

  lemma PartedThen(s0: State, s: State, t: State, q: State, r: set<Ref>, d: seq<Ref>)
    requires Served(s0, s, []) && SameLists(s0, s) && CycleParted(s, t, r, d) && Served(t, q, []) && SameLists(t, q)
    ensures CycleParted(s0, q, r, d)
  {
    ServedTrans(s0, s, t, [], []);
    ServedTrans(s0, t, q, [], []);
  }

  lemma {:induction false} CycleParts(s0: State, s: State, r: set<Ref>) returns (d: seq<Ref>)
    requires Marking(s0, s, r)
    ensures CycleParted(s0, RunUntil(s, {CallFin}), r, d)
    decreases Left(s, {CallFin}).0, Left(s, {CallFin}).1
  {
    Advance(s, {CallFin});
    if s.gcstate == Atomic {
      d := AtomicEnds(s0, s, r);
    } else {
      MarksOn(s0, s, r);
      d := CycleParts(s0, SingleStep(s), r);
    }
  }

  lemma AtomicEnds(s0: State, s: State, r: set<Ref>) returns (d: seq<Ref>)
    requires Marking(s0, s, r) && s.gcstate == Atomic && StepReady(s) && Inv(SingleStep(s))
    ensures CycleParted(s0, RunUntil(SingleStep(s), {CallFin}), r, d)
  {
    var t;
    t, d := AtomicParted(s0, s, r);
    var q := SweepEnds(t);
    PartedThen(s0, s, t, q, r, d);
  }

  lemma AtomicParted(s0: State, s: State, r: set<Ref>) returns (t: State, d: seq<Ref>)
    requires Marking(s0, s, r) && s.gcstate == Atomic
    ensures StepReady(s) && t == SingleStep(s) && Inv(t) && t.gcstate == SwpAllGc && CycleParted(s, t, r, d)
  {
    d := AtomicParts(s0, s, r);
    t := SingleStep(s);
  }

  lemma SweepEnds(t: State) returns (q: State)
    requires Inv(t) && t.gcstate == SwpAllGc
    ensures q == RunUntil(t, {CallFin}) && Served(t, q, []) && SameLists(t, q)
  {
    SweepsOn(t);
    q := RunUntil(t, {CallFin});
  }

  lemma MarksOn(s0: State, s: State, r: set<Ref>)
    requires Marking(s0, s, r) && s.gcstate == Propagate
    ensures StepReady(s) && Marking(s0, SingleStep(s), r)
  {
    PropagatesWithin(s, r);
    StepKeptServed(s);
    ServedTrans(s0, s, SingleStep(s), [], []);
  }

  lemma NewCycleParts(p: State) returns (d: seq<Ref>)
    requires Inv(p) && p.gcstate == Pause
    ensures CycleParted(p, RunUntil(RunUntil(p, NotPause), {CallFin}), Attained(p), d)
  {
    FirstStep(p);
    StartsWithin(p);
    StepKeptServed(p);
    d := CycleParts(p, SingleStep(p), Attained(p));
  }

  // ---------- luaC_fullgc ----------

  lemma PrepareServed(s: State, isemergency: bool)
    requires Inv(s)
    ensures var t := Prepare(s, isemergency);
      && Served(s, t, []) && t.finobj == s.finobj && t.tobefnz == s.tobefnz && t.emergency == isemergency
      && !KeepInvariant(t.gcstate) && (s.gcstate == Pause ==> t.gcstate == Pause)
  {
    EmergencyInv(s, isemergency);
    var s1 := s.(emergency := isemergency);
    EmergencyServed(s, isemergency);
    if KeepInvariant(s1.gcstate) {
      EnterServed(s1);
      ServedTrans(s, s1, EnterSweep(s1), [], []);
    }
  }

  lemma EmergencyServed(s: State, on: bool)
    requires Inv(s)
    ensures Served(s, s.(emergency := on), [])
  {
    var t := s.(emergency := on);
    SamePhaseGraph(s, t);
    KeptServed(s, t);
  }

  lemma EnterServed(s: State)
    requires Base(s) && NoneDead(s)
    ensures NoDup(s.allgc) && AllIn(s, s.allgc) && Served(s, EnterSweep(s), []) && SameLists(s, EnterSweep(s))
    ensures EnterSweep(s).gcstate == SwpAllGc
  {
    EnterSweepGraph(s);
    EnterSameLists(s);
    KeptServed(s, EnterSweep(s));
  }

  /** Up to the pause before the new cycle. */
  lemma FirstServed(s: State, isemergency: bool) returns (c: seq<Ref>)
    requires Inv(s)
    ensures var p := RunUntil(Prepare(s, isemergency), {Pause});
      && Served(s, p, c) && s.tobefnz == c + p.tobefnz && p.finobj == s.finobj && p.emergency == isemergency
      && (isemergency ==> c == [])
  {
    PrepareServed(s, isemergency);
    var s1 := Prepare(s, isemergency);
    if s1.gcstate == Pause {
      c := [];
      assert RunUntil(s1, {Pause}) == s1;
    } else {
      RunFinishes(s1);
      c := if isemergency then [] else s.tobefnz;
      FinishedServed(s, s1, RunUntil(s1, {Pause}), c);
    }
  }

  lemma FinishedServed(s: State, s1: State, p: State, c: seq<Ref>)
    requires Served(s, s1, []) && s1.tobefnz == s.tobefnz && Finished(s1, p)
    requires c == if s1.emergency then [] else s.tobefnz
    ensures Served(s, p, c) && s.tobefnz == c + p.tobefnz && p.finobj == s1.finobj && p.emergency == s1.emergency
  {
    ServedTrans(s, s1, p, [], c);
    assert [] + c == c;
  }

  /** What a full collection leaves of the three lists, and what it hands over. */
  ghost predicate Collected(s: State, t: State, isemergency: bool, a: set<Ref>, d: seq<Ref>) {
    && Parted(s.finobj, a, d, t.finobj)
    && t.tobefnz == (if isemergency then s.tobefnz + d else [])
    && Served(s, t, Handed(s, isemergency, d))
  }

  function Handed(s: State, isemergency: bool, d: seq<Ref>): seq<Ref> {
    if isemergency then [] else s.tobefnz + d
  }

  lemma CycleCollected(s: State, p: State, q: State, t: State, c: seq<Ref>, a: set<Ref>, d: seq<Ref>)
    requires Served(s, p, c) && s.tobefnz == c + p.tobefnz && p.finobj == s.finobj && (p.emergency ==> c == [])
    requires CycleParted(p, q, a, d) && Finished(q, t)
    ensures Collected(s, t, p.emergency, a, d)
  {
    ServedTrans(s, p, q, c, []);
    assert c + [] == c;
    if p.emergency {
      ServedTrans(s, q, t, c, []);
    } else {
      ServedTrans(s, q, t, c, q.tobefnz);
      assert c + (p.tobefnz + d) == s.tobefnz + d;
    }
  }

  lemma AttainedSame(s: State, p: State, c: seq<Ref>)
    requires Served(s, p, c) && s.tobefnz == c + p.tobefnz && Lists(s) && Lists(p)
    ensures forall x :: x in s.heap && x in Attained(p) ==> Attainable(s, x) || x in s.fixedgc
    ensures forall x :: x in p.heap && Attainable(s, x) ==> x in Attained(p)
  {
    forall x ensures Attainable(s, x) <==> Attainable(p, x) { ServedAttain(s, p, c, x); }
  }

  lemma FullGcCollects(s: State, isemergency: bool) returns (p: State, c: seq<Ref>, d: seq<Ref>)
    requires Inv(s)
    ensures p == RunUntil(Prepare(s, isemergency), {Pause}) && Served(s, p, c) && s.tobefnz == c + p.tobefnz
    ensures p.finobj == s.finobj && Inv(p)
    ensures Collected(s, FullGc(s, isemergency), isemergency, Attained(p), d)
  {
    c := FirstServed(s, isemergency);
    p := RunUntil(Prepare(s, isemergency), {Pause});
    var q, t;
    q, t, d := LastCollects(p);
    CycleCollected(s, p, q, t, c, Attained(p), d);
    CalmCollected(s, t, isemergency, Attained(p), d);
  }

  lemma LastCollects(p: State) returns (q: State, t: State, d: seq<Ref>)
    requires Inv(p) && p.gcstate == Pause
    ensures q == RunUntil(RunUntil(p, NotPause), {CallFin}) && t == RunUntil(q, {Pause})
    ensures CycleParted(p, q, Attained(p), d) && Finished(q, t)
  {
    q, d := NewCycle(p);
    t := Finish(q);
  }

  lemma NewCycle(p: State) returns (q: State, d: seq<Ref>)
    requires Inv(p) && p.gcstate == Pause
    ensures q == RunUntil(RunUntil(p, NotPause), {CallFin}) && Inv(q) && q.gcstate == CallFin
    ensures CycleParted(p, q, Attained(p), d)
  {
    d := NewCycleParts(p);
    q := RunUntil(RunUntil(p, NotPause), {CallFin});
  }

  lemma Finish(q: State) returns (t: State)
    requires Inv(q) && q.gcstate == CallFin
    ensures t == RunUntil(q, {Pause}) && Finished(q, t)
  {
    RunFinishes(q);
    t := RunUntil(q, {Pause});
  }

  lemma CalmCollected(s: State, t: State, isemergency: bool, a: set<Ref>, d: seq<Ref>)
    requires Collected(s, t, isemergency, a, d)
    ensures Collected(s, t.(emergency := false), isemergency, a, d)
  {
    var u := t.(emergency := false);
    assert forall x :: IsRoot(u, x) <==> IsRoot(t, x);
  }

  /** Every object that waited or was found out of reach is handed over once, and an ordinary object again. */
  lemma HandedOver(s: State, t: State, isemergency: bool, a: set<Ref>, d: seq<Ref>)
    requires Lists(s) && Lists(t) && Collected(s, t, isemergency, a, d)
    ensures NoDup(s.tobefnz + d)
    ensures !isemergency ==> forall x :: x in s.tobefnz + d ==> x in t.allgc && x in t.heap && !t.heap[x].finalized
  {
    OrderNoDup(s.finobj, d);
    NoDupConcat(s.tobefnz, d);
    if !isemergency {
      forall x | x in s.tobefnz + d ensures x in t.allgc {
        assert x in s.tobefnz || x in d;
        RootReachable(s, x);
      }
    }
  }

  lemma NeededServed(s: State, p: State, c: seq<Ref>)
    requires Served(s, p, c)
    ensures Needed(p) <= Needed(s)
  {
    forall x | x in Needed(p) ensures x in Needed(s) { ServedReach(s, p, c, x); }
  }

  lemma KeepsNeeded(s: State, t: State, c: seq<Ref>)
    requires Served(s, t, c) && Lists(t)
    ensures Needed(s) <= t.heap.Keys
  {
  }

  /** All that a full collection keeps: what could be reached before it, and the fixed strings. */
  lemma FullGcKeeps(s: State, p: State, isemergency: bool, c: seq<Ref>)
    requires Inv(s) && p == RunUntil(Prepare(s, isemergency), {Pause}) && Served(s, p, c)
    requires Needed(s) <= FullGc(s, isemergency).heap.Keys
    ensures FullGc(s, isemergency).heap.Keys == Needed(s)
  {
    FullGcWithin(s, p, isemergency);
    NeededServed(s, p, c);
  }

  lemma FullGcWithin(s: State, p: State, isemergency: bool)
    requires Inv(s) && p == RunUntil(Prepare(s, isemergency), {Pause})
    ensures FullGc(s, isemergency).heap.Keys <= Needed(p)
  {
    LastKeeps(p);
  }

  lemma LastKeeps(p: State)
    requires Inv(p) && p.gcstate == Pause
    ensures RunUntil(RunUntil(RunUntil(p, NotPause), {CallFin}), {Pause}).heap.Keys <= Needed(p)
  {
    CycleWithinNeeded(p);
    FinalizersKeepAll(RunUntil(RunUntil(p, NotPause), {CallFin}));
  }

  /** What was found out of reach, said of the state before the collection. */
  lemma PartedBefore(s: State, p: State, t: State, c: seq<Ref>, d: seq<Ref>)
    requires Inv(s) && Lists(p) && Served(s, p, c) && s.tobefnz == c + p.tobefnz && p.finobj == s.finobj
    requires Parted(s.finobj, Attained(p), d, t.finobj)
    ensures forall x :: x in d <==> x in s.finobj && !Attainable(s, x)
    ensures forall x :: x in t.finobj <==> x in s.finobj && Attainable(s, x)
  {
    AttainedSame(s, p, c);
  }

  /** A full collection, started in any phase with any finalizers due.  It keeps exactly what could be
      reached, references included.  The registered objects that the program could not get hold of any
      more are found, in the order of `finobj`; the others stay registered.  Unless it is an emergency,
      those that waited and then the new ones are handed to the running thread, each once, and nothing
      waits afterwards; in an emergency nothing is handed over, and the new ones wait behind the old. */
  lemma FullGcFinalizers(s: State, isemergency: bool) returns (d: seq<Ref>)
    requires Inv(s)
    ensures InOrder(s.finobj, d) && forall x :: x in d <==> x in s.finobj && !Attainable(s, x)
    ensures var t := FullGc(s, isemergency);
      && t.heap.Keys == Needed(s) && InOrder(s.finobj, t.finobj) && !t.emergency
      && (forall x :: x in t.finobj <==> x in s.finobj && Attainable(s, x))
      && Served(s, t, if isemergency then [] else s.tobefnz + d)
      && t.tobefnz == if isemergency then s.tobefnz + d else []
    ensures NoDup(s.tobefnz + d)
    ensures !isemergency ==>
      var t := FullGc(s, false); forall x :: x in s.tobefnz + d ==> x in t.allgc && x in t.heap && !t.heap[x].finalized
  {
    var p, c;
    p, c, d := FullGcCollects(s, isemergency);
    KeepsNeeded(s, FullGc(s, isemergency), Handed(s, isemergency, d));
    FullGcKeeps(s, p, isemergency, c);
    PartedBefore(s, p, FullGc(s, isemergency), c, d);
    HandedOver(s, FullGc(s, isemergency), isemergency, Attained(p), d);
  }
}
