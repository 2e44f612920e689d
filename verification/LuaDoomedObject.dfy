/** The cycle after a harmful loss.  It never looks inside the objects that were left behind, so what
    only they lead to stays white, is dead after the flip, and is swept while they still point to it. */
module LuaDoomedObject {
  import opened LuaHeap
  import opened LuaTricolour
  import opened LuaCollector
  import opened LuaCycle
  import opened LuaSweep
  import opened LuaFinalize
  import opened LuaSafety
  import opened LuaFullGc
  import opened LuaComplete
  import opened LuaLostCursor
  import opened LuaKept
  import opened LuaCut
  import opened LuaQuietLoss
  import opened LuaPace
  import opened LuaHarmfulLoss
  import opened LuaExposedObject

  /** An object that the program can reach is not there any more. */
  ghost predicate Unsafe(s: State) {
    exists x :: Reachable(s, x) && x !in s.heap
  }

  /** The main thread holds `b`, which holds `y`. */
  predicate Link(s: State, b: Ref, y: Ref) {
    && s.mainthread in s.heap && b in s.heap
    && b in s.heap[s.mainthread].Out() && y in s.heap[b].Out()
  }

  lemma LinkUnsafe(s: State, b: Ref, y: Ref)
    requires Link(s, b, y) && y !in s.heap
    ensures Unsafe(s)
  {
    assert PathTo(s, [s.mainthread, b, y], y);
    assert Reachable(s, y);
  }

  ghost predicate LedPath(s: State, q: seq<Ref>, x: Ref) {
    && |q| > 0 && q[0] in s.finobj && q[|q| - 1] == x
    && forall i :: 0 <= i < |q| - 1 ==> q[i] in s.heap && !Stale(s, q[i]) && q[i + 1] in s.heap[q[i]].Out()
  }

  /** A registered object leads to `x`, and not by way of stale objects. */
  ghost predicate LedTo(s: State, x: Ref) {
    exists q :: LedPath(s, q, x)
  }

  ghost function Led(s: State): set<Ref> {
    set x | x in s.heap && LedTo(s, x)
  }

  lemma LedOn(s: State, z: Ref, w: Ref)
    requires LedTo(s, z) && z in s.heap && !Stale(s, z) && w in s.heap[z].Out()
    ensures LedTo(s, w)
  {
    var q :| LedPath(s, q, z);
    var r := q + [w];
    forall i | 0 <= i < |r| - 1 ensures r[i] in s.heap && !Stale(s, r[i]) && r[i + 1] in s.heap[r[i]].Out() {
      if i < |q| - 1 { assert r[i] == q[i] && r[i + 1] == q[i + 1]; }
    }
    assert LedPath(s, r, w);
  }

  lemma LedHere(s: State, x: Ref)
    requires x in s.finobj
    ensures LedTo(s, x)
  {
    assert LedPath(s, [x], x);
  }

  /** All that the next cycle can mark. */
  ghost function Markable(s: State): set<Ref> {
    {s.mainthread} + StaleSet(s) + Elems(s.fixedgc) + Led(s)
  }

  /** While the collector is marking: it sees the objects of `b` without references, and marks only
      objects of `r`; the object `y` is not among them. */
  ghost predicate Doomed(s: State, stale: set<Ref>, r: set<Ref>, b: Ref, y: Ref) {
    && KeepInvariant(s.gcstate) && Closed(s) && Settled(s, stale)
    && Inv(Cut(s, stale)) && CycleWithin(Cut(s, stale), r)
    && b in stale && stale <= r && y in s.heap && y !in r && Link(s, b, y)
  }

  // ---------- the start of the cycle ----------

  lemma CutStartable(s: State)
    requires LostInv(s) && s.gcstate == Pause
    ensures Startable(Cut(s, StaleSet(s)))
    ensures forall x :: x in StaleSet(s) ==> !s.heap[x].colour.White?
  {
    forall x | x in StaleSet(s) ensures !s.heap[x].colour.White? && s.heap[x].kind != Thread {
      StaleMarked(s, x);
    }
    CutBase(s, StaleSet(s));
    forall x | x in s.heap
      ensures x in s.fixedgc || CurrentWhite(Cut(s, StaleSet(s)), x) || BlackLeaf(Cut(s, StaleSet(s)).heap[x])
    {
      if x !in StaleSet(s) && x != s.mainthread && x !in s.fixedgc { assert CurrentWhite(s, x); }
    }
  }

  /** What would lead to `y` was kept, and so would be `y`. */
  lemma NotLed(p: State, s: State, b: Ref, y: Ref)
    requires Prepared(p, s, b, y) && Closed(p) && forall x :: x in p.finobj ==> x in p.heap
    ensures !LedTo(s, y)
  {
    if q :| LedPath(s, q, y) {
      forall i | 0 <= i < |q| - 1 ensures Solid(p, q[i], q[i + 1]) {
        NotMain(p, s, b, y, q, i);
      }
      assert KeptPath(p, {}, q, y);
      assert |q| > 1 ==> Solid(p, q[|q| - 2], q[|q| - 2 + 1]) && AllIn(p, p.heap[q[|q| - 2]].Out());
    }
  }

  lemma NotMain(p: State, s: State, b: Ref, y: Ref, q: seq<Ref>, i: nat)
    requires Prepared(p, s, b, y) && LedPath(s, q, y) && i < |q| - 1
    ensures q[i] != s.mainthread && Solid(p, q[i], q[i + 1])
  {
    var w := q[i + 1];
    assert w in s.heap[q[i]].Out() && w != b by { assert i + 1 < |q| - 1 ==> !Stale(s, q[i + 1]); }
  }

  /** From the main thread marking comes to `b` and no further. */
  lemma MarkableClosed(s: State, b: Ref)
    requires Before(s) && MainHolds(s, b)
    ensures var t := Cut(s, StaleSet(s));
      RootsWithin(t, Markable(s)) && EdgeClosed(t, Markable(s)) && Sound(t, Markable(s))
  {
    var t, r := Cut(s, StaleSet(s)), Markable(s);
    LostReady(s);
    forall x | x in s.finobj ensures x in r { LedHere(s, x); }
    forall x | x in t.heap && x in r ensures forall z :: z in t.heap[x].Out() ==> z in r {
      MarkableOut(s, b, x);
    }
    forall x | x in t.heap && !IsWhite(t, x) ensures x in r {
      assert x in StaleSet(s) || x in s.fixedgc || x == s.mainthread || CurrentWhite(s, x);
    }
  }

  /** Only the main thread is in use, and it holds `b` only, which is stale. */
  predicate MainHolds(s: State, b: Ref) {
    && s.globals == [] && s.running == s.mainthread && s.mainthread in s.heap && s.heap[s.mainthread].Out() == [b]
    && Stale(s, b)
  }

  /** What an object of the set points to. */
  lemma MarkableOut(s: State, b: Ref, x: Ref)
    requires Closed(s) && MainHolds(s, b) && x in Markable(s) && x in s.heap
    requires forall z :: z in s.fixedgc ==> z in s.heap && s.heap[z].kind == Str
    ensures var t := Cut(s, StaleSet(s)); x in t.heap && forall z :: z in t.heap[x].Out() ==> z in Markable(s)
  {
    var t := Cut(s, StaleSet(s));
    if x !in StaleSet(s) && x != s.mainthread && x !in s.fixedgc {
      assert AllIn(s, s.heap[x].Out());
      forall z | z in s.heap[x].Out() ensures z in Led(s) { LedOn(s, x, z); }
    }
  }

  lemma StartDoomed(p: State, s: State, b: Ref, y: Ref)
    requires Before(p) && Before(s) && Prepared(p, s, b, y)
    ensures StepReady(s) && Doomed(SingleStep(s), StaleSet(s), Markable(s), b, y)
  {
    CutCycle(s, b);
    NotMarkable(p, s, b, y);
    LostReady(s);
    StartLink(s, b, y);
    StartCut(s, StaleSet(s));
  }

  lemma NotMarkable(p: State, s: State, b: Ref, y: Ref)
    requires Before(p) && Prepared(p, s, b, y)
    ensures y !in Markable(s) && b in StaleSet(s)
  {
    LostReady(p);
    NotLed(p, s, b, y);
  }

  lemma CutCycle(s: State, b: Ref)
    requires Before(s) && MainHolds(s, b)
    ensures var t := Cut(s, StaleSet(s));
      StepReady(t) && Inv(SingleStep(t)) && CycleWithin(SingleStep(t), Markable(s))
    ensures forall x :: x in StaleSet(s) ==> !s.heap[x].colour.White?
  {
    CutStartable(s);
    MarkableClosed(s, b);
    RestartInv(Cut(s, StaleSet(s)));
    RestartWithin(Cut(s, StaleSet(s)), Markable(s));
  }

  lemma LostReady(s: State)
    requires LostInv(s)
    ensures Closed(s) && AllIn(s, RootList(s))
  {
    LiveIsClosed(s);
    RootsIn(s);
  }

  lemma StartLink(s: State, b: Ref, y: Ref)
    requires s.gcstate == Pause && Link(s, b, y) && y in s.heap && Closed(s) && AllIn(s, RootList(s))
    ensures StepReady(s) && Link(SingleStep(s), b, y) && y in SingleStep(s).heap
  {
    GrewLink(s, SingleStep(s), b, y);
  }

  lemma GrewLink(s: State, t: State, b: Ref, y: Ref)
    requires Link(s, b, y) && Grew(s.heap, t.heap) && t.mainthread == s.mainthread
    ensures Link(t, b, y)
  {
    assert Darker(s.heap[b], t.heap[b]);
    assert Darker(s.heap[s.mainthread], t.heap[s.mainthread]);
  }

  // ---------- marking ----------

  lemma DoomedReady(s: State, stale: set<Ref>, r: set<Ref>, b: Ref, y: Ref)
    requires Doomed(s, stale, r, b, y)
    ensures Lists(s) && GrayList(s, s.gray) && (s.gcstate == Propagate ==> s.gray != [])
  {
    CutLists(s, stale);
    GrayUncut(s, stale, s.gray);
  }

  lemma PropagateDoomed(s: State, stale: set<Ref>, r: set<Ref>, b: Ref, y: Ref)
    requires Doomed(s, stale, r, b, y) && s.gcstate == Propagate
    ensures Lists(s) && StepReady(s) && Doomed(SingleStep(s), stale, r, b, y)
  {
    DoomedReady(s, stale, r, b, y);
    PropagateInv(Cut(s, stale));
    PropagateWithin(Cut(s, stale), r);
    PropagateStepCut(s, stale);
    GrewLink(s, SingleStep(s), b, y);
  }

  // ---------- the flip ----------

  /** While `allgc` is swept: `y` is dead and still ahead, if it is there at all. */
  ghost predicate Condemned(s: State, b: Ref, y: Ref) {
    && s.gcstate == SwpAllGc && Lists(s) && CursorIn(s.allgc, s.sweepgc)
    && Link(s, b, y) && !Dead(s, b) && !Dead(s, s.mainthread)
    && (y in s.heap ==> Dead(s, y) && y in s.allgc && y !in Passed(s.allgc, s.sweepgc))
  }

  /** The state after the flip. */
  lemma FlipDoomed(s: State, stale: set<Ref>, r: set<Ref>, b: Ref, y: Ref)
    requires Doomed(s, stale, r, b, y) && s.gcstate == Atomic
    ensures Closed(s) && GrayList(s, s.gray) && AtomicReady(PropagateAll(s)) && Lists(s)
    ensures var f := AtomicStep(PropagateAll(s));
      && Lists(f) && Dead(f, y) && y in f.allgc && Link(f, b, y) && !Dead(f, b) && !Dead(f, f.mainthread)
  {
    DoomedReady(s, stale, r, b, y);
    var t := Cut(s, stale);
    AtomicFlipped(t);
    DrainFlipWithin(t, r);
    PropagateAllCut(s, stale);
    AtomicReadyUncut(PropagateAll(s), stale);
    AtomicStepCut(PropagateAll(s), stale);
    var f := AtomicStep(PropagateAll(s));
    CutLists(f, stale);
    FlipGrew(s);
    GrewLink(s, f, b, y);
    FlippedDead(s, f, stale, r, b, y);
  }

  lemma FlippedDead(s: State, f: State, stale: set<Ref>, r: set<Ref>, b: Ref, y: Ref)
    requires Grew(s.heap, f.heap) && f.mainthread == s.mainthread && Settled(f, stale)
    requires OutsideDead(Cut(f, stale), r) && DeadOnAllgc(Cut(f, stale)) && !IsWhite(s, s.mainthread)
    requires b in stale && stale <= r && y in s.heap && y !in r && s.mainthread in s.heap
    ensures Dead(f, y) && y in f.allgc && !Dead(f, b) && !Dead(f, f.mainthread)
  {
    assert Dead(Cut(f, stale), y);
    GrewMarked(s, f, s.mainthread);
  }

  lemma AtomicDoomed(s: State, stale: set<Ref>, r: set<Ref>, b: Ref, y: Ref)
    requires Doomed(s, stale, r, b, y) && s.gcstate == Atomic
    ensures Lists(s) && StepReady(s) && Condemned(SingleStep(s), b, y)
  {
    FlipDoomed(s, stale, r, b, y);
    EnterDoomed(AtomicStep(PropagateAll(s)), b, y);
    AtomicLists(s);
  }

  lemma EnterDoomed(f: State, b: Ref, y: Ref)
    requires Lists(f) && Dead(f, y) && y in f.allgc && Link(f, b, y) && !Dead(f, b) && !Dead(f, f.mainthread)
    ensures NoDup(f.allgc) && AllIn(f, f.allgc) && Condemned(EnterSweep(f), b, y)
  {
    var t := f.(gcstate := SwpAllGc, sweepgc := Header);
    StillLists(f, t);
    SweepCondemned(t, b, y, 1);
  }

  lemma StillLists(f: State, t: State)
    requires Lists(f) && t == f.(gcstate := t.gcstate, sweepgc := t.sweepgc)
    ensures Lists(t)
  {
  }

  lemma AtomicLists(s: State)
    requires Lists(s)
    ensures NoDup(s.allgc) && AllIn(s, s.allgc)
  {
  }

  // ---------- the sweep ----------

  lemma SweepCondemned(s: State, b: Ref, y: Ref, count: nat)
    requires Condemned(s, b, y)
    ensures NoDup(Ahead(SweepTarget(s), s.sweepgc)) && AllIn(s, Ahead(SweepTarget(s), s.sweepgc))
    ensures Condemned(SweepSome(s, count), b, y)
  {
    var done := SweepSomeEffect(s, count);
    var t := SweepSome(s, count);
    SweepKinds(s, t, done);
    TargetLists(s, t);
    SweptLink(s, t, done, b, y);
  }

  lemma SweptLink(s: State, t: State, done: seq<Ref>, b: Ref, y: Ref)
    requires Condemned(s, b, y) && SweepEffect(s, t, done)
    ensures Link(t, b, y) && !Dead(t, b) && !Dead(t, t.mainthread)
    ensures y in t.heap ==> Dead(t, y) && y in t.allgc && y !in Passed(t.allgc, t.sweepgc)
  {
  }

  /** One step of the sweep: `y` is freed, or the step did not come to the end of the list. */
  lemma SweepStepDoomed(s: State, b: Ref, y: Ref)
    requires Condemned(s, b, y) && y in s.heap
    ensures StepReady(s) && Link(SingleStep(s), b, y)
    ensures y in SingleStep(s).heap ==> Condemned(SingleStep(s), b, y)
  {
    SweepCondemned(s, b, y, GCSWEEPMAX);
    SweepingStep(s);
    SweepStepParts(s, SwpFinObj, Header);
  }

  // ---------- the run ----------

  lemma {:induction false} SweptAway(s0: Start, s: State, b: Ref, y: Ref) returns (t: State)
    requires Leads(s0, s) && Condemned(s, b, y)
    ensures Leads(s0, t) && Unsafe(t)
    decreases Left(s, {CallFin}).0, Left(s, {CallFin}).1
  {
    if y !in s.heap {
      LinkUnsafe(s, b, y);
      t := s;
    } else {
      SweepStepDoomed(s, b, y);
      StepOn(s0, s);
      if y in SingleStep(s).heap {
        t := SweptAway(s0, SingleStep(s), b, y);
      } else {
        LinkUnsafe(SingleStep(s), b, y);
        t := SingleStep(s);
      }
    }
  }

  lemma FlipOn(s0: Start, s: State, stale: set<Ref>, r: set<Ref>, b: Ref, y: Ref)
    requires Leads(s0, s) && Doomed(s, stale, r, b, y) && s.gcstate == Atomic
    ensures StepReady(s) && Leads(s0, SingleStep(s)) && Condemned(SingleStep(s), b, y)
  {
    AtomicDoomed(s, stale, r, b, y);
    LeadsOn(s0, s, Collect);
  }

  lemma {:induction false} MarkedThrough(s0: Start, s: State, stale: set<Ref>, r: set<Ref>, b: Ref, y: Ref)
    returns (t: State)
    requires Leads(s0, s) && Doomed(s, stale, r, b, y)
    ensures Leads(s0, t) && Unsafe(t)
    decreases Left(s, {CallFin}).0, Left(s, {CallFin}).1
  {
    if s.gcstate == Atomic {
      FlipOn(s0, s, stale, r, b, y);
      t := SweptAway(s0, SingleStep(s), b, y);
    } else {
      PropagateDoomed(s, stale, r, b, y);
      StepOn(s0, s);
      t := MarkedThrough(s0, SingleStep(s), stale, r, b, y);
    }
  }

  lemma Dropped(s0: Start, p: State, l: seq<Ref>, t: State, b: Ref, y: Ref) returns (q: State)
    requires Leads(s0, t) && Owns(p, l) && Owned(p, l, t) && Exposed(p, l, t, b, y)
    ensures Leads(s0, q) && Before(q) && Prepared(p, q, b, y)
  {
    var u := Strip(s0, p, l, t, b, y, 0);
    EmptiedReduced(p, l, u);
    var v := EmptyUpvalues(s0, p, l, u, b, y);
    q := DropRoots(s0, p, l, v, b, y);
  }

  /** What a loss that is not harmless costs: a run in which the cursor is not lost again leads from it
      to a state in which something reachable has been freed. */
  lemma HarmfulCosts(s: State, pace: Pace)
    requires Inv(s) && LosesCursor(s) && !HarmlessLoss(s) && Resting(pace)
    ensures s.tobefnz[0] in s.heap && s.running in s.heap
    ensures exists t :: Leads(Start(CallFinalizer(s), pace), t) && Unsafe(t)
  {
    var p, l, t, b, y := Expose(s, pace);
    var s0 := Start(CallFinalizer(s), pace);
    var q := Dropped(s0, p, l, t, b, y);
    var u := Doom(s0, p, q, b, y);
  }

  lemma Doom(s0: Start, p: State, q: State, b: Ref, y: Ref) returns (t: State)
    requires Leads(s0, q) && Before(p) && Before(q) && Prepared(p, q, b, y)
    ensures Leads(s0, t) && Unsafe(t)
  {
    StartDoomed(p, q, b, y);
    LeadsOn(s0, q, Collect);
    t := MarkedThrough(s0, SingleStep(q), StaleSet(q), Markable(q), b, y);
  }
}
