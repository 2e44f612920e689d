/** A cycle that does not visit the marked objects of a set `b`, userdata whose references are marked or
    kept alive by objects with finalizers.  Without the references of `b` the collector's invariant
    holds, and every action keeps it so; the atomic step makes it hold with them. */
module LuaSkippedObject {
  import opened Wrappers
  import opened LuaHeap
  import opened LuaTricolour
  import opened LuaCollector
  import opened LuaCycle
  import opened LuaSweep
  import opened LuaMutator
  import opened LuaFinalize
  import opened LuaSafety
  import opened LuaKept
  import opened LuaCut

  /** A skipped object: the atomic step will find all its references marked. */
  ghost predicate BackedOne(s: State, b: set<Ref>, x: Ref) {
    && x in s.heap && s.heap[x].kind == Userdata && s.heap[x].colour.Black?
    && forall y :: y in s.heap[x].Out() ==> y in s.heap && (!s.heap[y].colour.White? || Kept(s, b, y))
  }

  ghost predicate Backed(s: State, b: set<Ref>) {
    forall x :: x in b ==> BackedOne(s, b, x)
  }

  ghost predicate SkippedMarking(s: State, b: set<Ref>) {
    KeepInvariant(s.gcstate) && Inv(Cut(s, b)) && Backed(s, b)
  }

  // ---------- cutting and what holds in every phase ----------

  /** Marked userdata, all of them. */
  predicate MarkedUserdata(s: State, b: set<Ref>) {
    forall x :: x in b ==> x in s.heap && s.heap[x].kind == Userdata && !s.heap[x].colour.White?
  }

  /** The references of `b` may come back when they are alive. */
  lemma UncutBase(s: State, b: set<Ref>)
    requires Base(Cut(s, b)) && MarkedUserdata(s, b) && forall x :: x in b ==> AllAlive(s, s.heap[x].Out())
    ensures Base(s)
    ensures forall x :: Dead(s, x) <==> Dead(Cut(s, b), x)
  {
    var t := Cut(s, b);
    assert forall x :: Dead(t, x) <==> Dead(s, x);
    forall x | Alive(s, x) ensures LiveOut(s, x) {
      if x !in b {
        assert Alive(t, x) && LiveOut(t, x);
        assert forall y :: Alive(t, y) ==> Alive(s, y);
      }
    }
    forall x | IsRoot(s, x) ensures Alive(s, x) { assert IsRoot(t, x) && Alive(t, x); }
    UncutLists(s, b);
  }

  lemma UncutLists(s: State, b: set<Ref>)
    requires Lists(Cut(s, b)) && FixedMarked(Cut(s, b)) && ThreadsNotBlack(Cut(s, b)) && MarkedUserdata(s, b)
    ensures Lists(s) && FixedMarked(s) && ThreadsNotBlack(s)
  {
    var t := Cut(s, b);
    CutLists(s, b);
    assert forall x :: IsWhite(t, x) <==> IsWhite(s, x);
  }

  lemma SkippedBase(s: State, b: set<Ref>)
    requires SkippedMarking(s, b)
    ensures Base(s) && NoneDead(s) && Closed(s) && Settled(s, b) && Base(Cut(s, b))
  {
    var t := Cut(s, b);
    SettledHere(s, b);
    forall y | y in s.heap ensures !Dead(s, y) { assert !Dead(t, y); }
    UncutBase(s, b);
    LiveIsClosed(s);
  }

  lemma SettledHere(s: State, b: set<Ref>)
    requires SkippedMarking(s, b)
    ensures Settled(s, b) && MarkedUserdata(s, b) && forall x :: x in b ==> x in s.heap && s.heap[x].colour.Black?
  {
    forall x | x in b ensures !GrayNode(Cut(s, b), x) { assert BackedOne(s, b, x); }
  }

  // ---------- the references of `b` stay backed ----------

  ghost predicate MarksStay(s: State, t: State) {
    forall y :: y in s.heap ==> y in t.heap && (!s.heap[y].colour.White? ==> !t.heap[y].colour.White?)
  }

  lemma KeepsBacked(s: State, t: State, b: set<Ref>)
    requires Backed(s, b) && Fenced(s, t) && MarksStay(s, t)
    requires forall x :: x in b ==>
               x in s.heap && x in t.heap && t.heap[x] == s.heap[x].(finalized := t.heap[x].finalized)
    ensures Backed(t, b)
  {
    forall x | x in b ensures BackedOne(t, b, x) {
      assert BackedOne(s, b, x) && t.heap[x].Out() == s.heap[x].Out();
      forall y | y in t.heap[x].Out() ensures y in t.heap && (!t.heap[y].colour.White? || Kept(t, b, y)) {
        if Kept(s, b, y) { FencedKept(s, t, b, b, y); }
      }
    }
  }

  /** Marking leaves everything as it is but colours and gray lists. */
  lemma GrewBacked(s: State, t: State, b: set<Ref>)
    requires Backed(s, b) && Grew(s.heap, t.heap)
    requires t == s.(heap := t.heap, gray := t.gray, grayagain := t.grayagain, gcstate := t.gcstate)
    ensures Backed(t, b)
  {
    forall x | x in s.heap
      ensures t.heap[x] == s.heap[x].(colour := t.heap[x].colour)
    {
      assert Darker(s.heap[x], t.heap[x]);
    }
    SameRefsFenced(s, t);
    forall y | y in s.heap && !s.heap[y].colour.White?
      ensures !t.heap[y].colour.White?
    {
      assert Darker(s.heap[y], t.heap[y]);
    }
    forall x | x in b ensures x in s.heap && t.heap[x] == s.heap[x] {
      assert BackedOne(s, b, x);
      assert Darker(s.heap[x], t.heap[x]);
    }
    KeepsBacked(s, t, b);
  }

  // ---------- allocation, roots, lists ----------

  lemma AllAliveCut(s: State, b: set<Ref>, l: seq<Ref>)
    requires Settled(s, b) && AllAlive(s, l)
    ensures AllAlive(Cut(s, b), l)
  {
    assert forall x :: Alive(s, x) ==> Alive(Cut(s, b), x);
  }

  lemma RunningApart(s: State, b: set<Ref>)
    requires SkippedMarking(s, b)
    ensures s.running in s.heap && s.heap[s.running].kind == Thread && s.running !in b
    ensures s.tobefnz != [] ==> s.tobefnz[0] in s.heap
  {
    RunningIn(Cut(s, b));
    SettledHere(s, b);
  }

  lemma NewSkipped(s: State, b: set<Ref>, r: Ref, kind: Kind, meta: Option<Ref>, refs: seq<Ref>)
    requires SkippedMarking(s, b) && NewOk(s, r, kind, meta, refs) && s.running in s.heap
    requires Fenced(s, Unshared(NewObject(s, r, kind, meta, refs), r))
    ensures SkippedMarking(Unshared(NewObject(s, r, kind, meta, refs), r), b)
  {
    RunningApart(s, b);
    SettledHere(s, b);
    NewInvCut(s, b, r, kind, meta, refs);
    SharingInv(Cut(NewObject(s, r, kind, meta, refs), b), Others(s.sharing, r));
    NewBacked(s, b, r, kind, meta, refs);
  }

  lemma NewInvCut(s: State, b: set<Ref>, r: Ref, kind: Kind, meta: Option<Ref>, refs: seq<Ref>)
    requires Inv(Cut(s, b)) && Settled(s, b) && NewOk(s, r, kind, meta, refs)
    requires s.running in s.heap && s.running !in b && r !in b
    ensures Inv(Cut(NewObject(s, r, kind, meta, refs), b))
  {
    AllAliveCut(s, b, Obj(kind, White(s.currentwhite), false, meta, refs).Out());
    NewObjectInv(Cut(s, b), r, kind, meta, refs);
    NewCut(s, b, r, kind, meta, refs);
  }

  lemma NewBacked(s: State, b: set<Ref>, r: Ref, kind: Kind, meta: Option<Ref>, refs: seq<Ref>)
    requires Backed(s, b) && s.running in s.heap && s.running !in b && r !in s.heap
    requires Fenced(s, Unshared(NewObject(s, r, kind, meta, refs), r)) && forall x :: x in b ==> x in s.heap
    ensures Backed(Unshared(NewObject(s, r, kind, meta, refs), r), b)
  {
    KeepsBacked(s, Unshared(NewObject(s, r, kind, meta, refs), r), b);
  }

  lemma NewCut(s: State, b: set<Ref>, r: Ref, kind: Kind, meta: Option<Ref>, refs: seq<Ref>)
    requires s.running in s.heap && s.running !in b && r !in b
    ensures NewObject(Cut(s, b), r, kind, meta, refs) == Cut(NewObject(s, r, kind, meta, refs), b)
  {
    var h := s.heap[r := Obj(kind, White(s.currentwhite), false, meta, refs)];
    CutUpdate(s.heap, b, r, h[r]);
    CutUpdate(h, b, s.running, h[s.running].(refs := h[s.running].refs + [r]));
  }

  lemma RootsSkipped(s: State, b: set<Ref>, globals: seq<Ref>, running: Ref)
    requires SkippedMarking(s, b) && AllAlive(s, globals) && Alive(s, running) && s.heap[running].kind == Thread
    requires Fenced(s, s.(globals := globals, running := running))
    ensures SkippedMarking(s.(globals := globals, running := running), b)
  {
    SettledHere(s, b);
    AllAliveCut(s, b, globals + [running]);
    assert running in globals + [running];
    assert forall x :: x in globals ==> x in globals + [running];
    SetRootsInv(Cut(s, b), globals, running);
    KeepsBacked(s, s.(globals := globals, running := running), b);
    assert Cut(s, b).(globals := globals, running := running) == Cut(s.(globals := globals, running := running), b);
  }

  lemma EmergencySkipped(s: State, b: set<Ref>, on: bool)
    requires SkippedMarking(s, b) && Fenced(s, s.(emergency := on))
    ensures SkippedMarking(s.(emergency := on), b)
  {
    EmergencyInv(Cut(s, b), on);
    SettledHere(s, b);
    KeepsBacked(s, s.(emergency := on), b);
    assert Cut(s, b).(emergency := on) == Cut(s.(emergency := on), b);
  }

  lemma ShareSkipped(s: State, b: set<Ref>, w: set<(Ref, Ref)>)
    requires SkippedMarking(s, b) && Fenced(s, s.(sharing := w))
    ensures SkippedMarking(s.(sharing := w), b)
  {
    SharingInv(Cut(s, b), w);
    SettledHere(s, b);
    KeepsBacked(s, s.(sharing := w), b);
    assert Cut(s, b).(sharing := w) == Cut(s.(sharing := w), b);
  }

  lemma FixSkipped(s: State, b: set<Ref>)
    requires SkippedMarking(s, b) && FixOk(s) && Fenced(s, Fix(s))
    ensures SkippedMarking(Fix(s), b)
  {
    SettledHere(s, b);
    FixInvCut(s, b);
    FixBacked(s, b);
  }

  lemma FixInvCut(s: State, b: set<Ref>)
    requires Inv(Cut(s, b)) && Settled(s, b) && FixOk(s) && s.allgc[0] !in b
    ensures Inv(Cut(Fix(s), b))
  {
    assert FixOk(Cut(s, b));
    FixInv(Cut(s, b));
    CutUpdate(s.heap, b, s.allgc[0], s.heap[s.allgc[0]].(colour := Gray));
    assert Fix(Cut(s, b)) == Cut(Fix(s), b);
  }

  lemma FixBacked(s: State, b: set<Ref>)
    requires Backed(s, b) && s.allgc != [] && s.allgc[0] in s.heap && s.allgc[0] !in b && Fenced(s, Fix(s))
    requires forall x :: x in b ==> x in s.heap
    ensures Backed(Fix(s), b)
  {
    KeepsBacked(s, Fix(s), b);
  }

  lemma RegisterSkipped(s: State, b: set<Ref>, o: Ref)
    requires SkippedMarking(s, b) && CanFinalize(s, o)
    ensures CheckReady(s, o) && SameRefs(s, CheckFinalizer(s, o)) && SkippedMarking(CheckFinalizer(s, o), b)
  {
    SettledHere(s, b);
    RegisterMoves(s, o);
    RegisterInvCut(s, b, o);
    SameRefsFenced(s, CheckFinalizer(s, o));
    KeepsBacked(s, CheckFinalizer(s, o), b);
  }

  lemma RegisterInvCut(s: State, b: set<Ref>, o: Ref)
    requires KeepInvariant(s.gcstate) && Inv(Cut(s, b)) && Settled(s, b) && CanFinalize(s, o)
    ensures CheckReady(s, o) && Inv(Cut(CheckFinalizer(s, o), b))
  {
    assert CanFinalize(Cut(s, b), o);
    CheckFinalizerInv(Cut(s, b), o);
    RegisterCut(s, b, o);
  }

  lemma RegisterCut(s: State, b: set<Ref>, o: Ref)
    requires KeepInvariant(s.gcstate) && o in s.heap
    ensures CheckReady(s, o) && CheckReady(Cut(s, b), o)
    ensures CheckFinalizer(Cut(s, b), o) == Cut(CheckFinalizer(s, o), b)
  {
    if !s.heap[o].finalized {
      CutUpdate(s.heap, b, o, s.heap[o].(finalized := true));
      assert MoveToFinobj(Cut(s, b), o) == Cut(MoveToFinobj(s, o), b);
    }
  }

  lemma RegisterMoves(s: State, o: Ref)
    requires KeepInvariant(s.gcstate) && o in s.heap
    ensures CheckReady(s, o)
    ensures var t := CheckFinalizer(s, o);
      && SameRefs(s, t) && MarksStay(s, t) && t.gcstate == s.gcstate
      && forall x :: x in s.heap ==> t.heap[x] == s.heap[x].(finalized := t.heap[x].finalized)
  {
  }

  lemma FinalizerSkipped(s: State, b: set<Ref>)
    requires SkippedMarking(s, b) && s.tobefnz != [] && s.tobefnz[0] in s.heap && s.running in s.heap
    requires Fenced(s, CallFinalizer(s))
    ensures SkippedMarking(CallFinalizer(s), b)
  {
    RunningApart(s, b);
    SettledHere(s, b);
    CallFinalizerInv(Cut(s, b));
    FinalizerCut(s, b);
    FinalizerBacked(s, b);
  }

  lemma FinalizerBacked(s: State, b: set<Ref>)
    requires KeepInvariant(s.gcstate) && Backed(s, b) && s.tobefnz != [] && s.tobefnz[0] in s.heap
    requires s.running in s.heap && s.running !in b && (forall x :: x in b ==> x in s.heap)
             && Fenced(s, CallFinalizer(s))
    ensures Backed(CallFinalizer(s), b)
  {
    KeepsBacked(s, CallFinalizer(s), b);
  }

  lemma FinalizerCut(s: State, b: set<Ref>)
    requires KeepInvariant(s.gcstate) && s.tobefnz != [] && s.tobefnz[0] in s.heap
    requires s.running in s.heap && s.running !in b && forall x :: x in b ==> x in s.heap && s.heap[x].colour.Black?
    ensures CallFinalizer(Cut(s, b)) == Cut(CallFinalizer(s), b)
  {
    var h := s.heap[s.tobefnz[0] := s.heap[s.tobefnz[0]].(finalized := false)];
    CutUpdate(s.heap, b, s.tobefnz[0], h[s.tobefnz[0]]);
    CutUpdate(h, b, s.running, h[s.running].(refs := h[s.running].refs + [s.tobefnz[0]]));
  }

  // ---------- stores ----------

  lemma SetOutCut(s: State, b: set<Ref>, p: Ref, meta: Option<Ref>, refs: seq<Ref>)
    requires p in s.heap
    ensures Cut(SetOut(s, p, meta, refs), b) == if p in b then Cut(s, b) else SetOut(Cut(s, b), p, meta, refs)
  {
    CutUpdate(s.heap, b, p, s.heap[p].(meta := meta, refs := refs));
    assert p in b ==> CutHeap(s.heap, b)[p := Leaf(s.heap[p])] == CutHeap(s.heap, b);
  }

  lemma StoreReadyNow(s: State, p: Ref, meta: Option<Ref>, refs: seq<Ref>, v: Option<Ref>, back: bool)
    requires Base(s) && NoneDead(s) && StoreOk(s, p, meta, refs, v, back)
    ensures OutAllowed(s, p, meta, refs) && Closed(SetOut(s, p, meta, refs)) && StoreReady(s, p, meta, refs)
  {
    assert LiveOut(s, p);
    SetOutBase(s, p, meta, refs);
    LiveIsClosed(SetOut(s, p, meta, refs));
  }

  /** A store into another object. */
  lemma StoreOtherSkipped(s: State, b: set<Ref>, p: Ref, meta: Option<Ref>, refs: seq<Ref>, v: Option<Ref>, back: bool)
    requires SkippedMarking(s, b) && StoreOk(s, p, meta, refs, v, back) && p !in b && StoreReady(s, p, meta, refs)
    requires Fenced(s, Store(s, p, meta, refs, v, back))
    ensures SkippedMarking(Store(s, p, meta, refs, v, back), b)
  {
    SettledHere(s, b);
    StoreOtherInvCut(s, b, p, meta, refs, v, back);
    StoreKeepsMarks(s, b, p, meta, refs, v, back);
    KeepsBacked(s, Store(s, p, meta, refs, v, back), b);
  }

  lemma StoreOtherInvCut(s: State, b: set<Ref>, p: Ref, meta: Option<Ref>, refs: seq<Ref>, v: Option<Ref>, back: bool)
    requires SkippedMarking(s, b) && StoreOk(s, p, meta, refs, v, back) && p !in b && StoreReady(s, p, meta, refs)
    ensures Inv(Cut(Store(s, p, meta, refs, v, back), b)) && KeepInvariant(Store(s, p, meta, refs, v, back).gcstate)
  {
    StoreReadyHere(s, b, p, meta, refs, v, back);
    StoreInv(Cut(s, b), p, meta, refs, v, back);
    SetOutCut(s, b, p, meta, refs);
    StoreOtherCut(s, b, p, meta, refs, v, back);
  }

  lemma StoreReadyHere(s: State, b: set<Ref>, p: Ref, meta: Option<Ref>, refs: seq<Ref>, v: Option<Ref>, back: bool)
    requires SkippedMarking(s, b) && StoreOk(s, p, meta, refs, v, back) && p !in b
    ensures StoreReady(s, p, meta, refs) && StoreOk(Cut(s, b), p, meta, refs, v, back)
    ensures Settled(s, b) && MarkedUserdata(s, b)
  {
    SkippedBase(s, b);
    SettledHere(s, b);
    StoreReadyNow(s, p, meta, refs, v, back);
    StoreOkCut(s, b, p, meta, refs, v, back);
  }

  lemma StoreOkCut(s: State, b: set<Ref>, p: Ref, meta: Option<Ref>, refs: seq<Ref>, v: Option<Ref>, back: bool)
    requires Settled(s, b) && StoreOk(s, p, meta, refs, v, back) && p !in b
    ensures StoreOk(Cut(s, b), p, meta, refs, v, back)
  {
    assert forall x :: Alive(s, x) ==> Alive(Cut(s, b), x);
  }

  lemma StoreOtherCut(s: State, b: set<Ref>, p: Ref, meta: Option<Ref>, refs: seq<Ref>, v: Option<Ref>, back: bool)
    requires KeepInvariant(s.gcstate) && StoreReady(s, p, meta, refs) && StoreReady(Cut(s, b), p, meta, refs) && p !in b
    requires Settled(s, b) && (v.Some? ==> v.value in s.heap)
    requires Cut(SetOut(s, p, meta, refs), b) == SetOut(Cut(s, b), p, meta, refs)
    ensures Store(Cut(s, b), p, meta, refs, v, back) == Cut(Store(s, p, meta, refs, v, back), b)
  {
    var t := SetOut(s, p, meta, refs);
    CutWhite(t, b);
    if BarrierFires(t, p, v) {
      if back {
        CutColour(t, b, p, Gray);
      } else {
        MarkObjectCut(t, v.value, b);
      }
    }
  }

  /** A barrier unmarks nothing while the collector is marking, and leaves other objects alone. */
  lemma StoreKeepsMarks(s: State, b: set<Ref>, p: Ref, meta: Option<Ref>, refs: seq<Ref>, v: Option<Ref>, back: bool)
    requires KeepInvariant(s.gcstate) && StoreReady(s, p, meta, refs) && p !in b
    requires forall x :: x in b ==> x in s.heap && s.heap[x].colour.Black?
    ensures var t := Store(s, p, meta, refs, v, back);
      MarksStay(s, t) && forall x :: x in b ==> x in t.heap && t.heap[x] == s.heap[x]
  {
    var u, t := SetOut(s, p, meta, refs), Store(s, p, meta, refs, v, back);
    if BarrierFires(u, p, v) && !back {
      assert Grew(u.heap, t.heap);
      forall x | x in s.heap ensures Darker(u.heap[x], t.heap[x]) { }
    }
  }

  /** A store into `b`: what it gains is marked, or gets marked by the barrier. */
  lemma StoreHereSkipped(s: State, b: set<Ref>, p: Ref, meta: Option<Ref>, refs: seq<Ref>, v: Option<Ref>, back: bool)
    requires SkippedMarking(s, b) && StoreOk(s, p, meta, refs, v, back) && p in b && StoreReady(s, p, meta, refs)
    requires Fenced(s, Store(s, p, meta, refs, v, back))
    ensures SkippedMarking(Store(s, p, meta, refs, v, back), b)
  {
    SettledHere(s, b);
    StoreHereInvCut(s, b, p, meta, refs, v, back);
    StoreHereMarks(s, p, meta, refs, v, back);
    StoreBacked(s, Store(s, p, meta, refs, v, back), b, p, v);
  }

  lemma StoreHereInvCut(s: State, b: set<Ref>, p: Ref, meta: Option<Ref>, refs: seq<Ref>, v: Option<Ref>, back: bool)
    requires SkippedMarking(s, b) && StoreOk(s, p, meta, refs, v, back) && p in b && StoreReady(s, p, meta, refs)
    requires s.heap[p].kind == Userdata
    ensures Inv(Cut(Store(s, p, meta, refs, v, back), b)) && (v.Some? ==> GrayList(SetOut(s, p, meta, refs), s.gray))
  {
    SettledHere(s, b);
    SetOutCut(s, b, p, meta, refs);
    GrayAfterStore(s, SetOut(s, p, meta, refs), b);
    StoredInvCut(s, b, p, meta, refs, v, back);
  }

  lemma StoredInvCut(s: State, b: set<Ref>, p: Ref, meta: Option<Ref>, refs: seq<Ref>, v: Option<Ref>, back: bool)
    requires KeepInvariant(s.gcstate) && Inv(Cut(s, b)) && Settled(s, b) && StoreReady(s, p, meta, refs)
    requires s.heap[p].kind == Userdata && (v.Some? ==> v.value in s.heap) && !back
    requires Cut(SetOut(s, p, meta, refs), b) == Cut(s, b)
    ensures Inv(Cut(Store(s, p, meta, refs, v, back), b))
  {
    if BarrierFires(SetOut(s, p, meta, refs), p, v) {
      BarrierInvCut(s, SetOut(s, p, meta, refs), b, v.value);
    }
  }

  lemma GrayAfterStore(s: State, u: State, b: set<Ref>)
    requires KeepInvariant(s.gcstate) && Inv(Cut(s, b)) && Cut(u, b) == Cut(s, b)
    ensures GrayList(u, s.gray)
  {
    assert u.gray == Cut(u, b).gray;
    GrayUncut(u, b, s.gray);
  }

  lemma BarrierInvCut(s: State, u: State, b: set<Ref>, v: Ref)
    requires KeepInvariant(s.gcstate) && Inv(Cut(s, b)) && Settled(s, b) && v in s.heap && Closed(u)
    requires Cut(u, b) == Cut(s, b) && u.heap.Keys == s.heap.Keys && Settled(u, b)
    ensures Inv(Cut(MarkObject(u, v), b))
  {
    MarkObjectCut(u, v, b);
    MarkCutInv(s, b, v);
  }

  /** After the store the new reference is marked; no mark is lost. */
  lemma StoreHereMarks(s: State, p: Ref, meta: Option<Ref>, refs: seq<Ref>, v: Option<Ref>, back: bool)
    requires KeepInvariant(s.gcstate) && StoreOk(s, p, meta, refs, v, back) && StoreReady(s, p, meta, refs)
    requires s.heap[p].kind == Userdata && s.heap[p].colour.Black?
    requires v.Some? ==> GrayList(SetOut(s, p, meta, refs), s.gray)
    ensures var t := Store(s, p, meta, refs, v, back);
      && MarksStay(s, t) && (v.Some? ==> v.value in t.heap && !t.heap[v.value].colour.White?)
      && (forall x :: x in s.heap && s.heap[x].colour.Black? && x != p ==> x in t.heap && t.heap[x] == s.heap[x])
      && p in t.heap && t.heap[p] == s.heap[p].(meta := meta, refs := refs)
  {
    var u := SetOut(s, p, meta, refs);
    if BarrierFires(u, p, v) {
      MarkedNow(u, v.value);
      GrewStores(u, MarkObject(u, v.value));
    }
  }

  lemma GrewStores(u: State, t: State)
    requires Grew(u.heap, t.heap)
    ensures MarksStay(u, t)
    ensures forall x :: x in u.heap ==> x in t.heap && t.heap[x] == u.heap[x].(colour := t.heap[x].colour)
    ensures forall x :: x in u.heap && u.heap[x].colour.Black? ==> t.heap[x].colour.Black?
  {
    forall x | x in u.heap ensures Darker(u.heap[x], t.heap[x]) { }
  }

  lemma StoreBacked(s: State, t: State, b: set<Ref>, p: Ref, v: Option<Ref>)
    requires Backed(s, b) && Fenced(s, t) && MarksStay(s, t) && p in b
    requires v.Some? ==> v.value in t.heap && !t.heap[v.value].colour.White?
    requires forall x :: x in b && x != p ==> x in s.heap && x in t.heap && t.heap[x] == s.heap[x]
    requires p in s.heap && p in t.heap && t.heap[p].kind == s.heap[p].kind && t.heap[p].colour == s.heap[p].colour
    requires forall y :: y in t.heap[p].Out() ==> y in s.heap[p].Out() || v == Some(y)
    ensures Backed(t, b)
  {
    forall x | x in b ensures BackedOne(t, b, x) {
      assert BackedOne(s, b, x) && (x != p ==> t.heap[x].Out() == s.heap[x].Out());
      forall y | y in t.heap[x].Out() ensures y in t.heap && (!t.heap[y].colour.White? || Kept(t, b, y)) {
        if y in s.heap[x].Out() && Kept(s, b, y) { FencedKept(s, t, b, b, y); }
      }
    }
  }

  lemma MarkedNow(s: State, v: Ref)
    requires Closed(s) && v in s.heap && GrayList(s, s.gray)
    ensures !IsWhite(MarkObject(s, v), v)
  {
    MarkObjectShape(s, v);
  }

  /** Marking one more object keeps the invariant: it is what an assignment to an upvalue does. */
  lemma MarkCutInv(s: State, b: set<Ref>, v: Ref)
    requires KeepInvariant(s.gcstate) && Inv(Cut(s, b)) && v in s.heap
    ensures Closed(Cut(s, b)) && Inv(MarkObject(Cut(s, b), v))
  {
    NoUpvalue(Cut(s, b), v);
    StoreUpvalueInv(Cut(s, b), map[], v);
  }

  lemma NoUpvalue(t: State, v: Ref)
    requires KeepInvariant(t.gcstate) && Inv(t) && v in t.heap
    ensures Alive(t, v) && Closed(t) && SetUpvalues(t, map[]) == t
  {
    LiveIsClosed(t);
    assert !Dead(t, v);
    assert SetUpvalues(t, map[]).heap == t.heap;
  }

  lemma StoreSkipped(s: State, b: set<Ref>, p: Ref, meta: Option<Ref>, refs: seq<Ref>, v: Option<Ref>, back: bool)
    requires SkippedMarking(s, b) && StoreOk(s, p, meta, refs, v, back) && StoreReady(s, p, meta, refs)
    requires Fenced(s, Store(s, p, meta, refs, v, back))
    ensures SkippedMarking(Store(s, p, meta, refs, v, back), b)
  {
    if p in b {
      StoreHereSkipped(s, b, p, meta, refs, v, back);
    } else {
      StoreOtherSkipped(s, b, p, meta, refs, v, back);
    }
  }

  lemma UpvalueSkipped(s: State, b: set<Ref>, cs: map<Ref, seq<Ref>>, v: Ref)
    requires SkippedMarking(s, b) && UpvalueOk(s, cs, v) && UpvalueReady(s, cs, v) && Fenced(s, StoreUpvalue(s, cs, v))
    ensures SkippedMarking(StoreUpvalue(s, cs, v), b)
  {
    SettledHere(s, b);
    UpvalueOkCut(s, b, cs, v);
    StoreUpvalueInv(Cut(s, b), cs, v);
    UpvalueCut(s, b, cs, v);
    UpvalueKeepsMarks(s, b, cs, v);
    KeepsBacked(s, StoreUpvalue(s, cs, v), b);
  }

  lemma UpvalueReadyHere(s: State, b: set<Ref>, cs: map<Ref, seq<Ref>>, v: Ref)
    requires SkippedMarking(s, b) && UpvalueOk(s, cs, v)
    ensures UpvalueReady(s, cs, v)
  {
    SkippedBase(s, b);
    UpvalueClosed(s, cs, v);
  }

  lemma UpvalueOkCut(s: State, b: set<Ref>, cs: map<Ref, seq<Ref>>, v: Ref)
    requires Settled(s, b) && MarkedUserdata(s, b) && UpvalueOk(s, cs, v)
    ensures UpvalueOk(Cut(s, b), cs, v) && forall x :: x in b ==> x !in cs
  {
    assert Alive(Cut(s, b), v);
  }

  lemma UpvalueCut(s: State, b: set<Ref>, cs: map<Ref, seq<Ref>>, v: Ref)
    requires KeepInvariant(s.gcstate) && Settled(s, b) && forall x :: x in b ==> x !in cs
    requires UpvalueReady(s, cs, v) && UpvalueReady(Cut(s, b), cs, v)
    ensures StoreUpvalue(Cut(s, b), cs, v) == Cut(StoreUpvalue(s, cs, v), b)
  {
    var t := SetUpvalues(s, cs);
    assert SetUpvalues(Cut(s, b), cs).heap == Cut(t, b).heap;
    MarkObjectCut(t, v, b);
  }

  lemma UpvalueKeepsMarks(s: State, b: set<Ref>, cs: map<Ref, seq<Ref>>, v: Ref)
    requires KeepInvariant(s.gcstate) && UpvalueReady(s, cs, v)
    requires forall x :: x in b ==> x in s.heap && s.heap[x].colour.Black? && x !in cs
    ensures var t := StoreUpvalue(s, cs, v);
      MarksStay(s, t) && forall x :: x in b ==> x in t.heap && t.heap[x] == s.heap[x]
  {
    var u, t := SetUpvalues(s, cs), StoreUpvalue(s, cs, v);
    GrewStores(u, t);
  }

  // ---------- steps of the collector ----------

  lemma PropagateSkipped(s: State, b: set<Ref>)
    requires SkippedMarking(s, b) && s.gcstate == Propagate
    ensures StepReady(s) && SkippedMarking(SingleStep(s), b)
  {
    PropagateReady(s, b);
    PropagateInv(Cut(s, b));
    PropagateStepCut(s, b);
    GrewBacked(s, SingleStep(s), b);
  }

  lemma PropagateReady(s: State, b: set<Ref>)
    requires SkippedMarking(s, b) && s.gcstate == Propagate
    ensures StepReady(s) && Settled(s, b)
  {
    SkippedBase(s, b);
    GrayUncut(s, b, s.gray);
  }

  /** The state after the flip is the one without the references of `b`, with them. */
  lemma AtomicSkippedCut(s: State, b: set<Ref>)
    requires SkippedMarking(s, b) && s.gcstate == Atomic
    ensures Closed(s) && GrayList(s, s.gray) && AtomicReady(PropagateAll(s))
    ensures var f := AtomicStep(PropagateAll(s));
      && Base(Cut(f, b)) && DeadOnAllgc(Cut(f, b)) && Backed(PropagateAll(s), b)
  {
    SkippedBase(s, b);
    AtomicFlipped(Cut(s, b));
    GrayUncut(s, b, s.gray);
    PropagateAllCut(s, b);
    GrewBacked(s, PropagateAll(s), b);
    AtomicReadyUncut(PropagateAll(s), b);
    AtomicStepCut(PropagateAll(s), b);
  }

  /** After the flip everything that an object of `b` points to is alive. */
  lemma BackedFlips(s: State, b: set<Ref>)
    requires AtomicReady(s) && Backed(s, b) && LiveClosed(Cut(AtomicStep(s), b))
    ensures var f := AtomicStep(s); MarkedUserdata(f, b) && forall x :: x in b ==> AllAlive(f, f.heap[x].Out())
  {
    MarksGrow(s);
    ToBeFnzGrows(s);
    forall x | x in b ensures var f := AtomicStep(s);
      x in f.heap && f.heap[x].kind == Userdata && !f.heap[x].colour.White? && AllAlive(f, f.heap[x].Out())
    {
      BackedAlive(s, AtomicStep(s), b, x);
    }
  }

  lemma BackedAlive(s: State, f: State, b: set<Ref>, x: Ref)
    requires Backed(s, b) && x in b && BackedOne(s, b, x) && Grew(s.heap, f.heap) && LiveClosed(Cut(f, b))
    requires forall y :: y in s.finobj ==> y in f.tobefnz || y in f.finobj
    ensures x in f.heap && f.heap[x].kind == Userdata && f.heap[x].colour.Black? && AllAlive(f, f.heap[x].Out())
  {
    assert Darker(s.heap[x], f.heap[x]);
    forall y | y in f.heap[x].Out() ensures Alive(f, y) {
      assert y in s.heap[x].Out();
      assert Darker(s.heap[y], f.heap[y]);
      if s.heap[y].colour.White? {
        assert y in b ==> BackedOne(s, b, y);
        KeptFlips(s, f, b, y);
      }
    }
  }

  lemma KeptFlips(s: State, f: State, b: set<Ref>, y: Ref)
    requires Kept(s, b, y) && y !in b && Grew(s.heap, f.heap) && LiveClosed(Cut(f, b))
    requires forall z :: z in s.finobj ==> z in f.tobefnz || z in f.finobj
    ensures Alive(f, y)
  {
    var p :| KeptPath(s, b, p, y);
    KeptPathFlips(s, f, b, p, |p| - 1);
    assert Alive(Cut(f, b), y);
  }

  /** The atomic step comes along the path, as far as it goes around `b`. */
  lemma {:induction false} KeptPathFlips(s: State, f: State, b: set<Ref>, p: seq<Ref>, i: nat)
    requires i < |p| && p[0] in s.finobj && Grew(s.heap, f.heap) && LiveClosed(Cut(f, b))
    requires forall k :: 0 <= k < |p| - 1 ==> p[k] !in b && Solid(s, p[k], p[k + 1])
    requires forall z :: z in s.finobj ==> z in f.tobefnz || z in f.finobj
    ensures Alive(Cut(f, b), p[i])
  {
    if i == 0 {
      assert IsRoot(Cut(f, b), p[0]);
    } else {
      KeptPathFlips(s, f, b, p, i - 1);
      var z, w := p[i - 1], p[i - 1 + 1];
      assert z !in b && Solid(s, z, w);
      assert Darker(s.heap[z], f.heap[z]);
      assert LiveOut(Cut(f, b), z) && w in Cut(f, b).heap[z].Out();
    }
  }

  lemma AtomicSkippedBase(s: State, b: set<Ref>)
    requires SkippedMarking(s, b) && s.gcstate == Atomic
    ensures Closed(s) && GrayList(s, s.gray) && AtomicReady(PropagateAll(s)) && StepReady(s)
    ensures var f := AtomicStep(PropagateAll(s));
      Base(f) && DeadOnAllgc(Cut(f, b)) && forall x :: Dead(f, x) <==> Dead(Cut(f, b), x)
  {
    AtomicSkippedCut(s, b);
    BackedFlips(PropagateAll(s), b);
    UncutBase(AtomicStep(PropagateAll(s)), b);
    AtomicReadyLists(s, b);
  }

  /** The atomic step ends the exception. */
  lemma AtomicSkipped(s: State, b: set<Ref>)
    requires SkippedMarking(s, b) && s.gcstate == Atomic
    ensures StepReady(s) && Inv(SingleStep(s))
  {
    AtomicSkippedBase(s, b);
    SkippedSweeps(AtomicStep(PropagateAll(s)), b);
  }

  lemma SkippedSweeps(f: State, b: set<Ref>)
    requires Base(f) && DeadOnAllgc(Cut(f, b)) && forall x :: Dead(f, x) <==> Dead(Cut(f, b), x)
    ensures NoDup(f.allgc) && AllIn(f, f.allgc) && Inv(EnterSweep(f))
  {
    assert DeadOnAllgc(f);
    EnterSweepInv(f);
  }

  lemma AtomicReadyLists(s: State, b: set<Ref>)
    requires SkippedMarking(s, b)
    ensures NoDup(s.allgc) && AllIn(s, s.allgc)
  {
    RootsIn(Cut(s, b));
  }

  /** So does a full collection that starts with a sweep. */
  lemma FullGcSkipped(s: State, b: set<Ref>)
    requires SkippedMarking(s, b)
    ensures NoDup(s.allgc) && AllIn(s, s.allgc) && Inv(EnterSweep(s))
  {
    SkippedBase(s, b);
    assert DeadOnAllgc(s);
    EnterSweepInv(s);
  }
}
