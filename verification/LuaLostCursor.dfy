/** What happens when a finalizer call takes the sweep cursor along (lgc.c:787-797): the sweep goes on
    in `allgc`, and what was left of `tobefnz` keeps the colour it was marked with.  This module follows
    the collector and the program from there up to the next restartcollection; until then nothing dies. */
module LuaLostCursor {
  import opened Wrappers
  import opened LuaHeap
  import opened LuaCollector
  import opened LuaCycle
  import opened LuaSweep
  import opened LuaMutator
  import opened LuaFinalize
  import opened LuaSafety

  /** The sweep has passed `x` by.  Fixed strings are never swept, the main thread comes last. */
  predicate Stale(s: State, x: Ref) {
    x in s.heap && x !in s.fixedgc && x != s.mainthread && !CurrentWhite(s, x)
  }

  ghost predicate StaleOn(s: State, l: seq<Ref>) {
    forall x :: Stale(s, x) ==> x in l
  }

  ghost predicate StaleFinalizable(s: State) {
    forall x :: Stale(s, x) ==> Finalizable(s.heap[x].kind)
  }

  /** The cursor is in `allgc`, or has come to its end. */
  ghost predicate FollowsAllgc(s: State) {
    s.sweepgc == NoCursor || (Lost(s) && s.sweepgc.o in s.allgc)
  }

  /** From the loss of the cursor up to the end of the pause. */
  ghost predicate LostPhase(s: State) {
    match s.gcstate
    case SwpToBeFnz => FollowsAllgc(s) && StaleOn(s, s.tobefnz)
    case SwpEnd => s.sweepgc == NoCursor && StaleOn(s, s.tobefnz)
    case CallFin => s.sweepgc == NoCursor && CurrentWhite(s, s.mainthread) && StaleFinalizable(s)
    case Pause => s.sweepgc == NoCursor && CurrentWhite(s, s.mainthread) && StaleFinalizable(s)
    case _ => false
  }

  ghost predicate LostInv(s: State) {
    Base(s) && NoneDead(s) && LostPhase(s)
  }

  // ---------- the loss ----------

  lemma PushBase(s: State, x: Ref)
    requires Base(s) && NoneDead(s) && Alive(s, x)
    ensures s.running in s.heap
    ensures var t := SetOut(s, s.running, s.heap[s.running].meta, s.heap[s.running].refs + [x]);
      Base(t) && NoneDead(t)
  {
    var p := s.running;
    assert IsRoot(s, p) && LiveOut(s, p);
    forall y | y in s.heap[p].refs + [x] ensures Alive(s, y) {
      if y != x { assert y in s.heap[p].Out(); }
    }
    SetOutBase(s, p, s.heap[p].meta, s.heap[p].refs + [x]);
  }

  /** The loss leaves exactly those objects stale that were still to be swept. */
  lemma LossLost(s: State)
    requires Inv(s) && LosesCursor(s)
    ensures s.tobefnz[0] in s.heap && s.running in s.heap && LostInv(CallFinalizer(s))
    ensures forall x :: Stale(CallFinalizer(s), x) <==> x in s.tobefnz[1..] && !CurrentWhite(s, x)
  {
    var o := s.tobefnz[0];
    UnlinkedBase(s);
    UnlinkedLive(s);
    var u := Unlinked(s);
    assert NoneDead(u) by { assert forall x :: x in s.heap ==> !Dead(s, x); }
    PushBase(u, o);
    LossStale(s);
  }

  lemma LossStale(s: State)
    requires Lists(s) && SweepPhase(s) && LosesCursor(s) && s.tobefnz[0] in s.heap && s.running in s.heap
    requires s.heap[s.running].kind == Thread
    ensures LostPhase(CallFinalizer(s))
    ensures forall x :: Stale(CallFinalizer(s), x) <==> x in s.tobefnz[1..] && !CurrentWhite(s, x)
  {
    var t := CallFinalizer(s);
    HeadOff(s.tobefnz);
    assert s.running != s.tobefnz[0];
    forall x ensures Stale(t, x) <==> x in s.tobefnz[1..] && !CurrentWhite(s, x) {
      assert x != s.tobefnz[0] ==> (CurrentWhite(t, x) <==> CurrentWhite(s, x));
    }
  }

  // ---------- actions of the program ----------

  /** From `s` to `t` no object became stale, and the cursor stays where it is. */
  ghost predicate LostFrame(s: State, t: State) {
    && t.gcstate == s.gcstate && t.sweepgc == s.sweepgc && t.mainthread == s.mainthread
    && (CurrentWhite(s, s.mainthread) ==> CurrentWhite(t, t.mainthread))
    && (forall x :: Stale(t, x) ==> Stale(s, x) && t.heap[x].kind == s.heap[x].kind)
    && (forall x :: x in s.tobefnz && Stale(t, x) ==> x in t.tobefnz)
    && (Lost(s) && s.sweepgc.o in s.allgc ==> Lost(t) && t.sweepgc.o in t.allgc)
  }

  lemma FrameLost(s: State, t: State)
    requires LostPhase(s) && LostFrame(s, t)
    ensures LostPhase(t)
  {
  }

  lemma NewLost(s: State, r: Ref, kind: Kind, meta: Option<Ref>, refs: seq<Ref>)
    requires LostInv(s) && NewOk(s, r, kind, meta, refs)
    ensures s.running in s.heap && LostInv(NewObject(s, r, kind, meta, refs))
    ensures LostFrame(s, NewObject(s, r, kind, meta, refs))
  {
    var o := Obj(kind, White(s.currentwhite), false, meta, refs);
    assert IsRoot(s, s.running);
    AllocBase(s, r, o);
    PushBase(s.(heap := s.heap[r := o], allgc := [r] + s.allgc), r);
    RunningThread(s);
    NewFrame(s, r, kind, meta, refs);
    FrameLost(s, NewObject(s, r, kind, meta, refs));
  }

  lemma RunningThread(s: State)
    requires Base(s)
    ensures s.running in s.heap && s.mainthread in s.heap
  {
  }

  lemma NewFrame(s: State, r: Ref, kind: Kind, meta: Option<Ref>, refs: seq<Ref>)
    requires s.running in s.heap && s.mainthread in s.heap && r !in s.heap
    ensures LostFrame(s, NewObject(s, r, kind, meta, refs))
  {
    var t := NewObject(s, r, kind, meta, refs);
    forall x | x in s.heap ensures t.heap[x].colour == s.heap[x].colour { }
  }

  lemma RecolourBase(s: State, p: Ref, c: Colour)
    requires Base(s) && NoneDead(s) && p in s.heap && p !in s.fixedgc && s.heap[p].kind != Thread
    requires c == Gray || c == White(s.currentwhite)
    ensures Base(SetColour(s, p, c)) && NoneDead(SetColour(s, p, c))
  {
    var t := SetColour(s, p, c);
    assert forall x :: Dead(t, x) <==> Dead(s, x);
    forall x | Alive(t, x) ensures LiveOut(t, x) {
      assert Alive(s, x) && LiveOut(s, x);
      assert forall y :: Alive(s, y) ==> Alive(t, y);
    }
    assert forall x :: IsRoot(t, x) ==> IsRoot(s, x);
    assert IsRoot(s, s.running);
  }

  /** While the collector neither marks nor has swept `p`, a store leaves `p` as it is, or white, or
      gray if it is a table. */
  lemma StoreLost(s: State, p: Ref, meta: Option<Ref>, refs: seq<Ref>, v: Option<Ref>, back: bool)
    requires LostInv(s) && StoreOk(s, p, meta, refs, v, back)
    ensures StoreReady(s, p, meta, refs) && LostInv(Store(s, p, meta, refs, v, back))
    ensures LostFrame(s, Store(s, p, meta, refs, v, back))
  {
    StoreLostBase(s, p, meta, refs, v, back);
    StoreIsFrame(s, p, meta, refs, v, back);
    FrameLost(s, Store(s, p, meta, refs, v, back));
  }

  lemma StoreIsFrame(s: State, p: Ref, meta: Option<Ref>, refs: seq<Ref>, v: Option<Ref>, back: bool)
    requires StoreReady(s, p, meta, refs) && !KeepInvariant(s.gcstate)
    requires s.heap[p].kind == Thread ==> !s.heap[p].colour.Black?
    requires s.mainthread in s.heap && s.heap[s.mainthread].kind == Thread
    ensures LostFrame(s, Store(s, p, meta, refs, v, back))
  {
    var t := SetOut(s, p, meta, refs);
    if BarrierFires(t, p, v) {
      StoreFrame(s, p, meta, refs, if back then BarrierBack(t, p) else BarrierForward(t, p, v.value));
    } else {
      StoreFrame(s, p, meta, refs, t);
    }
  }

  lemma StoreLostBase(s: State, p: Ref, meta: Option<Ref>, refs: seq<Ref>, v: Option<Ref>, back: bool)
    requires Base(s) && NoneDead(s) && !KeepInvariant(s.gcstate) && StoreOk(s, p, meta, refs, v, back)
    ensures StoreReady(s, p, meta, refs)
    ensures Base(Store(s, p, meta, refs, v, back)) && NoneDead(Store(s, p, meta, refs, v, back))
    ensures s.mainthread in s.heap && s.heap[s.mainthread].kind == Thread
    ensures s.heap[p].kind == Thread ==> !s.heap[p].colour.Black?
  {
    assert LiveOut(s, p);
    SetOutBase(s, p, meta, refs);
    var t := SetOut(s, p, meta, refs);
    if BarrierFires(t, p, v) {
      RecolourBase(t, p, if back then Gray else White(t.currentwhite));
      if back { SameBase(SetColour(t, p, Gray), BarrierBack(t, p)); }
    }
  }

  lemma StoreFrame(s: State, p: Ref, meta: Option<Ref>, refs: seq<Ref>, t: State)
    requires p in s.heap && (t.heap == SetOut(s, p, meta, refs).heap || s.heap[p].colour.Black?)
    requires t == SetOut(s, p, meta, refs).(heap := t.heap, grayagain := t.grayagain)
    requires p in t.heap && t.heap == s.heap[p := t.heap[p]] && t.heap[p].kind == s.heap[p].kind
    requires s.heap[p].kind == Thread ==> !s.heap[p].colour.Black?
    requires s.mainthread in s.heap && s.heap[s.mainthread].kind == Thread
    ensures LostFrame(s, t)
  {
    forall x | Stale(t, x) ensures Stale(s, x) { }
  }

  lemma UpvalueLost(s: State, cs: map<Ref, seq<Ref>>, v: Ref)
    requires LostInv(s) && UpvalueOk(s, cs, v)
    ensures UpvalueReady(s, cs, v) && LostInv(StoreUpvalue(s, cs, v)) && LostFrame(s, StoreUpvalue(s, cs, v))
  {
    var t := SetUpvalues(s, cs);
    UpvalueLists(s, cs, v);
    UpvalueLive(s, cs, v);
    UpvalueFrame(s, cs);
    FrameLost(s, t);
  }

  lemma UpvalueFrame(s: State, cs: map<Ref, seq<Ref>>)
    ensures LostFrame(s, SetUpvalues(s, cs)) && (NoneDead(s) ==> NoneDead(SetUpvalues(s, cs)))
  {
    var t := SetUpvalues(s, cs);
    assert forall x :: x in s.heap ==> t.heap[x].colour == s.heap[x].colour;
    assert forall x :: Dead(t, x) <==> Dead(s, x);
  }

  lemma RootsLost(s: State, globals: seq<Ref>, running: Ref)
    requires LostInv(s) && AllAlive(s, globals) && Alive(s, running) && s.heap[running].kind == Thread
    ensures LostInv(s.(globals := globals, running := running))
    ensures LostFrame(s, s.(globals := globals, running := running))
  {
    var t := s.(globals := globals, running := running);
    RootsLive(s, globals, running);
    SetRootsPhase(s, t);
    RootsFrame(s, t);
    FrameLost(s, t);
  }

  lemma RootsFrame(s: State, t: State)
    requires t == s.(globals := t.globals, running := t.running)
    ensures LostFrame(s, t) && (NoneDead(s) ==> NoneDead(t))
  {
    assert forall x :: Dead(t, x) <==> Dead(s, x);
  }

  lemma FixLost(s: State)
    requires LostInv(s) && FixOk(s)
    ensures LostInv(Fix(s)) && LostFrame(s, Fix(s))
  {
    FixBase(s);
    FixLive(s);
    FixFrame(s);
    FrameLost(s, Fix(s));
  }

  lemma FixFrame(s: State)
    requires Lists(s) && FixOk(s)
    ensures LostFrame(s, Fix(s))
  {
    HeadOff(s.allgc);
  }

  lemma EmergencyLost(s: State, on: bool)
    requires LostInv(s)
    ensures LostInv(s.(emergency := on)) && LostFrame(s, s.(emergency := on))
  {
    SameBase(s, s.(emergency := on));
    FrameLost(s, s.(emergency := on));
  }

  lemma ShareLost(s: State, w: set<(Ref, Ref)>)
    requires LostInv(s)
    ensures LostInv(s.(sharing := w)) && LostFrame(s, s.(sharing := w))
  {
    SharingBase(s, w);
    FrameLost(s, s.(sharing := w));
  }

  /** Only `o` moved, perhaps with the cursor; every list still names live objects. */
  ghost predicate RegisteredOnly(s: State, t: State, o: Ref) {
    && t == s.(heap := t.heap, allgc := t.allgc, finobj := t.finobj, sweepgc := t.sweepgc)
    && o in s.heap && t.heap == s.heap[o := s.heap[o].(finalized := true)]
    && (forall x :: x in s.finobj ==> x in t.finobj)
  }

  /** Registering a finalizer moves the object, and the cursor if it is in it. */
  lemma RegisterLost(s: State, o: Ref)
    requires LostInv(s) && CanFinalize(s, o)
    ensures CheckReady(s, o) && LostInv(CheckFinalizer(s, o)) && RegisteredOnly(s, CheckFinalizer(s, o), o)
    ensures forall x :: Stale(CheckFinalizer(s, o), x) ==> Stale(s, x)
  {
    if s.heap[o].finalized {
      assert CheckFinalizer(s, o) == s;
      assert s.heap[o := s.heap[o].(finalized := true)] == s.heap;
    } else if IsSweepPhase(s.gcstate) {
      assert o in s.allgc && o !in s.tobefnz && !Stale(s, o);
      assert SetColour(s, o, White(s.currentwhite)) == s;
      if s.sweepgc == After(o) {
        CursorMoves(s, o);
      } else {
        MoveLost(s, o);
      }
    } else {
      assert o in s.allgc;
      MoveLost(s, o);
    }
  }

  lemma MoveLost(s: State, o: Ref)
    requires LostInv(s) && CanFinalize(s, o) && o in s.allgc && s.sweepgc != After(o)
    ensures LostInv(MoveToFinobj(s, o)) && LostFrame(s, MoveToFinobj(s, o))
  {
    MoveBase(s, o);
    MoveLive(s, o);
    RemoveOneFacts(s.allgc, o, NoCursor);
    FrameLost(s, MoveToFinobj(s, o));
  }

  /** The lost cursor seen as a cursor into `allgc`, which is swept already. */
  lemma ViewLost(s: State)
    requires LostInv(s) && s.gcstate == SwpToBeFnz && s.sweepgc != NoCursor
    ensures var v := s.(gcstate := SwpAllGc); Base(v) && SweepPhase(v)
  {
    var v := s.(gcstate := SwpAllGc);
    SameBase(s, v);
    PassedAhead(s.allgc, s.sweepgc);
    forall x | x in Passed(s.allgc, s.sweepgc) ensures CurrentWhite(v, x) {
      assert x in s.allgc && x !in s.tobefnz && !Stale(s, x);
    }
    assert forall x :: x in v.heap ==> !Dead(v, x);
  }

  lemma CursorMoves(s: State, o: Ref)
    requires LostInv(s) && CanFinalize(s, o) && !s.heap[o].finalized && o in s.allgc
    requires s.gcstate == SwpToBeFnz && s.sweepgc == After(o) && SetColour(s, o, White(s.currentwhite)) == s
    ensures CheckReady(s, o) && LostInv(CheckFinalizer(s, o)) && RegisteredOnly(s, CheckFinalizer(s, o), o)
    ensures forall x :: Stale(CheckFinalizer(s, o), x) ==> Stale(s, x)
  {
    ViewLost(s);
    var v := SweptHere(s, o);
    assert v == s.(gcstate := SwpAllGc);
    var w := SweepToLive(v);
    var u := w.(gcstate := SwpToBeFnz);
    SweptOnSame(s, v, w);
    SweptLost(s, u);
    assert CheckFinalizer(s, o) == MoveToFinobj(u, o);
    MoveLost(u, o);
  }

  /** Sweeping on in `allgc`, where everything is alive and in the current white. */
  lemma SweptOnSame(s: State, v: State, w: State)
    requires LostInv(s) && s.gcstate == SwpToBeFnz && v == s.(gcstate := SwpAllGc) && SweptOn(v, w)
    ensures w.heap == s.heap && forall x :: x in s.allgc <==> x in w.allgc
  {
    forall x ensures x in s.heap <==> x in w.heap {
      assert x in s.heap ==> Alive(v, x) && Alive(w, x);
    }
    forall x | x in s.heap ensures w.heap[x] == s.heap[x] {
      if x in s.allgc {
        assert x !in s.tobefnz && !Stale(s, x) && CurrentWhite(v, x) && CurrentWhite(w, x);
      }
    }
    assert forall x :: x in s.allgc ==> Alive(v, x);
  }

  lemma SweptLost(s: State, u: State)
    requires LostInv(s) && u == s.(allgc := u.allgc, sweepgc := u.sweepgc)
             && (forall x :: x in s.allgc <==> x in u.allgc)
    requires NoDup(u.allgc) && s.gcstate == SwpToBeFnz && u.sweepgc != Header && CursorIn(u.allgc, u.sweepgc)
    ensures LostInv(u) && forall x :: Stale(u, x) ==> Stale(s, x)
  {
    assert forall x :: Dead(u, x) <==> Dead(s, x);
    assert forall x :: IsRoot(u, x) <==> IsRoot(s, x);
    forall x | Alive(u, x) ensures LiveOut(u, x) {
      assert Alive(s, x) && LiveOut(s, x);
      assert forall y :: Alive(s, y) ==> Alive(u, y);
    }
    assert forall x :: IsWhite(u, x) <==> IsWhite(s, x);
    assert forall x :: Stale(u, x) <==> Stale(s, x);
  }

  /** Calling a finalizer: the object leaves `tobefnz`; only a sweep makes it white. */
  lemma FinalizerLost(s: State)
    requires LostInv(s) && s.tobefnz != []
    ensures s.tobefnz[0] in s.heap && s.running in s.heap && LostInv(CallFinalizer(s))
    ensures forall x :: Stale(CallFinalizer(s), x) ==> Stale(s, x)
  {
    var o := s.tobefnz[0];
    UnlinkedBase(s);
    UnlinkedLive(s);
    var u := Unlinked(s);
    assert NoneDead(u) by { assert forall x :: x in s.heap ==> !Dead(s, x); }
    PushBase(u, o);
    HeadOff(s.tobefnz);
    FinalizerStale(s);
  }

  lemma FinalizerStale(s: State)
    requires LostPhase(s) && Lists(s) && s.tobefnz != [] && s.tobefnz[0] in s.heap && s.running in s.heap
    requires s.heap[s.running].kind == Thread
    requires forall x :: x in s.tobefnz[1..] <==> x in s.tobefnz && x != s.tobefnz[0]
    ensures LostPhase(CallFinalizer(s)) && forall x :: Stale(CallFinalizer(s), x) ==> Stale(s, x)
  {
    var t := CallFinalizer(s);
    assert s.running != s.tobefnz[0];
    forall x | x != s.tobefnz[0] ensures Stale(t, x) <==> Stale(s, x) {
      assert CurrentWhite(t, x) <==> CurrentWhite(s, x);
    }
    assert s.tobefnz[0] in s.tobefnz;
  }

  lemma NewActionLost(s: State, r: Ref, kind: Kind, meta: Option<Ref>, refs: seq<Ref>)
    requires LostInv(s) && Enabled(s, New(r, kind, meta, refs))
    ensures s.running in s.heap
    ensures var t := Unshared(NewObject(s, r, kind, meta, refs), r);
      LostInv(t) && forall x :: Stale(t, x) ==> Stale(s, x)
  {
    NewEnabled(s, r, kind, meta, refs);
    NewLost(s, r, kind, meta, refs);
    ShareLost(NewObject(s, r, kind, meta, refs), Others(s.sharing, r));
  }

  lemma StoreActionLost(s: State, p: Ref, meta: Option<Ref>, refs: seq<Ref>, v: Option<Ref>, back: bool)
    requires LostInv(s) && Enabled(s, StoreRef(p, meta, refs, v, back))
    ensures StoreReady(s, p, meta, refs)
    ensures var t := Store(s, p, meta, refs, v, back); LostInv(t) && forall x :: Stale(t, x) ==> Stale(s, x)
  {
    StoreEnabled(s, p, meta, refs, v, back);
    StoreLost(s, p, meta, refs, v, back);
  }

  /** What the program does, finalizers included, keeps the invariant and makes no object stale. */
  lemma ActionLost(s: State, a: Action)
    requires LostInv(s) && Enabled(s, a) && a != Collect
    ensures Defined(s, a) && LostInv(Apply(s, a))
    ensures forall x :: Stale(Apply(s, a), x) ==> Stale(s, x)
  {
    RunningIn(s);
    match a
    case New(r, kind, meta, refs) => NewActionLost(s, r, kind, meta, refs);
    case StoreRef(p, meta, refs, v, back) =>
      StoreActionLost(s, p, meta, refs, v, back);
    case StoreUpval(cs, v) => UpvalueEnabled(s, cs, v); UpvalueLost(s, cs, v);
    case SetRoots(globals, running) => RootsEnabled(s, globals, running); RootsLost(s, globals, running);
    case RegisterFinalizer(o) => RegisterEnabled(s, o); RegisterLost(s, o);
    case RunFinalizer => FinalizerLost(s);
    case FixString => FixEnabled(s); FixLost(s);
    case SetEmergency(on) => EmergencyLost(s, on);
    case ShareUpvalue(c, d) => ShareLost(s, s.sharing + {(c, d), (d, c)});
    case StartFullGc =>
  }

  // ---------- steps of the collector ----------

  /** From `s` to `t` the collector went on without changing the heap, but for the main thread. */
  ghost predicate SameMarks(s: State, t: State) {
    && t == s.(heap := t.heap, gcstate := t.gcstate, sweepgc := t.sweepgc, allgc := t.allgc)
    && t.heap.Keys == s.heap.Keys && s.mainthread in s.heap
    && (forall x :: x in s.heap && x != s.mainthread ==> t.heap[x] == s.heap[x])
    && t.heap[s.mainthread] == s.heap[s.mainthread].(colour := t.heap[s.mainthread].colour)
    && (forall x :: x in t.allgc <==> x in s.allgc)
  }

  lemma AwaySame(s: State)
    requires LostInv(s) && s.gcstate == SwpToBeFnz
    ensures StepReady(s) && LostInv(SingleStep(s)) && SameMarks(s, SingleStep(s))
  {
    if s.sweepgc == NoCursor {
      assert SingleStep(s) == s.(gcstate := SwpEnd);
      SameBase(s, s.(gcstate := SwpEnd));
    } else {
      ViewLost(s);
      AwaySwept(s);
    }
  }

  lemma AwaySwept(s: State)
    requires LostInv(s) && s.gcstate == SwpToBeFnz && Lost(s)
    requires var v := s.(gcstate := SwpAllGc); Base(v) && SweepPhase(v)
    ensures StepReady(s) && LostInv(SingleStep(s)) && SameMarks(s, SingleStep(s))
  {
    var v := s.(gcstate := SwpAllGc);
    var done := SweepSomeEffect(v, GCSWEEPMAX);
    var w := SweepSome(v, GCSWEEPMAX);
    SweptPast(v, GCSWEEPMAX);
    SweptSame(s, v, w, done);
    var u := w.(gcstate := SwpToBeFnz);
    SweptLost(s, u);
    AwayParts(s);
    if w.sweepgc == NoCursor { SameBase(u, u.(gcstate := SwpEnd)); }
  }

  lemma SweptSame(s: State, v: State, w: State, done: seq<Ref>)
    requires LostInv(s) && s.gcstate == SwpToBeFnz && v == s.(gcstate := SwpAllGc) && SweepEffect(v, w, done)
    ensures w.heap == s.heap && (forall x :: x in s.allgc <==> x in w.allgc) && NoDup(w.allgc)
            && CursorIn(w.allgc, w.sweepgc)
    ensures w == v.(allgc := w.allgc, sweepgc := w.sweepgc)
  {
    forall x | x in s.heap ensures !Dead(v, x) { assert !Dead(s, x); }
    forall x | x in done ensures CurrentWhite(v, x) {
      assert x in s.allgc && x !in s.tobefnz && !Stale(s, x);
    }
    forall x | x in s.heap ensures w.heap[x] == s.heap[x] {
      if x in done { assert CurrentWhite(v, x); }
    }
    assert w.heap == s.heap;
  }

  lemma EndSame(s: State)
    requires LostInv(s) && s.gcstate == SwpEnd
    ensures StepReady(s) && LostInv(SingleStep(s)) && SameMarks(s, SingleStep(s))
  {
    assert IsRoot(s, s.mainthread);
    var t := SetColour(s, s.mainthread, White(s.currentwhite));
    MainBase(s, t);
    SameBase(t, t.(gcstate := CallFin));
  }

  lemma MainBase(s: State, t: State)
    requires Base(s) && NoneDead(s) && s.mainthread in s.heap && t == SetColour(s, s.mainthread, White(s.currentwhite))
    ensures Base(t) && NoneDead(t)
  {
    assert forall x :: Dead(t, x) <==> Dead(s, x);
    forall x | Alive(t, x) ensures LiveOut(t, x) {
      assert Alive(s, x) && LiveOut(s, x);
      assert forall y :: Alive(s, y) ==> Alive(t, y);
    }
    assert forall x :: IsRoot(t, x) ==> IsRoot(s, x);
    assert IsRoot(s, s.running);
  }

  /** A step of the collector, up to the pause. */
  lemma CollectLost(s: State)
    requires LostInv(s) && s.gcstate != Pause
    ensures StepReady(s) && LostInv(SingleStep(s))
    ensures forall x :: Stale(SingleStep(s), x) ==> Stale(s, x)
    ensures s.gcstate != CallFin ==> SameMarks(s, SingleStep(s))
  {
    RunningIn(s);
    match s.gcstate {
      case SwpToBeFnz => AwaySame(s); SameStale(s, SingleStep(s));
      case SwpEnd => EndSame(s); SameStale(s, SingleStep(s));
      case CallFin =>
        if s.tobefnz != [] && !s.emergency {
          FinalizerLost(s);
        } else {
          SameBase(s, s.(gcstate := Pause));
        }
    }
  }

  lemma SameStale(s: State, t: State)
    requires SameMarks(s, t)
    ensures forall x :: Stale(t, x) <==> Stale(s, x)
  {
    forall x ensures Stale(t, x) <==> Stale(s, x) {
      assert x in s.heap && x != s.mainthread ==> t.heap[x] == s.heap[x];
    }
  }
}
