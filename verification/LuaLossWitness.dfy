/** A run from the start of Lua that loses the sweep cursor.  Many objects with finalizers become garbage
    at once.  While the collector sweeps `tobefnz`, each luaC_step takes the cursor on by the same number
    of objects, but calls twice as many finalizers as the one before: at last it takes the object away
    that the cursor is in.  The run goes on to a state in which a reachable object is freed. */
module LuaLossWitness {
  import opened Wrappers
  import opened LuaHeap
  import opened LuaTricolour
  import opened LuaCollector
  import opened LuaCycle
  import opened LuaAtomic
  import opened LuaSweep
  import opened LuaMutator
  import opened LuaFinalize
  import opened LuaSafety
  import opened LuaFullGc
  import opened LuaQuietLoss
  import opened LuaPace
  import opened LuaExposedObject
  import opened LuaDoomedObject

  // ---------- objects with finalizers ----------

  /** The registry `g` is empty, and `n` tables are registered. */
  ghost predicate Objects(s: State, g: Ref, n: nat) {
    && s.tobefnz == [] && |s.finobj| == n
    && s.running == s.mainthread && s.globals == [g] && g !in s.finobj
    && forall x :: x in s.finobj ==> x in s.heap && s.heap[x].kind == Table
  }

  ghost predicate Registered(s: State, g: Ref, n: nat) {
    && Inv(s) && s.gcstate == Pause && Objects(s, g, n)
    && s.fixedgc == [] && g != s.mainthread && g in s.heap && s.heap[g].Out() == []
  }

  lemma NewTable(s0: Start, s: State, g: Ref, n: nat) returns (r: Ref, t: State)
    requires StepsTo(s0, s) && Registered(s, g, n)
    ensures s.running in s.heap && r !in s.heap && t == Fresh(s, r)
    ensures StepsTo(s0, t) && Registered(t, g, n) && Held(t, r) && r in t.allgc
  {
    RunningIn(s);
    r := Above(s.heap.Keys);
    var a := New(r, Table, None, []);
    ApplyInv(s, a);
    StepsOn(s0, s, a);
    t := Apply(s, a);
    NewHeld(s, r);
  }

  lemma RegisterNew(s0: Start, s: State, g: Ref, n: nat, r: Ref) returns (t: State)
    requires StepsTo(s0, s) && Registered(s, g, n) && Held(s, r) && r in s.allgc && r in s.heap
             && s.heap[r].kind == Table
    requires r != g
    ensures StepsTo(s0, t) && Registered(t, g, n + 1)
  {
    var a := RegisterFinalizer(r);
    ApplyInv(s, a);
    StepsOn(s0, s, a);
    t := Apply(s, a);
    OneMore(s, t, g, n, r);
  }

  lemma OneMore(s: State, t: State, g: Ref, n: nat, r: Ref)
    requires Registered(s, g, n) && r in s.allgc && r in s.heap && s.heap[r].kind == Table && r != g
    requires CheckReady(s, r) && t == CheckFinalizer(s, r) && Inv(t)
    ensures Registered(t, g, n + 1)
  {
    assert !s.heap[r].finalized && t == MoveToFinobj(s, r);
  }

  lemma {:induction false} RegisterMany(s0: Start, g: Ref, n: nat) returns (t: State)
    requires Registered(s0.state, g, 0) && !s0.pace.full
    ensures StepsTo(s0, t) && Registered(t, g, n)
  {
    if n == 0 {
      StepsHere(s0);
      t := s0.state;
    } else {
      var u := RegisterMany(s0, g, n - 1);
      var r, v := NewTable(s0, u, g, n - 1);
      t := RegisterNew(s0, v, g, n - 1, r);
    }
  }

  /** The program drops them. */
  lemma DropAll(s0: Start, s: State, g: Ref, n: nat) returns (t: State)
    requires StepsTo(s0, s) && Registered(s, g, n)
    ensures StepsTo(s0, t) && Registered(t, g, n) && t.mainthread in t.heap && t.heap[t.mainthread].Out() == []
  {
    MainHeld(s);
    RunningIn(s);
    var a := StoreRef(s.mainthread, None, [], None, false);
    ApplyInv(s, a);
    StepsOn(s0, s, a);
    t := Apply(s, a);
    assert t == SetOut(s, s.mainthread, None, []);
  }

  // ---------- the marking does not find them ----------

  /** Nothing but the main thread and the registry has been marked. */
  ghost predicate Unfound(s: State, g: Ref, n: nat) {
    && Inv(s) && KeepInvariant(s.gcstate) && Objects(s, g, n)
    && EdgeClosed(s, {s.mainthread, g}) && Sound(s, {s.mainthread, g})
  }

  lemma StartUnfound(s: State, g: Ref, n: nat)
    requires Registered(s, g, n) && s.mainthread in s.heap && s.heap[s.mainthread].Out() == []
    ensures StepReady(s) && Unfound(SingleStep(s), g, n)
  {
    CollectInv(s);
    StartMarks(s, g, n);
    UnfoundPhase(RestartCollection(s), SingleStep(s), {s.mainthread, g});
    UnfoundObjects(s, SingleStep(s), g, n);
  }

  lemma StartMarks(s: State, g: Ref, n: nat)
    requires Registered(s, g, n) && s.mainthread in s.heap && s.heap[s.mainthread].Out() == []
    ensures Closed(s) && AllIn(s, RootList(s))
    ensures var r := {s.mainthread, g}; EdgeClosed(RestartCollection(s), r) && Sound(RestartCollection(s), r)
  {
    PauseStartable(s);
    RestartBase(s);
    StartClosed(s, g, n, {s.mainthread, g});
    MarkListInv(s.(gray := [], grayagain := []), RootList(s), {}, {s.mainthread, g});
  }

  lemma StartClosed(s: State, g: Ref, n: nat, r: set<Ref>)
    requires Registered(s, g, n) && s.mainthread in s.heap && s.heap[s.mainthread].Out() == [] && r == {s.mainthread, g}
    ensures var s0 := s.(gray := [], grayagain := []); Sound(s0, r) && EdgeClosed(s0, r)
    ensures forall x :: x in RootList(s) ==> x in r
  {
    var s0 := s.(gray := [], grayagain := []);
    assert forall x :: IsWhite(s0, x) <==> IsWhite(s, x);
  }

  lemma UnfoundPhase(s: State, t: State, r: set<Ref>)
    requires EdgeClosed(s, r) && Sound(s, r) && t.heap == s.heap
    ensures EdgeClosed(t, r) && Sound(t, r)
  {
    assert forall x :: IsWhite(t, x) <==> IsWhite(s, x);
  }

  lemma UnfoundObjects(s: State, t: State, g: Ref, n: nat)
    requires Grew(s.heap, t.heap) && Objects(s, g, n)
    requires t == s.(heap := t.heap, gray := t.gray, grayagain := t.grayagain, gcstate := t.gcstate)
    ensures Objects(t, g, n)
  {
    forall x | x in t.finobj ensures x in t.heap && t.heap[x].kind == Table { assert Darker(s.heap[x], t.heap[x]); }
  }

  lemma PropagateUnfound(s: State, g: Ref, n: nat)
    requires Unfound(s, g, n) && s.gcstate == Propagate
    ensures StepReady(s) && Unfound(SingleStep(s), g, n)
  {
    CollectInv(s);
    PropagatePhase(s);
    PropagateMarkInv(s, Elems(s.grayagain), {s.mainthread, g});
    UnfoundPhase(PropagateMark(s), SingleStep(s), {s.mainthread, g});
    UnfoundObjects(s, SingleStep(s), g, n);
  }

  // ---------- the atomic step takes them for garbage ----------

  /** The objects of `l` are marked tables. */
  ghost predicate MarkedTables(s: State, l: seq<Ref>) {
    forall x :: x in l ==> x in s.heap && !s.heap[x].colour.White? && s.heap[x].kind == Table
  }

  /** The sweep has not come to `tobefnz`, which is `l`. */
  ghost predicate Separated(s: State, l: seq<Ref>) {
    && Inv(s) && s.tobefnz == l && MarkedTables(s, l)
    && (s.gcstate == SwpAllGc || s.gcstate == SwpFinObj || (s.gcstate == SwpToBeFnz && s.sweepgc == Header))
  }

  lemma {:induction false} AllWhites(h: map<Ref, Obj>, l: seq<Ref>)
    requires forall x :: x in l ==> x in h && h[x].colour.White?
    ensures Whites(h, l) == l
  {
    if l != [] { AllWhites(h, l[1..]); }
  }

  lemma DrainUnfound(s: State, g: Ref, n: nat)
    requires Unfound(s, g, n)
    ensures Closed(s)
    ensures var p := PropagateAll(s);
      && Base(p) && MarkPhase(p) && p.gray == [] && Objects(p, g, n) && p.finobj == s.finobj
      && EdgeClosed(p, {p.mainthread, g}) && Sound(p, {p.mainthread, g})
  {
    PropagateAllPhase(s);
    PropagateAllInv(s, Elems(s.grayagain), {s.mainthread, g});
    UnfoundObjects(s, PropagateAll(s), g, n);
  }

  /** When everything strongly accessible is marked, the registered objects are white. */
  lemma StrongUnfound(p: State, g: Ref, n: nat)
    requires Base(p) && MarkPhase(p) && p.gray == [] && Objects(p, g, n)
    requires EdgeClosed(p, {p.mainthread, g}) && Sound(p, {p.mainthread, g})
    ensures AtomicReady(p)
    ensures var v := MarkStrong(p); forall x :: x in p.finobj ==> x in v.heap && v.heap[x].colour.White?
  {
    NotFinobj(p, g, {p.mainthread, g});
    UnfoundStrong(p, {p.mainthread, g});
  }

  lemma NotFinobj(s: State, g: Ref, r: set<Ref>)
    requires Lists(s) && g !in s.finobj && r == {s.mainthread, g} && s.running == s.mainthread && s.globals == [g]
    ensures forall x :: x in s.finobj ==> x !in r
    ensures InSet([s.running] + s.globals, r)
  {
  }

  lemma UnfoundStrong(p: State, r: set<Ref>)
    requires Base(p) && MarkPhase(p) && p.gray == [] && EdgeClosed(p, r) && Sound(p, r)
    requires InSet([p.running] + p.globals, r) && forall x :: x in p.finobj ==> x !in r
    ensures AtomicReady(p)
    ensures var v := MarkStrong(p); forall x :: x in p.finobj ==> x in v.heap && v.heap[x].colour.White?
  {
    AtomicIsReady(p);
    StrongInv(p, r);
    StayWhite(MarkStrong(p), p.finobj, r);
  }

  lemma StayWhite(v: State, l: seq<Ref>, r: set<Ref>)
    requires Sound(v, r) && forall x :: x in l ==> x in v.heap && x !in r
    ensures forall x :: x in l ==> v.heap[x].colour.White?
  {
  }

  lemma SeparatesAll(p: State, g: Ref, n: nat)
    requires Base(p) && MarkPhase(p) && p.gray == [] && Objects(p, g, n) && AtomicReady(p)
    requires var v := MarkStrong(p); forall x :: x in p.finobj ==> x in v.heap && v.heap[x].colour.White?
    ensures AtomicStep(p).tobefnz == p.finobj && MarkedTables(AtomicStep(p), p.finobj)
  {
    var v := MarkStrong(p);
    AllWhites(v.heap, p.finobj);
    AtomicIsReady(p);
    AtomicMarksInv(p, p.heap.Keys);
    var u := AtomicMarks(p);
    GrewTrans(p.heap, v.heap, u.heap);
    TablesMarked(p, u, p.finobj);
  }

  lemma TablesMarked(p: State, u: State, l: seq<Ref>)
    requires Grew(p.heap, u.heap) && NoneWhite(u, l) && forall x :: x in l ==> x in p.heap && p.heap[x].kind == Table
    ensures MarkedTables(u, l)
  {
    forall x | x in l ensures x in u.heap && !u.heap[x].colour.White? && u.heap[x].kind == Table {
      assert Darker(p.heap[x], u.heap[x]);
      assert !IsWhite(u, x);
    }
  }

  lemma AtomicSeparates(s: State, g: Ref, n: nat)
    requires Unfound(s, g, n) && s.gcstate == Atomic
    ensures StepReady(s) && Separated(SingleStep(s), s.finobj)
  {
    CollectInv(s);
    DrainUnfound(s, g, n);
    StrongUnfound(PropagateAll(s), g, n);
    SeparatesAll(PropagateAll(s), g, n);
    AtomicFlipped(s);
    var f := AtomicStep(PropagateAll(s));
    EnterSweepTables(f, s.finobj);
  }

  lemma EnterSweepTables(f: State, l: seq<Ref>)
    requires Lists(f) && f.tobefnz == l && MarkedTables(f, l)
    ensures NoDup(f.allgc) && AllIn(f, f.allgc)
    ensures EnterSweep(f).tobefnz == l && MarkedTables(EnterSweep(f), l) && EnterSweep(f).gcstate == SwpAllGc
  {
    var t := f.(gcstate := SwpAllGc, sweepgc := Header);
    StillLists(f, t);
    SweepTables(t, l, 1);
  }

  /** Sweeping another list leaves them as they are. */
  lemma SweepTables(s: State, l: seq<Ref>, count: nat)
    requires Lists(s) && s.tobefnz == l && MarkedTables(s, l) && (s.gcstate == SwpAllGc || s.gcstate == SwpFinObj)
    ensures NoDup(Ahead(SweepTarget(s), s.sweepgc)) && AllIn(s, Ahead(SweepTarget(s), s.sweepgc))
    ensures SweepSome(s, count).tobefnz == l && MarkedTables(SweepSome(s, count), l)
    ensures SweepSome(s, count).gcstate == s.gcstate
  {
    var done := SweepSomeEffect(s, count);
    forall x | x in l ensures x !in done { }
  }

  lemma SweepSeparated(s: State, l: seq<Ref>)
    requires Separated(s, l) && s.gcstate != SwpToBeFnz
    ensures StepReady(s) && Separated(SingleStep(s), l)
  {
    CollectInv(s);
    SweepTables(s, l, GCSWEEPMAX);
    SweepingStep(s);
    SweepStepParts(s, NextSweep(s.gcstate), NextCursor(s.gcstate));
  }

  // ---------- up to the first step into `tobefnz` ----------

  lemma {:induction false} ToTables(s0: Start, s: State, l: seq<Ref>) returns (t: State)
    requires StepsAt(s0, s, 1) && Separated(s, l)
    ensures StepsAt(s0, t, 1) && Separated(t, l) && t.gcstate == SwpToBeFnz
    decreases Left(s, {CallFin}).0, Left(s, {CallFin}).1
  {
    if s.gcstate == SwpToBeFnz {
      t := s;
    } else {
      SweepOthersOn(s0, s, l);
      t := ToTables(s0, SingleStep(s), l);
    }
  }

  lemma SweepOthersOn(s0: Start, s: State, l: seq<Ref>)
    requires StepsAt(s0, s, 1) && Separated(s, l) && s.gcstate != SwpToBeFnz
    ensures StepReady(s) && StepsAt(s0, SingleStep(s), 1) && Separated(SingleStep(s), l)
    ensures var a, b := Left(SingleStep(s), {CallFin}), Left(s, {CallFin}); a.0 < b.0 || (a.0 == b.0 && a.1 < b.1)
  {
    SweepSeparated(s, l);
    StepsAtOn(s0, s, 1);
    AdvanceLeft(s, {CallFin});
  }

  lemma {:induction false} ToAtomic(s0: Start, s: State, g: Ref, n: nat) returns (t: State, l: seq<Ref>)
    requires StepsTo(s0, s) && Unfound(s, g, n)
    ensures StepsAt(s0, t, 1) && Separated(t, l) && |l| == n
    decreases Left(s, {CallFin}).0, Left(s, {CallFin}).1
  {
    if s.gcstate == Atomic {
      AtomicSeparates(s, g, n);
      StepsAtomic(s0, s);
      t, l := SingleStep(s), s.finobj;
    } else {
      MarkOn(s0, s, g, n);
      t, l := ToAtomic(s0, SingleStep(s), g, n);
    }
  }

  lemma MarkOn(s0: Start, s: State, g: Ref, n: nat)
    requires StepsTo(s0, s) && Unfound(s, g, n) && s.gcstate == Propagate
    ensures StepReady(s) && StepsTo(s0, SingleStep(s)) && Unfound(SingleStep(s), g, n)
    ensures var a, b := Left(SingleStep(s), {CallFin}), Left(s, {CallFin}); a.0 < b.0 || (a.0 == b.0 && a.1 < b.1)
  {
    PropagateUnfound(s, g, n);
    CollectOn(s0, s);
  }

  lemma CollectOn(s0: Start, s: State)
    requires StepsTo(s0, s) && Lists(s) && StepReady(s) && s.gcstate != CallFin
    ensures StepsTo(s0, SingleStep(s))
    ensures var a, b := Left(SingleStep(s), {CallFin}), Left(s, {CallFin}); a.0 < b.0 || (a.0 == b.0 && a.1 < b.1)
  {
    StepsOn(s0, s, Collect);
    AdvanceLeft(s, {CallFin});
  }

  // ---------- steps into `tobefnz` ----------

  lemma {:induction false} SweepInOrder(h: map<Ref, Obj>, cw: bool, pre: seq<Ref>, rest: seq<Ref>, count: nat)
    requires NoDup(rest) && (forall x :: x in rest ==> x in h && h[x].colour != White(!cw)) && count <= |rest|
    ensures var r := SweepList(h, cw, pre, rest, count);
      r.pre == pre + rest[..count] && r.rest == rest[count..]
    ensures forall x :: x in rest[count..] ==> x in SweepList(h, cw, pre, rest, count).heap
    ensures forall x :: x in rest[count..] ==> SweepList(h, cw, pre, rest, count).heap[x] == h[x]
    decreases |rest|
  {
    if count != 0 {
      var h1 := h[rest[0] := h[rest[0]].(colour := White(cw))];
      HeadOff(rest);
      SweepInOrder(h1, cw, pre + [rest[0]], rest[1..], count - 1);
      assert rest[1..][..count - 1] == rest[1..count];
      assert pre + [rest[0]] + rest[1..count] == pre + rest[..count];
      assert rest[1..][count - 1..] == rest[count..];
    }
  }

  /** The sweep of `tobefnz` has passed `a`, and `b` is left. */
  ghost predicate Sweeps(s: State, a: seq<Ref>, b: seq<Ref>) {
    && Inv(s) && s.gcstate == SwpToBeFnz && s.tobefnz == a + b && s.sweepgc == CursorAt(a, b)
    && b != [] && MarkedTables(s, b)
  }

  /** The sweep of `tobefnz` has passed `x` objects, and `y` are left. */
  ghost predicate Calling(s: State, x: nat, y: nat) {
    exists a, b :: Sweeps(s, a, b) && |a| == x && |b| == y
  }

  lemma FirstCalling(s: State, l: seq<Ref>)
    requires Separated(s, l) && s.gcstate == SwpToBeFnz && l != []
    ensures Calling(s, 0, |l|)
  {
    assert [] + l == l;
    assert Sweeps(s, [], l);
  }

  /** One step: GCSWEEPMAX more. */
  lemma SweepMore(s: State, x: nat, y: nat)
    requires Calling(s, x, y) && y > GCSWEEPMAX
    ensures StepReady(s) && Calling(SingleStep(s), x + GCSWEEPMAX, y - GCSWEEPMAX)
  {
    var a, b :| Sweeps(s, a, b) && |a| == x && |b| == y;
    CollectInv(s);
    SweepFurther(s, a, b);
    Known(SingleStep(s), a + b[..GCSWEEPMAX], b[GCSWEEPMAX..]);
  }

  lemma Known(s: State, a: seq<Ref>, b: seq<Ref>)
    requires Sweeps(s, a, b)
    ensures Calling(s, |a|, |b|)
  {
  }

  lemma SweepFurther(s: State, a: seq<Ref>, b: seq<Ref>)
    requires Sweeps(s, a, b) && |b| > GCSWEEPMAX && StepReady(s) && Inv(SingleStep(s))
    ensures Sweeps(SingleStep(s), a + b[..GCSWEEPMAX], b[GCSWEEPMAX..])
  {
    SweepParts(s, a, b);
    SweptInOrder(s, a, b);
    SweepingStep(s);
    SweepStepParts(s, SwpEnd, NoCursor);
  }

  lemma SweepParts(s: State, a: seq<Ref>, b: seq<Ref>)
    requires Sweeps(s, a, b)
    ensures NoDup(b) && Passed(s.tobefnz, s.sweepgc) == a && Ahead(s.tobefnz, s.sweepgc) == b && !Lost(s)
  {
    NoDupConcat(a, b);
    PassedAt(a, b);
  }

  lemma SweptInOrder(s: State, a: seq<Ref>, b: seq<Ref>)
    requires s.gcstate == SwpToBeFnz && s.tobefnz == a + b && MarkedTables(s, b) && NoDup(b) && |b| > GCSWEEPMAX
    requires Passed(s.tobefnz, s.sweepgc) == a && Ahead(s.tobefnz, s.sweepgc) == b && s.sweepgc == CursorAt(a, b)
    ensures NoDup(Ahead(SweepTarget(s), s.sweepgc)) && AllIn(s, Ahead(SweepTarget(s), s.sweepgc))
    ensures var t, c, d := SweepSome(s, GCSWEEPMAX), a + b[..GCSWEEPMAX], b[GCSWEEPMAX..];
      && t.tobefnz == c + d && t.gcstate == SwpToBeFnz && t.sweepgc == CursorAt(c, d) && t.sweepgc != NoCursor
      && s.sweepgc != NoCursor && MarkedTables(t, d)
  {
    SweepInOrder(s.heap, s.currentwhite, a, b, GCSWEEPMAX);
    assert forall x :: x in b[GCSWEEPMAX..] ==> x in b;
  }

  /** From `x` and `y` to `x1` and `y1` in `m` steps. */
  predicate Later(x: nat, y: nat, m: nat, x1: nat, y1: nat) {
    x1 == x + GCSWEEPMAX * m && y1 == y - GCSWEEPMAX * m
  }

  lemma {:induction false} SweepMany(s0: Start, s: State, x: nat, y: nat, g: nat, i: nat, m: nat)
    returns (t: State, j: nat, x1: nat, y1: nat)
    requires StepsDue(s0, s, g, i) && Calling(s, x, y) && GCSWEEPMAX * m < y
    ensures StepsDue(s0, t, g, j) && Calling(t, x1, y1) && j == i + m && Later(x, y, m, x1, y1)
    decreases m
  {
    if m == 0 {
      t, j, x1, y1 := s, i, x, y;
    } else {
      SweepOnce(s0, s, x, y, g, i);
      t, j, x1, y1 := SweepMany(s0, SingleStep(s), x + GCSWEEPMAX, y - GCSWEEPMAX, g, i + 1, m - 1);
    }
  }

  lemma SweepOnce(s0: Start, s: State, x: nat, y: nat, g: nat, i: nat)
    requires StepsDue(s0, s, g, i) && Calling(s, x, y) && GCSWEEPMAX < y
    ensures StepReady(s) && StepsDue(s0, SingleStep(s), g, i + 1)
    ensures Calling(SingleStep(s), x + GCSWEEPMAX, y - GCSWEEPMAX)
  {
    SweepMore(s, x, y);
    StepsDueOn(s0, s, g, i);
  }

  /** The steps of one luaC_step. */
  lemma SweepRound(s0: Start, s: State, x: nat, y: nat, g: nat, m: nat) returns (t: State, x1: nat, y1: nat)
    requires StepsAt(s0, s, g) && Calling(s, x, y) && m > 0 && GCSWEEPMAX * m < y && s0.pace.rate == m
    ensures StepsIn(s0, t, g, g) && Calling(t, x1, y1) && Later(x, y, m, x1, y1)
  {
    SweepFirst(s0, s, x, y, g);
    var j;
    t, j, x1, y1 := SweepMany(s0, SingleStep(s), x + GCSWEEPMAX, y - GCSWEEPMAX, g, 1, m - 1);
    DueIn(s0, t, g, j);
  }

  lemma SweepFirst(s0: Start, s: State, x: nat, y: nat, g: nat)
    requires StepsAt(s0, s, g) && Calling(s, x, y) && GCSWEEPMAX < y
    ensures StepReady(s) && StepsDue(s0, SingleStep(s), g, 1)
    ensures Calling(SingleStep(s), x + GCSWEEPMAX, y - GCSWEEPMAX)
  {
    SweepMore(s, x, y);
    StepsAtOn(s0, s, g);
  }

  // ---------- batches ----------

  /** A call that leaves the cursor where it is. */
  lemma CallOne(s: State, x: nat, y: nat)
    requires Calling(s, x, y) && x > 1
    ensures !LosesCursor(s) && |s.tobefnz| > 1
    ensures Defined(s, RunFinalizer) && Calling(CallFinalizer(s), x - 1, y)
  {
    var a, b :| Sweeps(s, a, b) && |a| == x && |b| == y;
    HeadApart(s, a, b);
    HeadCalled(s, a, b);
    Known(CallFinalizer(s), a[1..], b);
  }

  lemma HeadCalled(s: State, a: seq<Ref>, b: seq<Ref>)
    requires Sweeps(s, a, b) && !LosesCursor(s) && s.tobefnz != [] && s.tobefnz[0] in s.heap && s.running in s.heap
    requires a != [] && s.tobefnz[1..] == a[1..] + b && MarkedTables(CallFinalizer(s), b)
    requires CursorAt(a[1..], b) == CursorAt(a, b)
    ensures Sweeps(CallFinalizer(s), a[1..], b)
  {
    ApplyInv(s, RunFinalizer);
  }

  lemma HeadApart(s: State, a: seq<Ref>, b: seq<Ref>)
    requires Sweeps(s, a, b) && |a| > 1
    ensures !LosesCursor(s) && |s.tobefnz| > 1 && s.tobefnz[0] !in b && s.tobefnz[1..] == a[1..] + b
    ensures s.tobefnz[0] in s.heap && s.running in s.heap && MarkedTables(CallFinalizer(s), b)
    ensures CursorAt(a[1..], b) == CursorAt(a, b)
  {
    RunningIn(s);
    NoDupConcat(a, b);
    assert s.tobefnz[0] == a[0] && a[0] != a[|a| - 1];
    assert s.heap[s.running].kind == Thread;
  }

  /** A whole batch. */
  lemma {:induction false} CallBatch(s0: Start, s: State, x: nat, y: nat, g: nat, left: nat) returns (t: State)
    requires StepsIn(s0, s, g, left) && Calling(s, x, y) && 0 < left < x
    ensures StepsAt(s0, t, g * 2 % UINT_RANGE) && Calling(t, x - left, y)
    decreases left
  {
    CallNext(s0, s, x, y, g, left);
    if left == 1 {
      t := CallFinalizer(s);
    } else {
      t := CallBatch(s0, CallFinalizer(s), x - 1, y, g, left - 1);
    }
  }

  lemma CallNext(s0: Start, s: State, x: nat, y: nat, g: nat, left: nat)
    requires StepsIn(s0, s, g, left) && Calling(s, x, y) && 0 < left && 1 < x
    ensures Defined(s, RunFinalizer) && Calling(CallFinalizer(s), x - 1, y)
    ensures left > 1 ==> StepsIn(s0, CallFinalizer(s), g, left - 1)
    ensures left == 1 ==> StepsAt(s0, CallFinalizer(s), g * 2 % UINT_RANGE)
  {
    CallOne(s, x, y);
    StepsCall(s0, s, g, left);
  }

  /** A batch comes to the object that the cursor is in. */
  lemma {:induction false} CallUpTo(s0: Start, s: State, x: nat, y: nat, g: nat, left: nat) returns (t: State, k: nat)
    requires StepsIn(s0, s, g, left) && Calling(s, x, y) && 0 < x <= left
    ensures StepsIn(s0, t, g, k) && k > 0 && Calling(t, 1, y)
    decreases left
  {
    if x == 1 {
      t, k := s, left;
    } else {
      CallNext(s0, s, x, y, g, left);
      t, k := CallUpTo(s0, CallFinalizer(s), x - 1, y, g, left - 1);
    }
  }

  /** One more call loses the cursor, and leaves a table behind. */
  lemma LastCall(s: State, y: nat)
    requires Calling(s, 1, y)
    ensures Inv(s) && LosesCursor(s) && !HarmlessLoss(s) && |s.tobefnz| == y + 1
  {
    var a, b :| Sweeps(s, a, b) && |a| == 1 && |b| == y;
    assert s.tobefnz[0] == a[0] && s.tobefnz[1..] == b;
    assert LeftBehind(s, b[0]) && !Harmless(s, {}, b[0]);
  }

  // ---------- rounds of steps and batches ----------

  function Pow2(n: nat): (r: nat)
    ensures r > 0
  {
    if n == 0 then 1 else 2 * Pow2(n - 1)
  }

  lemma {:induction false} Pow2Grows(j: nat, k: nat)
    requires j <= k
    ensures Pow2(j) <= Pow2(k)
    decreases k - j
  {
    if j < k { Pow2Grows(j, k - 1); }
  }

  /** The counter does not wrap around before round 32. */
  lemma Doubles(j: nat)
    requires j < 31
    ensures Pow2(j) * 2 % UINT_RANGE == Pow2(j + 1)
  {
    Pow2Grows(j + 1, 31);
    assert Pow2(8) == 256 && Pow2(16) == 0x1_0000 && Pow2(24) == 0x100_0000 && Pow2(31) == 0x8000_0000;
  }

  /** Up to round `k` the batches have not come to the cursor; one day they do. */
  lemma {:induction false} Rounds(s0: Start, s: State, j: nat, x: nat, y: nat, m: nat, k: nat)
    returns (t: State, z: nat)
    requires StepsAt(s0, s, Pow2(j)) && Calling(s, x, y) && m > 0 && s0.pace.rate == m && j < k <= 32
    requires x == GCSWEEPMAX * m * j - (Pow2(j) - 1) && y > GCSWEEPMAX * m * (k - j) && Pow2(k) > GCSWEEPMAX * m * k
    ensures Calling(t, 1, z) && y - GCSWEEPMAX * m * (k - j) <= z < y
    ensures exists p :: StepsWith(s0, t, p) && PaceOk(t, p, RunFinalizer)
    decreases k - j
  {
    var w := GCSWEEPMAX * m;
    RoundFits(w, j, k);
    var u, x1, y1 := SweepRound(s0, s, x, y, Pow2(j), m);
    if Pow2(j) < x1 {
      NotYet(w, j, k);
      var v := CallBatch(s0, u, x1, y1, Pow2(j), Pow2(j));
      Doubles(j);
      t, z := Rounds(s0, v, j + 1, x1 - Pow2(j), y1, m, k);
    } else {
      var i;
      t, i := CallUpTo(s0, u, x1, y1, Pow2(j), Pow2(j));
      z := y1;
      InBatch(s0, t, Pow2(j), i);
    }
  }

  lemma InBatch(s0: Start, t: State, g: nat, i: nat)
    requires StepsIn(s0, t, g, i) && i > 0
    ensures exists p :: StepsWith(s0, t, p) && PaceOk(t, p, RunFinalizer)
  {
    var p :| StepsWith(s0, t, p) && p.gcfinnum == g && p.left == i && (p.stepping ==> p.steps >= p.rate);
    assert PaceOk(t, p, RunFinalizer);
  }

  lemma RoundFits(w: nat, j: nat, k: nat)
    requires j < k
    ensures w * (k - j) == w + w * (k - (j + 1)) && w * (j + 1) == w * j + w && w <= w * (k - j)
  {
    assert w * (k - (j + 1)) >= 0;
  }

  /** The batch of the last round is large enough. */
  lemma NotYet(w: nat, j: nat, k: nat)
    requires j < k && Pow2(k) > w * k && Pow2(j) < w * j - (Pow2(j) - 1) + w
    ensures j + 1 < k
  {
    assert w * (j + 1) == w * j + w && Pow2(j + 1) == 2 * Pow2(j);
  }

  // ---------- the loss ----------

  /** The objects become garbage, and the sweep comes to them. */
  lemma ManyWait(s0: Start, registry: Ref, n: nat) returns (s: State)
    requires Registered(s0.state, registry, 0) && !s0.pace.full && n > 0
    ensures StepsAt(s0, s, 1) && Calling(s, 0, n)
  {
    var a := RegisterMany(s0, registry, n);
    var b := DropAll(s0, a, registry, n);
    StartUnfound(b, registry, n);
    StepsOn(s0, b, Collect);
    var c, l := ToAtomic(s0, SingleStep(b), registry, n);
    s := ToTables(s0, c, l);
    FirstCalling(s, l);
  }

  /** Lua can lose the sweep cursor, however many steps `m` luaC_step makes between two batches: if `k`
      rounds are enough for the batches to come up with the steps, and `n` objects for the steps not to
      come to the end before, then some run from the start leads to a harmful loss while `n` objects with
      finalizers wait. */
  lemma CursorCanBeLost(registry: Ref, mainthread: Ref, m: nat, k: nat, n: nat) returns (s: State, p: Pace)
    requires registry != mainthread && m > 0 && 0 < k <= 32 && Pow2(k) > GCSWEEPMAX * m * k && n > GCSWEEPMAX * m * k
    ensures LeadsWith(Start(InitialState(registry, mainthread), FirstPace(m)), s, p) && PaceOk(s, p, RunFinalizer)
    ensures Inv(s) && LosesCursor(s) && !HarmlessLoss(s)
    ensures n - GCSWEEPMAX * m * k < |s.tobefnz| <= n
  {
    var s0 := Start(InitialState(registry, mainthread), FirstPace(m));
    StartRegistered(registry, mainthread);
    var t := ManyWait(s0, registry, n);
    s, p := LoseCursor(s0, t, m, k, n);
  }

  lemma StartRegistered(registry: Ref, mainthread: Ref)
    requires registry != mainthread
    ensures Registered(InitialState(registry, mainthread), registry, 0)
  {
    InitialInv(registry, mainthread);
  }

  lemma LoseCursor(s0: Start, t: State, m: nat, k: nat, n: nat) returns (s: State, p: Pace)
    requires StepsAt(s0, t, 1) && Calling(t, 0, n) && s0.pace.rate == m
    requires m > 0 && 0 < k <= 32 && Pow2(k) > GCSWEEPMAX * m * k && n > GCSWEEPMAX * m * k
    ensures LeadsWith(s0, s, p) && PaceOk(s, p, RunFinalizer) && Inv(s) && LosesCursor(s) && !HarmlessLoss(s)
    ensures n - GCSWEEPMAX * m * k < |s.tobefnz| <= n
  {
    var z;
    s, z := Rounds(s0, t, 0, 0, n, m, k);
    p :| StepsWith(s0, s, p) && PaceOk(s, p, RunFinalizer);
    LastCall(s, z);
  }

  /** With one step a round, and with the five that luaC_step makes at least while it sweeps: a sweep step
      counts as 595 units of work, and the loop asks for 2400. */
  lemma RoundsNeeded()
    ensures Pow2(10) > GCSWEEPMAX * 1 * 10 && Pow2(13) > GCSWEEPMAX * 5 * 13
    ensures forall m: nat :: m <= 1_500_000 ==> Pow2(32) > GCSWEEPMAX * m * 32
  {
    assert Pow2(8) == 256 && Pow2(10) == 1024 && Pow2(13) == 8192;
    assert Pow2(16) == 0x1_0000 && Pow2(24) == 0x100_0000 && Pow2(32) == UINT_RANGE;
  }

  // ---------- the unsafe run ----------

  /** A run from the start of Lua after which the program can reach an object that has been freed. */
  lemma UnsafeRun(registry: Ref, mainthread: Ref, m: nat, k: nat, n: nat) returns (actions: seq<Action>)
    requires registry != mainthread && m > 0 && 0 < k <= 32 && Pow2(k) > GCSWEEPMAX * m * k && n > GCSWEEPMAX * m * k
    ensures Runnable(InitialState(registry, mainthread), actions)
    ensures Paced(InitialState(registry, mainthread), FirstPace(m), actions)
    ensures Unsafe(Run(InitialState(registry, mainthread), actions))
  {
    var s0 := Start(InitialState(registry, mainthread), FirstPace(m));
    var s, p := CursorCanBeLost(registry, mainthread, m, k, n);
    var q := PaceAfter(s, p, RunFinalizer);
    HarmfulCosts(s, q);
    var t :| Leads(Start(CallFinalizer(s), q), t) && Unsafe(t);
    actions := LossRuns(s0, s, p, t);
  }

  /** The run up to the loss, the loss, and the run after it. */
  lemma LossRuns(s0: Start, s: State, p: Pace, t: State) returns (actions: seq<Action>)
    requires LeadsWith(s0, s, p) && Defined(s, RunFinalizer) && PaceOk(s, p, RunFinalizer)
    requires Leads(Start(CallFinalizer(s), PaceAfter(s, p, RunFinalizer)), t)
    ensures Runnable(s0.state, actions) && Paced(s0.state, s0.pace, actions) && Run(s0.state, actions) == t
  {
    var a :| LeadsBy(s0, a, s, p);
    RunMore(s0.state, a, RunFinalizer);
    PaceMore(s0.state, s0.pace, a, RunFinalizer);
    var s1 := Start(CallFinalizer(s), PaceAfter(s, p, RunFinalizer));
    var q :| LeadsWith(s1, t, q);
    var b :| LeadsBy(s1, b, t, q);
    PacedConcat(s0.state, s0.pace, a + [RunFinalizer], b);
    actions := a + [RunFinalizer] + b;
  }
}
