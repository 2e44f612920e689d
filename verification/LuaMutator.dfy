/** What the program may do between two steps of the collector: allocate (luaC_newobj), store
    references under a write barrier, change the roots, register finalizers and fix strings.
    Each of these keeps the collector's invariant. */
module LuaMutator {
  import opened Wrappers
  import opened LuaHeap
  import opened LuaTricolour
  import opened LuaCollector
  import opened LuaCycle

  // ---------- references only ----------

  /** The object at `p` gets other references; its kind, colour and list stay. */
  function SetOut(s: State, p: Ref, meta: Option<Ref>, refs: seq<Ref>): State
    requires p in s.heap
  {
    s.(heap := s.heap[p := s.heap[p].(meta := meta, refs := refs)])
  }

  ghost predicate OutAllowed(s: State, p: Ref, meta: Option<Ref>, refs: seq<Ref>) {
    && p in s.heap
    && AllAlive(s, s.heap[p].(meta := meta, refs := refs).Out())
    && (s.heap[p].kind == Str ==> s.heap[p].(meta := meta, refs := refs).Out() == [])
  }

  lemma SetOutLive(s: State, p: Ref, meta: Option<Ref>, refs: seq<Ref>)
    requires LiveClosed(s) && OutAllowed(s, p, meta, refs)
    ensures LiveClosed(SetOut(s, p, meta, refs))
  {
    var t := SetOut(s, p, meta, refs);
    assert forall x :: Alive(t, x) <==> Alive(s, x);
    forall x | Alive(t, x) ensures LiveOut(t, x) {
      if x != p { assert LiveOut(s, x); }
    }
    assert forall x :: IsRoot(t, x) ==> IsRoot(s, x);
    assert IsRoot(s, s.running);
  }

  lemma SetOutBase(s: State, p: Ref, meta: Option<Ref>, refs: seq<Ref>)
    requires Base(s) && OutAllowed(s, p, meta, refs)
    ensures Base(SetOut(s, p, meta, refs))
    ensures NoneDead(s) ==> NoneDead(SetOut(s, p, meta, refs))
    ensures AllWhite(s) ==> AllWhite(SetOut(s, p, meta, refs))
  {
    var t := SetOut(s, p, meta, refs);
    SetOutLive(s, p, meta, refs);
    assert forall x :: IsWhite(t, x) <==> IsWhite(s, x);
    assert forall x :: Dead(t, x) <==> Dead(s, x);
    assert forall x :: CurrentWhite(t, x) <==> CurrentWhite(s, x);
  }

  lemma SetOutSweep(s: State, p: Ref, meta: Option<Ref>, refs: seq<Ref>)
    requires Base(s) && SweepPhase(s) && OutAllowed(s, p, meta, refs)
    ensures SweepPhase(SetOut(s, p, meta, refs))
  {
    var t := SetOut(s, p, meta, refs);
    assert forall x :: Dead(t, x) <==> Dead(s, x);
    assert forall x :: CurrentWhite(t, x) <==> CurrentWhite(s, x);
  }

  lemma SetOutGrayLists(s: State, p: Ref, meta: Option<Ref>, refs: seq<Ref>)
    requires p in s.heap && GrayLists(s)
    ensures GrayLists(SetOut(s, p, meta, refs))
  {
    var t := SetOut(s, p, meta, refs);
    assert forall x :: GrayNode(s, x) ==> GrayNode(t, x);
    assert forall x :: GrayListed(s, x) ==> GrayListed(t, x);
  }

  lemma SetOutCovered(s: State, p: Ref, meta: Option<Ref>, refs: seq<Ref>, q: set<Ref>)
    requires p in s.heap && Covered(s, q)
    ensures Covered(SetOut(s, p, meta, refs), q + {p})
  {
    var t := SetOut(s, p, meta, refs);
    assert forall y :: IsWhite(t, y) <==> IsWhite(s, y);
    assert forall x :: x in t.heap && x != p && OutMarked(s, x) ==> OutMarked(t, x);
  }

  lemma CoveredDrop(s: State, p: Ref, q: set<Ref>)
    requires Covered(s, q + {p}) && (p !in s.heap || IsWhite(s, p) || p in s.gray || p in q || OutMarked(s, p))
    ensures Covered(s, q)
  {
  }

  /** A store needs no barrier when the object is not black, or gains nothing white. */
  lemma SetOutMark(s: State, p: Ref, meta: Option<Ref>, refs: seq<Ref>)
    requires Base(s) && MarkPhase(s) && OutAllowed(s, p, meta, refs) && s.heap[p].kind != Str
    requires s.heap[p].colour.Black? ==>
               forall y :: y in s.heap[p].(meta := meta, refs := refs).Out() ==> !IsWhite(s, y)
    ensures MarkPhase(SetOut(s, p, meta, refs))
  {
    var t := SetOut(s, p, meta, refs);
    SetOutBase(s, p, meta, refs);
    SetOutGrayLists(s, p, meta, refs);
    SetOutCovered(s, p, meta, refs, Elems(s.grayagain));
    assert forall y :: IsWhite(t, y) <==> IsWhite(s, y);
    if s.heap[p].colour.Black? {
      assert OutMarked(t, p);
    } else if s.heap[p].colour.Gray? {
      assert GrayListed(s, p);
    }
    CoveredDrop(t, p, Elems(s.grayagain));
  }

  // ---------- stores under a write barrier ----------

  /** luaC_barrier_ (lgc.c:155-164). */
  ghost function BarrierForward(s: State, p: Ref, v: Ref): State
    requires p in s.heap && IsWhite(s, v) && (KeepInvariant(s.gcstate) ==> Closed(s))
  {
    if KeepInvariant(s.gcstate) then ReallyMarkObject(s, v) else SetColour(s, p, White(s.currentwhite))
  }

  /** luaC_barrierback_ (lgc.c:171-176). */
  function BarrierBack(s: State, p: Ref): State
    requires p in s.heap
  {
    SetColour(s, p, Gray).(grayagain := [p] + s.grayagain)
  }

  /** The test in the macros luaC_barrier and luaC_barrierback (lgc.h:118-128). */
  predicate BarrierFires(s: State, p: Ref, v: Option<Ref>)
    requires p in s.heap
  {
    v.Some? && s.heap[p].colour.Black? && IsWhite(s, v.value)
  }

  /** A store into `p`: its references become `meta` and `refs`, all of them old ones or `v`. */
  ghost predicate StoreOk(s: State, p: Ref, meta: Option<Ref>, refs: seq<Ref>, v: Option<Ref>, back: bool) {
    && Alive(s, p) && s.heap[p].kind != Str && (v.Some? ==> Alive(s, v.value))
    && (back ==> s.heap[p].kind == Table)
    && forall y :: y in s.heap[p].(meta := meta, refs := refs).Out() ==> y in s.heap[p].Out() || v == Some(y)
  }

  /** The store and its barrier follow no pointer to freed memory. */
  ghost predicate StoreReady(s: State, p: Ref, meta: Option<Ref>, refs: seq<Ref>) {
    p in s.heap && (KeepInvariant(s.gcstate) ==> Closed(SetOut(s, p, meta, refs)))
  }

  ghost function Store(s: State, p: Ref, meta: Option<Ref>, refs: seq<Ref>, v: Option<Ref>, back: bool): State
    requires StoreReady(s, p, meta, refs)
  {
    var t := SetOut(s, p, meta, refs);
    if BarrierFires(t, p, v) then
      if back then BarrierBack(t, p) else BarrierForward(t, p, v.value)
    else t
  }

  lemma StoreBase(s: State, p: Ref, meta: Option<Ref>, refs: seq<Ref>, v: Option<Ref>, back: bool)
    requires Inv(s) && StoreOk(s, p, meta, refs, v, back)
    ensures OutAllowed(s, p, meta, refs) && Base(SetOut(s, p, meta, refs))
    ensures KeepInvariant(s.gcstate) ==> NoneDead(SetOut(s, p, meta, refs)) && Closed(SetOut(s, p, meta, refs))
    ensures StoreReady(s, p, meta, refs)
  {
    assert LiveOut(s, p);
    SetOutBase(s, p, meta, refs);
    if KeepInvariant(s.gcstate) {
      LiveIsClosed(SetOut(s, p, meta, refs));
    }
  }

  /** A barrier fires only while the collector marks or sweeps, as lgc.c:161 asserts. */
  lemma BarrierPhases(s: State, p: Ref, v: Option<Ref>)
    requires Inv(s) && p in s.heap && s.heap[p].kind != Str && BarrierFires(s, p, v)
    ensures KeepInvariant(s.gcstate) || IsSweepPhase(s.gcstate)
  {
  }

  lemma SameMark(s: State, t: State, p: Ref, v: Option<Ref>)
    requires t.heap.Keys == s.heap.Keys
    requires forall x :: x in s.heap ==> t.heap[x].colour == s.heap[x].colour
    ensures forall x :: IsWhite(t, x) <==> IsWhite(s, x)
  {
  }

  /** No barrier: the phase survives. */
  lemma StorePlainInv(s: State, p: Ref, meta: Option<Ref>, refs: seq<Ref>, v: Option<Ref>, back: bool)
    requires Inv(s) && StoreOk(s, p, meta, refs, v, back) && !BarrierFires(SetOut(s, p, meta, refs), p, v)
    ensures Inv(SetOut(s, p, meta, refs))
  {
    StoreBase(s, p, meta, refs, v, back);
    SetOutBase(s, p, meta, refs);
    if KeepInvariant(s.gcstate) {
      StorePlainMark(s, p, meta, refs, v);
    } else if IsSweepPhase(s.gcstate) {
      SetOutSweep(s, p, meta, refs);
    }
  }

  lemma StorePlainMark(s: State, p: Ref, meta: Option<Ref>, refs: seq<Ref>, v: Option<Ref>)
    requires Base(s) && MarkPhase(s) && OutAllowed(s, p, meta, refs) && s.heap[p].kind != Str
    requires forall y :: y in s.heap[p].(meta := meta, refs := refs).Out() ==> y in s.heap[p].Out() || v == Some(y)
    requires !BarrierFires(SetOut(s, p, meta, refs), p, v)
    ensures MarkPhase(SetOut(s, p, meta, refs))
  {
    var t := SetOut(s, p, meta, refs);
    SameMark(s, t, p, v);
    if s.heap[p].colour.Black? {
      assert p !in s.gray && p !in s.grayagain by { assert !GrayNode(s, p); }
      assert OutMarked(s, p);
    }
    SetOutMark(s, p, meta, refs);
  }

  // ---------- the forward barrier ----------

  lemma ForwardMarkInv(s: State, p: Ref, meta: Option<Ref>, refs: seq<Ref>, v: Ref)
    requires Base(s) && MarkPhase(s) && OutAllowed(s, p, meta, refs) && s.heap[p].kind != Str
    requires forall y :: y in s.heap[p].(meta := meta, refs := refs).Out() ==> y in s.heap[p].Out() || v == y
    requires BarrierFires(SetOut(s, p, meta, refs), p, Some(v)) && Closed(SetOut(s, p, meta, refs))
    ensures var u := ReallyMarkObject(SetOut(s, p, meta, refs), v); Base(u) && MarkPhase(u)
  {
    var t := SetOut(s, p, meta, refs);
    SetOutBase(s, p, meta, refs);
    SetOutGrayLists(s, p, meta, refs);
    SetOutCovered(s, p, meta, refs, Elems(s.grayagain));
    SameMark(s, t, p, Some(v));
    assert OutMarked(s, p) by {
      assert !GrayNode(s, p);
    }
    assert forall y :: y in t.heap[p].Out() ==> y == v || !IsWhite(t, y);
    MarkOneInv(t, v, p, Elems(s.grayagain));
  }

  /** Marking `v` repairs the main invariant where only `p` points to it. */
  lemma MarkOneInv(t: State, v: Ref, p: Ref, q: set<Ref>)
    requires Base(t) && NoneDead(t) && GrayLists(t) && Covered(t, q + {p}) && q == Elems(t.grayagain)
    requires Closed(t) && IsWhite(t, v) && p in t.heap && t.sweepgc == NoCursor
    requires forall y :: y in t.heap[p].Out() ==> y == v || !IsWhite(t, y)
    requires !IsWhite(t, t.mainthread) && forall x :: x in t.tobefnz ==> !IsWhite(t, x)
    ensures var u := ReallyMarkObject(t, v); Base(u) && MarkPhase(u)
  {
    var u := ReallyMarkObject(t, v);
    assert u == MarkObject(t, v);
    MarkObjectShape(t, v);
    ShapeGrayLists(t, u);
    GrewBase(t, u);
    EdgesInside(t);
    MarkObjectInv(t, v, q + {p}, t.heap.Keys);
    forall x | !IsWhite(t, x) ensures !IsWhite(u, x) { GrewMarked(t, u, x); }
    assert OutMarked(u, p) by { assert Darker(t.heap[p], u.heap[p]); }
    CoveredDrop(u, p, q);
  }

  /** Turning a black object white or gray while sweeping. */
  lemma SweepRecolour(s: State, p: Ref, c: Colour)
    requires Base(s) && SweepPhase(s) && p in s.heap && s.heap[p].colour.Black? && s.heap[p].kind != Str
    requires c == Gray || c == White(s.currentwhite)
    ensures Base(SetColour(s, p, c)) && SweepPhase(SetColour(s, p, c))
  {
    var t := SetColour(s, p, c);
    assert forall x :: Dead(t, x) <==> Dead(s, x);
    RecolourLive(s, p, c);
    assert forall x :: CurrentWhite(s, x) ==> CurrentWhite(t, x);
  }

  lemma RecolourLive(s: State, p: Ref, c: Colour)
    requires LiveClosed(s) && p in s.heap && forall x :: Dead(SetColour(s, p, c), x) <==> Dead(s, x)
    ensures LiveClosed(SetColour(s, p, c))
  {
    var t := SetColour(s, p, c);
    forall x | Alive(t, x) ensures LiveOut(t, x) {
      assert Alive(s, x) && LiveOut(s, x);
      assert forall y :: Alive(s, y) ==> Alive(t, y);
    }
    assert forall x :: IsRoot(t, x) ==> IsRoot(s, x);
  }

  lemma RegrayAgain(s: State, l: seq<Ref>)
    requires Base(s) && SweepPhase(s) && IsSweepPhase(s.gcstate)
    ensures Base(s.(grayagain := l)) && SweepPhase(s.(grayagain := l))
  {
    var t := s.(grayagain := l);
    SameBase(s, t);
    assert forall x :: CurrentWhite(s, x) ==> CurrentWhite(t, x);
    assert forall x :: Dead(t, x) ==> Dead(s, x);
  }

  // ---------- the backward barrier ----------

  lemma BackMarkInv(s: State, p: Ref, meta: Option<Ref>, refs: seq<Ref>, v: Ref)
    requires Base(s) && MarkPhase(s) && OutAllowed(s, p, meta, refs) && s.heap[p].kind == Table
    requires BarrierFires(SetOut(s, p, meta, refs), p, Some(v))
    ensures var u := BarrierBack(SetOut(s, p, meta, refs), p); Base(u) && MarkPhase(u)
  {
    var t := SetOut(s, p, meta, refs);
    SetOutBase(s, p, meta, refs);
    SetOutGrayLists(s, p, meta, refs);
    SetOutCovered(s, p, meta, refs, Elems(s.grayagain));
    SameMark(s, t, p, Some(v));
    RegrayInv(t, p);
  }

  lemma RegrayInv(t: State, p: Ref)
    requires Base(t) && NoneDead(t) && GrayLists(t) && Covered(t, Elems(t.grayagain) + {p})
    requires p in t.heap && t.heap[p].colour.Black? && t.heap[p].kind == Table && t.sweepgc == NoCursor
    requires !IsWhite(t, t.mainthread) && forall x :: x in t.tobefnz ==> !IsWhite(t, x)
    ensures var u := BarrierBack(t, p); Base(u) && MarkPhase(u)
  {
    var u := BarrierBack(t, p);
    RegrayBase(t, p);
    RegrayLists(t, p);
    RegrayCovered(t, p);
    assert forall y :: IsWhite(u, y) <==> IsWhite(t, y);
  }

  lemma RegrayCovered(t: State, p: Ref)
    requires p in t.heap && t.heap[p].colour.Black? && Covered(t, Elems(t.grayagain) + {p})
    ensures var u := BarrierBack(t, p); Covered(u, Elems(u.grayagain))
  {
    var u := BarrierBack(t, p);
    assert forall y :: IsWhite(u, y) <==> IsWhite(t, y);
    assert forall x :: x in u.heap && OutMarked(t, x) ==> OutMarked(u, x);
  }

  lemma RegrayBase(t: State, p: Ref)
    requires Base(t) && NoneDead(t) && p in t.heap && t.heap[p].colour.Black? && t.heap[p].kind == Table
    ensures Base(BarrierBack(t, p)) && NoneDead(BarrierBack(t, p))
  {
    var u := BarrierBack(t, p);
    assert forall x :: Dead(u, x) <==> Dead(t, x);
    forall x | Alive(u, x) ensures LiveOut(u, x) {
      assert Alive(t, x) && LiveOut(t, x);
      assert forall y :: Alive(t, y) ==> Alive(u, y);
    }
    assert forall x :: IsRoot(u, x) ==> IsRoot(t, x);
  }

  lemma RegrayLists(t: State, p: Ref)
    requires GrayLists(t) && p in t.heap && t.heap[p].colour.Black? && t.heap[p].kind == Table
    ensures GrayLists(BarrierBack(t, p))
  {
    var u := BarrierBack(t, p);
    assert !GrayNode(t, p);
    NoDupConcat([p], t.grayagain);
    assert forall x :: GrayNode(t, x) ==> GrayNode(u, x);
    assert forall x :: GrayListed(t, x) ==> GrayListed(u, x);
  }

  lemma StillGray(t: State, v: Ref)
    requires Closed(t) && GrayList(t, t.gray) && IsWhite(t, v) && t.gray != []
    ensures ReallyMarkObject(t, v).gray != []
  {
    MarkObjectShape(t, v);
    assert t.gray[0] in t.gray;
    assert ReallyMarkObject(t, v) == MarkObject(t, v);
  }

  lemma StoreMarkInv(s: State, p: Ref, meta: Option<Ref>, refs: seq<Ref>, v: Ref, back: bool)
    requires Inv(s) && StoreOk(s, p, meta, refs, Some(v), back) && KeepInvariant(s.gcstate)
    requires BarrierFires(SetOut(s, p, meta, refs), p, Some(v))
    ensures StoreReady(s, p, meta, refs) && Inv(Store(s, p, meta, refs, Some(v), back))
  {
    StoreBase(s, p, meta, refs, Some(v), back);
    if back {
      BackMarkInv(s, p, meta, refs, v);
    } else {
      ForwardMarkInv(s, p, meta, refs, v);
      if s.gray != [] {
        SetOutGrayLists(s, p, meta, refs);
        StillGray(SetOut(s, p, meta, refs), v);
      }
    }
  }

  lemma BarrierSweepInv(t: State, p: Ref, v: Ref, back: bool)
    requires Base(t) && SweepPhase(t) && IsSweepPhase(t.gcstate)
    requires p in t.heap && t.heap[p].colour.Black? && t.heap[p].kind != Str && IsWhite(t, v)
    ensures Inv(if back then BarrierBack(t, p) else BarrierForward(t, p, v))
  {
    SweepRecolour(t, p, if back then Gray else White(t.currentwhite));
    if back {
      RegrayAgain(SetColour(t, p, Gray), [p] + t.grayagain);
    }
  }

  lemma StoreSweepInv(s: State, p: Ref, meta: Option<Ref>, refs: seq<Ref>, v: Ref, back: bool)
    requires Inv(s) && StoreOk(s, p, meta, refs, Some(v), back) && IsSweepPhase(s.gcstate)
    requires BarrierFires(SetOut(s, p, meta, refs), p, Some(v))
    ensures StoreReady(s, p, meta, refs) && Inv(Store(s, p, meta, refs, Some(v), back))
  {
    StoreBase(s, p, meta, refs, Some(v), back);
    SetOutSweep(s, p, meta, refs);
    BarrierSweepInv(SetOut(s, p, meta, refs), p, v, back);
  }

  /** Every store keeps the invariant. */
  lemma StoreInv(s: State, p: Ref, meta: Option<Ref>, refs: seq<Ref>, v: Option<Ref>, back: bool)
    requires Inv(s) && StoreOk(s, p, meta, refs, v, back)
    ensures StoreReady(s, p, meta, refs) && Inv(Store(s, p, meta, refs, v, back))
  {
    StoreBase(s, p, meta, refs, v, back);
    if !BarrierFires(SetOut(s, p, meta, refs), p, v) {
      StorePlainInv(s, p, meta, refs, v, back);
    } else if KeepInvariant(s.gcstate) {
      StoreMarkInv(s, p, meta, refs, v.value, back);
    } else {
      BarrierPhases(s, p, v);
      StoreSweepInv(s, p, meta, refs, v.value, back);
    }
  }

  // ---------- allocation ----------

  /** luaC_newobj (lgc.c:208-216): a new object in the current white, at the head of `allgc`,
      with its first references, pushed on the stack of the running thread. */
  function NewObject(s: State, r: Ref, kind: Kind, meta: Option<Ref>, refs: seq<Ref>): State
    requires s.running in s.heap
  {
    var t := s.(heap := s.heap[r := Obj(kind, White(s.currentwhite), false, meta, refs)], allgc := [r] + s.allgc);
    SetOut(t, s.running, t.heap[s.running].meta, t.heap[s.running].refs + [r])
  }

  ghost predicate NewOk(s: State, r: Ref, kind: Kind, meta: Option<Ref>, refs: seq<Ref>) {
    var o := Obj(kind, White(s.currentwhite), false, meta, refs);
    r !in s.heap && AllAlive(s, o.Out()) && (kind == Str ==> o.Out() == [])
  }

  lemma AllocBase(s: State, r: Ref, o: Obj)
    requires Base(s) && r !in s.heap && o.colour == White(s.currentwhite) && !o.finalized
    requires AllAlive(s, o.Out()) && (o.kind == Str ==> o.Out() == [])
    ensures var t := s.(heap := s.heap[r := o], allgc := [r] + s.allgc);
      Base(t) && (NoneDead(s) ==> NoneDead(t)) && (AllWhite(s) ==> AllWhite(t))
  {
    var t := s.(heap := s.heap[r := o], allgc := [r] + s.allgc);
    NoDupConcat([r], s.allgc);
    AllocLists(s, t, r, o);
    forall x | Alive(t, x) ensures LiveOut(t, x) {
      if x != r { assert Alive(s, x) && LiveOut(s, x); }
      assert forall y :: Alive(s, y) ==> Alive(t, y);
    }
    forall x | IsRoot(t, x) ensures Alive(t, x) { assert IsRoot(s, x) && Alive(s, x); }
    assert forall x :: x in s.heap && !Dead(s, x) ==> !Dead(t, x);
    assert forall x :: CurrentWhite(s, x) ==> CurrentWhite(t, x);
  }

  lemma AllocLists(s: State, t: State, r: Ref, o: Obj)
    requires Lists(s) && r !in s.heap && !o.finalized && NoDup([r] + s.allgc)
    requires t == s.(heap := s.heap[r := o], allgc := [r] + s.allgc)
    ensures Lists(t) && (FixedMarked(s) ==> FixedMarked(t))
  {
    assert forall x :: x in t.allgc <==> x == r || x in s.allgc;
  }

  lemma AllocSweep(s: State, r: Ref, o: Obj)
    requires Base(s) && SweepPhase(s) && r !in s.heap && o.colour == White(s.currentwhite)
    ensures SweepPhase(s.(heap := s.heap[r := o], allgc := [r] + s.allgc))
  {
    var t := s.(heap := s.heap[r := o], allgc := [r] + s.allgc);
    assert forall x :: Dead(t, x) <==> Dead(s, x);
    assert forall x :: CurrentWhite(s, x) ==> CurrentWhite(t, x);
    PushedPassed(r, s.allgc, s.sweepgc);
  }

  lemma PushedPassed(r: Ref, l: seq<Ref>, c: Cursor)
    ensures forall x :: x in Passed([r] + l, c) ==> x == r || x in Passed(l, c)
  {
    assert ([r] + l)[1..] == l;
  }

  lemma AllocCovered(s: State, t: State, r: Ref, q: set<Ref>)
    requires Closed(s) && Covered(s, q) && r !in s.heap && r in t.heap && t.heap == s.heap[r := t.heap[r]]
    requires t.heap[r].colour.White? && t.gray == s.gray
    ensures Covered(t, q)
  {
    forall x | x in s.heap && OutMarked(s, x) ensures OutMarked(t, x) {
      assert AllIn(s, s.heap[x].Out());
    }
  }

  lemma AllocMark(s: State, r: Ref, o: Obj)
    requires Closed(s) && s.mainthread in s.heap && AllIn(s, s.tobefnz)
    requires MarkPhase(s) && r !in s.heap && o.colour == White(s.currentwhite)
    ensures MarkPhase(s.(heap := s.heap[r := o], allgc := [r] + s.allgc))
  {
    var t := s.(heap := s.heap[r := o], allgc := [r] + s.allgc);
    AllocCovered(s, t, r, Elems(s.grayagain));
    AllocGrayLists(s, r, o);
    AllocNoneDead(s, r, o);
  }

  lemma AllocNoneDead(s: State, r: Ref, o: Obj)
    requires NoneDead(s) && r !in s.heap && o.colour == White(s.currentwhite)
    ensures NoneDead(s.(heap := s.heap[r := o], allgc := [r] + s.allgc))
  {
    assert forall x :: x in s.heap && !Dead(s, x) ==> !Dead(s.(heap := s.heap[r := o], allgc := [r] + s.allgc), x);
  }

  lemma AllocGrayLists(s: State, r: Ref, o: Obj)
    requires GrayLists(s) && r !in s.heap && o.colour.White?
    ensures GrayLists(s.(heap := s.heap[r := o], allgc := [r] + s.allgc))
  {
    var t := s.(heap := s.heap[r := o], allgc := [r] + s.allgc);
    assert forall x :: GrayNode(s, x) ==> GrayNode(t, x);
    assert forall x :: GrayListed(s, x) ==> GrayListed(t, x);
  }

  lemma AllocInv(s: State, r: Ref, o: Obj)
    requires Inv(s) && r !in s.heap && o.colour == White(s.currentwhite) && !o.finalized
    requires AllAlive(s, o.Out()) && (o.kind == Str ==> o.Out() == [])
    ensures Inv(s.(heap := s.heap[r := o], allgc := [r] + s.allgc))
  {
    AllocBase(s, r, o);
    if KeepInvariant(s.gcstate) {
      LiveIsClosed(s);
      RootsIn(s);
      AllocMark(s, r, o);
    } else if IsSweepPhase(s.gcstate) {
      AllocSweep(s, r, o);
    }
  }

  /** A thread is never black, so its stack may be changed without a barrier. */
  lemma StackInv(s: State, refs: seq<Ref>)
    requires Inv(s)
    requires forall y :: y in refs ==> Alive(s, y)
    ensures s.running in s.heap && Inv(SetOut(s, s.running, s.heap[s.running].meta, refs))
  {
    var p := s.running;
    assert IsRoot(s, p) && LiveOut(s, p);
    var meta := s.heap[p].meta;
    assert OutAllowed(s, p, meta, refs);
    SetOutBase(s, p, meta, refs);
    if KeepInvariant(s.gcstate) {
      SetOutMark(s, p, meta, refs);
    } else if IsSweepPhase(s.gcstate) {
      SetOutSweep(s, p, meta, refs);
    }
  }

  /** Allocation keeps the invariant. */
  lemma NewObjectInv(s: State, r: Ref, kind: Kind, meta: Option<Ref>, refs: seq<Ref>)
    requires Inv(s) && NewOk(s, r, kind, meta, refs)
    ensures s.running in s.heap && Inv(NewObject(s, r, kind, meta, refs))
  {
    assert IsRoot(s, s.running) && LiveOut(s, s.running);
    var o := Obj(kind, White(s.currentwhite), false, meta, refs);
    AllocInv(s, r, o);
    var t := s.(heap := s.heap[r := o], allgc := [r] + s.allgc);
    forall y | y in t.heap[t.running].refs + [r] ensures Alive(t, y) {
      if y != r { assert Alive(s, y); }
    }
    StackInv(t, t.heap[t.running].refs + [r]);
  }
}
