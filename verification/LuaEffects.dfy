/** What each call of the program does to the heap, field by field and in every phase: the references that a
    store leaves behind, the colours that its barrier changes, the lists that an object moves between, and
    the order in which finalizers are called (lgc.c:155-220, 899-918). */
module LuaEffects {
  import opened Wrappers
  import opened LuaHeap
  import opened LuaTricolour
  import opened LuaCollector
  import opened LuaCycle
  import opened LuaMutator
  import opened LuaFinalize
  import opened LuaSafety
  import opened LuaFullGc
  import opened LuaComplete
  import opened LuaKept
  import opened LuaDueFinalizers

  /** Only colours and gray lists differ. */
  ghost predicate Repainted(s: State, t: State) {
    && t == s.(heap := t.heap, gray := t.gray, grayagain := t.grayagain)
    && t.heap.Keys == s.heap.Keys
    && forall x :: x in s.heap ==> t.heap[x] == s.heap[x].(colour := t.heap[x].colour)
  }

  /** The store changes the references of `p` to the given ones and nothing else but colours.  Without a black
      owner of a white object no colour changes.  With one the barrier goes back, to a gray owner on
      `grayagain`, or forward: while the collector marks, to a marked object; while it sweeps, to a white
      owner. */
  ghost predicate Stored(s: State, u: State, t: State, p: Ref, v: Option<Ref>, back: bool)
    requires p in s.heap && (v.Some? ==> v.value in s.heap && v.value in t.heap)
  {
    if !(v.Some? && s.heap[p].colour.Black? && s.heap[v.value].colour.White?) then t == u
    else if back then t == u.(heap := t.heap, grayagain := [p] + s.grayagain) && OnlyPaints(u, t, p, Gray)
    else if KeepInvariant(s.gcstate) then
      Repainted(u, t) && t.grayagain == s.grayagain && !t.heap[v.value].colour.White?
    else t == u.(heap := t.heap) && OnlyPaints(u, t, p, White(s.currentwhite))
  }

  /** What a store does, in every phase; and while the collector marks no black owner is left with a white
      object. */
  lemma StoreEffect(s: State, p: Ref, meta: Option<Ref>, refs: seq<Ref>, v: Option<Ref>, back: bool)
    requires Inv(s) && StoreOk(s, p, meta, refs, v, back)
    ensures StoreReady(s, p, meta, refs)
    ensures var t := Store(s, p, meta, refs, v, back);
      && p in t.heap && (v.Some? ==> v.value in s.heap && v.value in t.heap)
      && Stored(s, s.(heap := s.heap[p := s.heap[p].(meta := meta, refs := refs)]), t, p, v, back)
      && (KeepInvariant(s.gcstate) && t.heap[p].colour.Black? ==> v.None? || !t.heap[v.value].colour.White?)
  {
    StoreBase(s, p, meta, refs, v, back);
    var u := SetOut(s, p, meta, refs);
    assert v.Some? ==> v.value in s.heap;
    if BarrierFires(u, p, v) {
      BarrierEffect(s, u, p, v.value, back);
    }
  }

  lemma BarrierEffect(s: State, u: State, p: Ref, v: Ref, back: bool)
    requires p in s.heap && v in s.heap && p in u.heap && u == SetOut(s, p, u.heap[p].meta, u.heap[p].refs)
    requires s.heap[p].colour.Black? && IsWhite(u, v) && (KeepInvariant(s.gcstate) ==> Closed(u))
    ensures var t := if back then BarrierBack(u, p) else BarrierForward(u, p, v);
      && p in t.heap && v in t.heap && Stored(s, u, t, p, Some(v), back)
      && (KeepInvariant(s.gcstate) && t.heap[p].colour.Black? ==> !t.heap[v].colour.White?)
  {
    if !back && KeepInvariant(s.gcstate) { ForwardEffect(u, v); }
  }

  ghost predicate OnlyPaints(s: State, t: State, p: Ref, c: Colour) {
    && t.heap.Keys == s.heap.Keys && p in s.heap && t.heap[p] == s.heap[p].(colour := c)
    && forall x :: x in s.heap && x != p ==> t.heap[x] == s.heap[x]
  }

  lemma ForwardEffect(u: State, v: Ref)
    requires Closed(u) && IsWhite(u, v)
    ensures var t := ReallyMarkObject(u, v); Repainted(u, t) && !t.heap[v].colour.White? && t.grayagain == u.grayagain
  {
    var t := ReallyMarkObject(u, v);
    assert Marked(u, t);
    forall x | x in u.heap ensures t.heap[x] == u.heap[x].(colour := t.heap[x].colour) {
      assert Darker(u.heap[x], t.heap[x]);
    }
    MarkedNow(u, v);
  }

  lemma MarkedNow(u: State, v: Ref)
    requires Closed(u) && IsWhite(u, v)
    ensures !ReallyMarkObject(u, v).heap[v].colour.White?
  {
    if u.heap[v].kind == Userdata {
      var g := SetColour(u, v, Gray);
      ColourMarks(u, v, Gray);
      assert Marked(g, MarkUserdata(g, v));
      assert Darker(g.heap[v], MarkUserdata(g, v).heap[v]);
    }
  }

  /** A new object is white, without a finalizer, first on `allgc`, and on the stack of the running thread;
      all else is as before. */
  lemma NewObjectEffect(s: State, r: Ref, kind: Kind, meta: Option<Ref>, refs: seq<Ref>)
    requires Inv(s) && NewOk(s, r, kind, meta, refs)
    ensures s.running in s.heap && s.running != r
    ensures var t := NewObject(s, r, kind, meta, refs);
      && t == s.(heap := t.heap, allgc := [r] + s.allgc) && t.heap.Keys == s.heap.Keys + {r}
      && t.heap[r] == Obj(kind, White(s.currentwhite), false, meta, refs)
      && t.heap[s.running] == s.heap[s.running].(refs := s.heap[s.running].refs + [r])
      && forall x :: x in s.heap && x != s.running ==> t.heap[x] == s.heap[x]
  {
    assert IsRoot(s, s.running);
  }

  /** The object `o` has left `allgc` for the head of `finobj`, and no other live object has left its list. */
  ghost predicate Registered(s: State, t: State, o: Ref)
    requires o in s.heap
  {
    && t == s.(heap := t.heap, allgc := t.allgc, finobj := [o] + s.finobj, sweepgc := t.sweepgc)
    && o in t.heap && t.heap[o].finalized && SameRefsOf(s.heap[o], t.heap[o])
    && (forall x :: Alive(s, x) ==> x in t.heap)
    && (forall x :: x in t.heap && x != o ==> x in s.heap && t.heap[x] == s.heap[x].(colour := t.heap[x].colour))
    && (forall x :: x in t.allgc ==> x in s.allgc && x != o)
    && (forall x :: Alive(s, x) && x in s.allgc && x != o ==> x in t.allgc)
  }

  /** An object that gets a finalizer leaves `allgc` for the head of `finobj`, unless it has one already.  The
      sweep of `allgc` passes on if it stands in the object; otherwise no object is freed and the cursor stays. */
  lemma CheckFinalizerEffect(s: State, o: Ref)
    requires Inv(s) && CanFinalize(s, o)
    ensures CheckReady(s, o)
    ensures var t := CheckFinalizer(s, o);
      if s.heap[o].finalized then t == s
      else
        && Registered(s, t, o)
        && (!IsSweepPhase(s.gcstate) || s.sweepgc != After(o) ==>
              t.sweepgc == s.sweepgc && t.heap.Keys == s.heap.Keys && t.allgc == RemoveOne(s.allgc, o))
  {
    CheckIsReady(s, o);
    if !s.heap[o].finalized {
      NotFinalized(s, o);
      if IsSweepPhase(s.gcstate) && s.sweepgc == After(o) {
        RegisteredAtCursor(s, o);
      } else {
        RegisteredAway(s, o);
      }
    }
  }

  lemma RegisteredAway(s: State, o: Ref)
    requires Inv(s) && CanFinalize(s, o) && CheckReady(s, o) && !s.heap[o].finalized && o in s.allgc
    requires !IsSweepPhase(s.gcstate) || s.sweepgc != After(o)
    ensures var t := CheckFinalizer(s, o);
      && Registered(s, t, o)
      && t.sweepgc == s.sweepgc && t.heap.Keys == s.heap.Keys && t.allgc == RemoveOne(s.allgc, o)
  {
    RemoveOneFacts(s.allgc, o, NoCursor);
  }

  lemma RegisteredAtCursor(s: State, o: Ref)
    requires Inv(s) && CanFinalize(s, o) && CheckReady(s, o) && !s.heap[o].finalized && o in s.allgc
    requires IsSweepPhase(s.gcstate) && s.sweepgc == After(o)
    ensures Registered(s, CheckFinalizer(s, o), o)
  {
    var u := SweepObject(s, o);
    CheckIsReady(s, o);
    SweptAtCursor(s, o);
    SweptForMove(s, o);
    RegisteredFrom(s, SweptHere(s, o), u, o);
  }

  lemma SweptAtCursor(s: State, o: Ref)
    requires CheckReady(s, o) && !s.heap[o].finalized && IsSweepPhase(s.gcstate) && s.gcstate == SwpAllGc
    requires s.sweepgc == After(o)
    ensures var w, u := SweptHere(s, o), SweepObject(s, o);
      && u == s.(heap := u.heap, allgc := u.allgc, sweepgc := u.sweepgc)
      && (forall x :: Alive(w, x) ==> x in u.heap)
      && (forall x :: x in u.heap ==> x in w.heap && u.heap[x] == w.heap[x].(colour := u.heap[x].colour))
      && (forall x :: Alive(w, x) && x in s.allgc ==> x in u.allgc)
      && (forall x :: x in u.allgc ==> x in s.allgc)
  {
    var w := SweptHere(s, o);
    assert SweptOn(w, SweepToLive(w));
  }

  lemma RegisteredFrom(s: State, w: State, u: State, o: Ref)
    requires o in s.heap && o in w.heap && o in u.heap && w == SweptHere(s, o) && NoDup(u.allgc)
    requires u == s.(heap := u.heap, allgc := u.allgc, sweepgc := u.sweepgc)
    requires forall x :: Alive(w, x) ==> x in u.heap
    requires forall x :: x in u.heap ==> x in w.heap && u.heap[x] == w.heap[x].(colour := u.heap[x].colour)
    requires forall x :: Alive(w, x) && x in s.allgc ==> x in u.allgc
    requires forall x :: x in u.allgc ==> x in s.allgc
    ensures Registered(s, MoveToFinobj(u, o), o)
  {
    RemoveOneFacts(u.allgc, o, NoCursor);
    assert forall x :: Alive(s, x) ==> Alive(w, x);
  }

  /** Finalizers are called in the reverse of the order in which they were registered: in `t` the object `o`
      has just been registered, after `y`, and if the program can get hold of neither, a full collection hands
      over `o` first. */
  lemma LastRegisteredFirst(s: State, o: Ref, y: Ref, t: State) returns (d: seq<Ref>)
    requires Inv(s) && CanFinalize(s, o) && !s.heap[o].finalized && y in s.finobj
    requires CheckReady(s, o) && t == CheckFinalizer(s, o) && !Attainable(t, o) && !Attainable(t, y)
    ensures Inv(t) && Served(t, FullGc(t, false), t.tobefnz + d) && Precedes(d, o, y)
  {
    CheckFinalizerInv(s, o);
    CheckFinalizerEffect(s, o);
    d := FullGcFinalizers(t, false);
    assert o in t.finobj && y in t.finobj;
    FirstStaysFirst(t.finobj, d, y);
  }

  lemma FirstStaysFirst(l: seq<Ref>, d: seq<Ref>, y: Ref)
    requires NoDup(l) && InOrder(l, d) && l != [] && l[0] in d && y in d && y in l[1..]
    ensures Precedes(d, l[0], y)
  {
    var i :| 0 <= i < |d| && d[i] == l[0];
    var j :| 0 <= j < |d| && d[j] == y;
    assert l[0] !in l[1..];
    assert j < i ==> Precedes(d, y, l[0]);
    assert !Precedes(l, y, l[0]);
  }

  /** A fixed string leaves `allgc` for `fixedgc` and is gray; all else is as before. */
  lemma FixEffect(s: State)
    requires Inv(s) && FixOk(s)
    ensures var o := s.allgc[0]; var t := Fix(s);
      && t == s.(heap := t.heap, allgc := t.allgc, fixedgc := [o] + s.fixedgc)
      && s.allgc == [o] + t.allgc && o !in t.allgc
      && t.heap.Keys == s.heap.Keys && !t.heap[o].colour.White?
      && forall x :: x in s.heap && x != o ==> t.heap[x] == s.heap[x]
  {
    HeadOff(s.allgc);
  }

  /** Assigning a shared upvalue changes the references of the closures that share it to the given ones, and
      nothing else but colours; while the collector marks, the value is marked. */
  lemma UpvalueEffect(s: State, cs: map<Ref, seq<Ref>>, v: Ref)
    requires Inv(s) && UpvalueOk(s, cs, v)
    ensures UpvalueReady(s, cs, v)
    ensures var t := StoreUpvalue(s, cs, v);
      && t == s.(heap := t.heap, gray := t.gray) && t.heap.Keys == s.heap.Keys
      && (forall x :: x in s.heap ==>
            t.heap[x] == s.heap[x].(refs := if x in cs then cs[x] else s.heap[x].refs, colour := t.heap[x].colour))
      && (if KeepInvariant(s.gcstate) then !t.heap[v].colour.White?
          else forall x :: x in s.heap ==> t.heap[x].colour == s.heap[x].colour)
  {
    UpvalueBase(s, cs, v);
    var u := SetUpvalues(s, cs);
    if KeepInvariant(s.gcstate) && IsWhite(u, v) { ForwardEffect(u, v); }
  }
}
