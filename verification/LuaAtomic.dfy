/** The atomic step (lgc.c:979-1023): when it flips the current white, exactly the marked
    objects are alive, the roots are among them, and no pointer leaves them. */
module LuaAtomic {
  import opened LuaHeap
  import opened LuaTricolour
  import opened LuaCollector
  import opened LuaCycle

  lemma PropagateAllThreads(s: State)
    requires Closed(s) && GrayList(s, s.gray) && ThreadsNotBlack(s)
    ensures ThreadsNotBlack(PropagateAll(s))
  {
    PropagateAllShape(s);
    PropThreads(s, PropagateAll(s));
  }

  lemma PropThreads(s: State, t: State)
    requires PropShape(s, t) && Grew(s.heap, t.heap) && ThreadsNotBlack(s) && t.gray == []
    ensures ThreadsNotBlack(t)
  {
    forall x | x in t.heap && t.heap[x].kind == Thread ensures !t.heap[x].colour.Black? {
      assert Darker(s.heap[x], t.heap[x]);
      if Waiting(s, x) && !IsWhite(t, x) { assert Visited(s, t, x); }
    }
  }

  lemma MarkListThreads(s: State, l: seq<Ref>)
    requires Closed(s) && AllIn(s, l) && GrayList(s, s.gray) && ThreadsNotBlack(s)
    ensures ThreadsNotBlack(MarkList(s, l)) && GrayList(MarkList(s, l), MarkList(s, l).gray)
  {
    MarkListShape(s, l);
    ShapeThreads(s, MarkList(s, l));
  }

  lemma ShapeThreads(s: State, t: State)
    requires Shape(s, t) && Grew(s.heap, t.heap) && ThreadsNotBlack(s)
    ensures ThreadsNotBlack(t)
  {
    forall x | x in t.heap && t.heap[x].kind == Thread ensures !t.heap[x].colour.Black? {
      assert Darker(s.heap[x], t.heap[x]);
      if IsWhite(s, x) && !IsWhite(t, x) {
        assert NewlyMarked(s, t, x);
        assert GrayNode(t, x);
      }
    }
  }

  // ---------- first half: strong marking ----------

  ghost predicate InSet(l: seq<Ref>, r: set<Ref>) {
    forall x :: x in l ==> x in r
  }

  ghost predicate NoneWhite(s: State, l: seq<Ref>) {
    forall x :: x in l ==> !IsWhite(s, x)
  }

  lemma NoneWhiteGrows(s: State, t: State, l: seq<Ref>)
    requires NoneWhite(s, l) && Grew(s.heap, t.heap)
    ensures NoneWhite(t, l)
  {
    forall x | x in l ensures !IsWhite(t, x) { GrewMarked(s, t, x); }
  }

  lemma ChangedInv(s: State, r: set<Ref>)
    requires AtomicReady(s) && MarkInv(s, Elems(s.grayagain), r) && InSet([s.running] + s.globals, r)
    requires ThreadsNotBlack(s)
    ensures MarkInv(MarkChanged(s), Elems(s.grayagain), r) && MarkChanged(s).gray == []
    ensures NoneWhite(MarkChanged(s), [s.running] + s.globals) && ThreadsNotBlack(MarkChanged(s))
  {
    var l := [s.running] + s.globals;
    MarkListThreads(s, l);
    MarkListShape(s, l);
    var s1 := MarkList(s, l);
    MarkListInv(s, l, Elems(s.grayagain), r);
    PropagateAllInv(s1, Elems(s.grayagain), r);
    PropagateAllThreads(s1);
    NoneWhiteGrows(s1, PropagateAll(s1), l);
  }

  lemma AgainInv(s: State, r: set<Ref>)
    requires AtomicReady(s) && MarkInv(s, Elems(s.grayagain), r) && InSet([s.running] + s.globals, r)
    requires ThreadsNotBlack(s)
    ensures MarkInv(MarkAgain(s), {}, r)
    ensures NoneWhite(MarkAgain(s), [s.running] + s.globals) && ThreadsNotBlack(MarkAgain(s))
  {
    ChangedInv(s, r);
    SameHeapInv(MarkChanged(s), MarkAgain(s), Elems(s.grayagain), {}, r);
  }

  lemma StrongInv(s: State, r: set<Ref>)
    requires AtomicReady(s) && MarkInv(s, Elems(s.grayagain), r) && InSet([s.running] + s.globals, r)
    requires ThreadsNotBlack(s)
    ensures MarkInv(MarkStrong(s), {}, r)
    ensures NoneWhite(MarkStrong(s), [s.running] + s.globals) && ThreadsNotBlack(MarkStrong(s))
  {
    AgainInv(s, r);
    PropagateAllInv(MarkAgain(s), {}, r);
    PropagateAllThreads(MarkAgain(s));
    NoneWhiteGrows(MarkAgain(s), MarkStrong(s), [s.running] + s.globals);
  }

  // ---------- second half: resurrection ----------

  lemma SeparateInv(s: State, r: set<Ref>)
    requires MarkInv(s, {}, r) && AllIn(s, s.finobj) && AllIn(s, s.tobefnz)
    requires InSet(s.finobj, r) && InSet(s.tobefnz, r) && ThreadsNotBlack(s)
    ensures MarkInv(SeparateToBeFnz(s), {}, r)
    ensures InSet(SeparateToBeFnz(s).tobefnz, r) && ThreadsNotBlack(SeparateToBeFnz(s))
  {
    SameHeapInv(s, SeparateToBeFnz(s), {}, {}, r);
  }

  lemma ResurrectedInv(s: State, r: set<Ref>)
    requires MarkInv(s, {}, r) && s.gray == [] && AllIn(s, s.finobj) && AllIn(s, s.tobefnz)
    requires InSet(s.finobj, r) && InSet(s.tobefnz, r) && ThreadsNotBlack(s)
    ensures MarkInv(MarkResurrected(s), {}, r) && ThreadsNotBlack(MarkResurrected(s))
    ensures NoneWhite(MarkResurrected(s), SeparateToBeFnz(s).tobefnz)
  {
    SeparateInv(s, r);
    var s1 := SeparateToBeFnz(s);
    MarkListShape(s1, s1.tobefnz);
    MarkListThreads(s1, s1.tobefnz);
    MarkListInv(s1, s1.tobefnz, {}, r);
    var s2 := MarkList(s1, s1.tobefnz);
    PropagateAllInv(s2, {}, r);
    PropagateAllThreads(s2);
    NoneWhiteGrows(s2, PropagateAll(s2), s1.tobefnz);
  }

  // ---------- the flip ----------

  lemma {:induction false} FilterNoDup(h: map<Ref, Obj>, l: seq<Ref>)
    requires NoDup(l) && forall x :: x in l ==> x in h
    ensures NoDup(Whites(h, l)) && NoDup(NonWhites(h, l))
  {
    if l != [] {
      assert [l[0]] + l[1..] == l;
      NoDupConcat([l[0]], l[1..]);
      FilterNoDup(h, l[1..]);
      NoDupConcat([l[0]], Whites(h, l[1..]));
      NoDupConcat([l[0]], NonWhites(h, l[1..]));
    }
  }

  lemma SeparateLists(s: State)
    requires Lists(s)
    ensures Lists(SeparateToBeFnz(s))
  {
    var t := SeparateToBeFnz(s);
    FilterNoDup(s.heap, s.finobj);
    NoDupConcat(s.tobefnz, Whites(s.heap, s.finobj));
    assert forall x :: x in t.tobefnz ==> x in s.tobefnz || x in s.finobj;
    assert forall x :: x in s.finobj ==> x in t.finobj || x in t.tobefnz;
  }

  /** Everything that is marked at the end of the atomic step, just before the flip. */
  ghost predicate FlipReady(u: State) {
    && Lists(u) && NoneDead(u) && Closed(u) && ThreadsNotBlack(u) && FixedMarked(u)
    && u.gray == [] && Covered(u, {})
    && (forall x :: IsRoot(u, x) ==> x in u.heap && !IsWhite(u, x))
    && u.running in u.heap && u.heap[u.running].kind == Thread
  }

  lemma Flip(u: State)
    requires FlipReady(u)
    ensures var t := u.(currentwhite := !u.currentwhite);
      Base(t) && DeadOnAllgc(t)
  {
    var t := u.(currentwhite := !u.currentwhite);
    assert forall x :: Dead(t, x) <==> IsWhite(u, x) by {
      assert forall x :: x in u.heap ==> !Dead(u, x);
    }
    forall x | Alive(t, x) ensures LiveOut(t, x) {
      assert OutMarked(u, x) && AllIn(u, u.heap[x].Out());
    }
    assert forall x :: IsWhite(t, x) ==> IsWhite(u, x);
    assert forall x :: IsRoot(t, x) ==> IsRoot(u, x);
  }

  ghost function AtomicMarks(s: State): (t: State)
    requires AtomicReady(s)
    ensures AtomicStep(s) == t.(currentwhite := !t.currentwhite)
  {
    MarkResurrected(MarkStrong(s))
  }

  lemma AtomicIsReady(s: State)
    requires Base(s) && MarkPhase(s) && s.gray == []
    ensures AtomicReady(s) && AllIn(s, s.tobefnz) && AllIn(s, s.finobj)
    ensures MarkInv(s, Elems(s.grayagain), s.heap.Keys)
  {
    LiveIsClosed(s);
    RootsIn(s);
    EdgesInside(s);
  }

  lemma AtomicMarksInv(s: State, r: set<Ref>)
    requires Base(s) && MarkPhase(s) && s.gray == []
    requires MarkInv(s, Elems(s.grayagain), r)
    requires InSet([s.running] + s.globals, r) && InSet(s.finobj, r) && InSet(s.tobefnz, r)
    ensures AtomicReady(s)
    ensures var u := AtomicMarks(s);
      && MarkInv(u, {}, r) && ThreadsNotBlack(u)
      && NoneWhite(u, [s.running] + s.globals) && NoneWhite(u, u.tobefnz)
  {
    AtomicIsReady(s);
    StrongInv(s, r);
    var v := MarkStrong(s);
    ResurrectedInv(v, r);
    NoneWhiteGrows(v, AtomicMarks(s), [s.running] + s.globals);
  }

  lemma FinobjMarked(s: State)
    requires AtomicReady(s)
    ensures NoneWhite(AtomicMarks(s), AtomicMarks(s).finobj)
  {
    var v := MarkStrong(s);
    var u := AtomicMarks(s);
    forall x | x in u.finobj ensures !IsWhite(u, x) {
      GrewMarked(v, u, x);
    }
  }

  lemma AtomicFrames(s: State)
    requires Base(s) && NoneDead(s) && AtomicReady(s)
    ensures var u := AtomicMarks(s);
      && u == s.(heap := u.heap, gray := u.gray, grayagain := u.grayagain, finobj := u.finobj, tobefnz := u.tobefnz)
      && Grew(s.heap, u.heap) && Lists(u) && NoneDead(u) && FixedMarked(u)
  {
    var v := MarkStrong(s);
    var u := AtomicMarks(s);
    GrewLists(s, v);
    GrewNoneDead(s, v);
    GrewFixed(s, v);
    SeparateLists(v);
    var w := SeparateToBeFnz(v);
    GrewLists(w, u);
    assert NoneDead(w) by { assert forall x :: x in w.heap ==> !Dead(v, x); }
    GrewNoneDead(w, u);
    assert FixedMarked(w) by { assert forall x :: IsWhite(w, x) ==> IsWhite(v, x); }
    GrewFixed(w, u);
    GrewTrans(s.heap, v.heap, u.heap);
  }

  lemma AtomicFlips(s: State)
    requires Base(s) && MarkPhase(s) && s.gray == []
    ensures AtomicReady(s) && Base(AtomicStep(s)) && DeadOnAllgc(AtomicStep(s))
  {
    AtomicIsReady(s);
    AtomicMarksInv(s, s.heap.Keys);
    AtomicFrames(s);
    FinobjMarked(s);
    var u := AtomicMarks(s);
    FlipRoots(s, u);
    Flip(u);
  }

  lemma FlipRoots(s: State, u: State)
    requires Base(s) && !IsWhite(s, s.mainthread) && Grew(s.heap, u.heap)
    requires u.mainthread == s.mainthread && u.running == s.running && u.globals == s.globals
    requires Lists(u) && NoneWhite(u, [s.running] + s.globals) && NoneWhite(u, u.tobefnz) && NoneWhite(u, u.finobj)
    ensures forall x :: IsRoot(u, x) ==> x in u.heap && !IsWhite(u, x)
    ensures u.running in u.heap && u.heap[u.running].kind == Thread
  {
    GrewMarked(s, u, s.mainthread);
    assert Darker(s.heap[s.running], u.heap[s.running]);
    forall x | IsRoot(u, x) ensures x in u.heap && !IsWhite(u, x) {
      if x !in u.tobefnz && x !in u.finobj && x != u.mainthread {
        assert IsRoot(s, x) && x in [s.running] + s.globals;
      }
    }
  }
}
