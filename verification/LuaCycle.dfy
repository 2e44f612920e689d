/** Every step of the collector keeps the invariant of LuaCollector. */
module LuaCycle {
  import opened LuaHeap
  import opened LuaTricolour
  import opened LuaCollector

  // ---------- marking keeps what holds in every phase ----------

  lemma LiveIsClosed(s: State)
    requires LiveClosed(s) && NoneDead(s)
    ensures Closed(s)
  {
    forall x | x in s.heap
      ensures AllIn(s, s.heap[x].Out()) && (s.heap[x].kind == Str ==> s.heap[x].Out() == [])
    {
      assert Alive(s, x) && LiveOut(s, x);
    }
  }

  lemma GrewLists(s: State, t: State)
    requires Lists(s) && MarkedOnly(s, t)
    ensures Lists(t)
  {
    assert forall x :: x in s.heap ==> Darker(s.heap[x], t.heap[x]);
  }

  lemma GrewNoneDead(s: State, t: State)
    requires NoneDead(s) && MarkedOnly(s, t)
    ensures NoneDead(t)
  {
    assert forall x :: x in s.heap ==> Darker(s.heap[x], t.heap[x]);
  }

  lemma GrewLive(s: State, t: State)
    requires LiveClosed(s) && NoneDead(s) && MarkedOnly(s, t)
    ensures LiveClosed(t)
  {
    GrewNoneDead(s, t);
    forall x | Alive(t, x) ensures LiveOut(t, x) {
      assert Darker(s.heap[x], t.heap[x]);
      assert Alive(s, x) && LiveOut(s, x);
      assert t.heap[x].Out() == s.heap[x].Out();
      forall y | y in s.heap[x].Out() ensures Alive(t, y) {
        assert Alive(s, y);
      }
    }
    assert Darker(s.heap[s.running], t.heap[s.running]);
    forall x | IsRoot(t, x) ensures Alive(t, x) {
      assert IsRoot(s, x);
    }
  }

  lemma GrewFixed(s: State, t: State)
    requires FixedMarked(s) && MarkedOnly(s, t)
    ensures FixedMarked(t)
  {
    assert forall x :: x in s.heap ==> Darker(s.heap[x], t.heap[x]);
  }

  lemma GrewBase(s: State, t: State)
    requires Base(s) && NoneDead(s) && MarkedOnly(s, t) && ThreadsNotBlack(t)
    ensures Base(t) && NoneDead(t)
  {
    GrewLists(s, t);
    GrewNoneDead(s, t);
    GrewLive(s, t);
    GrewFixed(s, t);
  }

  lemma RootsIn(s: State)
    requires Base(s)
    ensures AllIn(s, RootList(s)) && AllIn(s, [s.running] + s.globals) && AllIn(s, s.tobefnz) && AllIn(s, s.finobj)
    ensures AllIn(s, s.allgc)
  {
    forall x | x in RootList(s) || x in [s.running] + s.globals ensures x in s.heap {
      assert IsRoot(s, x);
    }
  }

  // ---------- restartcollection ----------

  /** Between two cycles: no object is marked, but for fixed strings and objects without references. */
  ghost predicate Startable(s: State) {
    && Base(s) && s.gcstate == Pause && s.sweepgc == NoCursor && CurrentWhite(s, s.mainthread)
    && forall x :: x in s.heap ==> x in s.fixedgc || CurrentWhite(s, x) || BlackLeaf(s.heap[x])
  }

  predicate BlackLeaf(o: Obj) {
    o.colour.Black? && o.Out() == []
  }

  lemma PauseStartable(s: State)
    requires Inv(s) && s.gcstate == Pause
    ensures Startable(s)
  {
  }

  lemma RestartBase(s: State)
    requires Startable(s)
    ensures NoneDead(s) && Closed(s) && AllIn(s, RootList(s))
    ensures MarkInv(s.(gray := [], grayagain := []), {}, s.heap.Keys)
  {
    assert NoneDead(s) by {
      forall x | x in s.heap ensures !Dead(s, x) {
        assert x in s.fixedgc || CurrentWhite(s, x) || BlackLeaf(s.heap[x]);
      }
    }
    LiveIsClosed(s);
    RootsIn(s);
    var s0 := s.(gray := [], grayagain := []);
    GrewClosed(s, s0);
    EdgesInside(s0);
  }

  lemma RestartMarks(s: State) returns (s0: State, t: State)
    requires Startable(s)
    ensures StepReady(s) && s0 == s.(gray := [], grayagain := []) && t == RestartCollection(s)
    ensures NoneDead(s) && MarkedOnly(s, t) && Shape(s0, t) && MarkInv(t, {}, s.heap.Keys)
    ensures forall x :: x in RootList(s) ==> !IsWhite(t, x)
  {
    RestartBase(s);
    s0 := s.(gray := [], grayagain := []);
    t := RestartCollection(s);
    MarkListInv(s0, RootList(s), {}, s.heap.Keys);
    MarkListShape(s0, RootList(s));
  }

  /** restartcollection establishes the main invariant. */
  lemma RestartInv(s: State)
    requires Startable(s)
    ensures StepReady(s) && Inv(SingleStep(s))
  {
    var s0, t := RestartMarks(s);
    RestartColours(s, s0, t);
    GrewBase(s, t);
    RestartPhase(s, s0, t);
    PhaseOnly(t, Propagate);
    assert SingleStep(s) == t.(gcstate := Propagate);
  }

  lemma RestartPhase(s: State, s0: State, t: State)
    requires s0 == s.(gray := [], grayagain := []) && t == s0.(heap := t.heap, gray := t.gray)
    requires s.sweepgc == NoCursor && NoneDead(t) && Shape(s0, t) && MarkInv(t, {}, s.heap.Keys)
    requires forall x :: x in RootList(s) ==> !IsWhite(t, x)
    requires forall x :: x in t.heap && t.heap[x].colour.Gray? ==> GrayListed(t, x)
    requires IsWhite(s, s.mainthread) && s.mainthread in t.heap && s.heap[s.mainthread].kind == Thread
    ensures MarkPhase(t) && t.gray != []
  {
    assert s.mainthread in RootList(s);
    assert NewlyMarked(s0, t, s.mainthread);
    assert Elems(t.grayagain) == {};
  }

  /** What holds in every phase does not look at the phase, the cursor or the gray lists. */
  lemma SameBase(s: State, t: State)
    requires t == s.(gcstate := t.gcstate, sweepgc := t.sweepgc, gray := t.gray, grayagain := t.grayagain,
                     emergency := t.emergency)
    requires Base(s)
    ensures Base(t) && (NoneDead(s) ==> NoneDead(t)) && (AllWhite(s) ==> AllWhite(t))
  {
    forall x | Alive(t, x) ensures LiveOut(t, x) {
      assert Alive(s, x) && LiveOut(s, x);
      assert forall y :: Alive(s, y) ==> Alive(t, y);
    }
    forall x | IsRoot(t, x) ensures Alive(t, x) {
      assert IsRoot(s, x) && Alive(s, x);
    }
    assert forall x :: x in s.heap && !Dead(s, x) ==> !Dead(t, x);
    assert forall x :: CurrentWhite(s, x) ==> CurrentWhite(t, x);
    assert forall x :: IsWhite(t, x) ==> IsWhite(s, x);
  }

  lemma PhaseOnly(s: State, g: GCState)
    requires Base(s) && MarkPhase(s)
    ensures Base(s.(gcstate := g)) && MarkPhase(s.(gcstate := g))
  {
    var t := s.(gcstate := g);
    SameBase(s, t);
    assert forall x :: x in s.gray || x in s.grayagain ==> GrayNode(s, x) && GrayNode(t, x);
    forall x | x in s.heap && OutMarked(s, x) ensures OutMarked(t, x) {
      assert forall y :: IsWhite(t, y) ==> IsWhite(s, y);
    }
  }

  lemma RestartColours(s: State, s0: State, t: State)
    requires Startable(s) && s0 == s.(gray := [], grayagain := [])
    requires Grew(s.heap, t.heap) && Shape(s0, t) && t.fixedgc == s.fixedgc
    ensures ThreadsNotBlack(t)
    ensures forall x :: x in t.heap && t.heap[x].colour.Gray? ==> GrayListed(t, x)
  {
    forall x | x in t.heap
      ensures t.heap[x].kind == Thread ==> !t.heap[x].colour.Black?
      ensures t.heap[x].colour.Gray? ==> GrayListed(t, x)
    {
      assert Darker(s.heap[x], t.heap[x]);
      if x !in s.fixedgc && !IsWhite(t, x) && CurrentWhite(s, x) {
        assert NewlyMarked(s0, t, x);
      }
    }
  }

  // ---------- propagatemark and propagateall ----------

  /** Marking from a list of pointers leaves the gray lists in order. */
  lemma ShapeGrayLists(s: State, t: State)
    requires GrayLists(s) && ThreadsNotBlack(s) && Shape(s, t) && Grew(s.heap, t.heap)
    requires t.grayagain == s.grayagain && t.fixedgc == s.fixedgc
    ensures GrayLists(t) && ThreadsNotBlack(t)
  {
    forall x | x in t.heap
      ensures t.heap[x].kind == Thread ==> !t.heap[x].colour.Black?
      ensures t.heap[x].colour.Gray? ==> GrayListed(t, x)
    {
      assert Darker(s.heap[x], t.heap[x]);
      if IsWhite(s, x) && !IsWhite(t, x) {
        assert NewlyMarked(s, t, x);
      } else if t.heap[x].colour.Gray? {
        assert GrayListed(s, x);
      }
    }
    forall x | x in t.grayagain ensures GrayNode(t, x) && x !in t.gray {
      assert GrayNode(s, x);
    }
  }

  lemma TakeGrayLists(s: State)
    requires GrayLists(s) && ThreadsNotBlack(s) && s.gray != [] && s.gray[0] in s.heap
    ensures GrayLists(TakeGray(s)) && ThreadsNotBlack(TakeGray(s))
  {
    var o := s.gray[0];
    var t := TakeGray(s);
    assert o in s.gray && GrayNode(s, o);
    assert [o] + t.gray == s.gray;
    NoDupConcat([o], t.gray);
    NoDupConcat([o], s.grayagain);
    assert GrayList(t, t.gray) by {
      forall x | x in t.gray ensures GrayNode(t, x) { assert GrayNode(s, x); }
    }
    assert GrayList(t, t.grayagain) by {
      forall x | x in t.grayagain ensures GrayNode(t, x) { assert x == o || GrayNode(s, x); }
    }
    forall x | x in t.heap && t.heap[x].colour.Gray? ensures GrayListed(t, x) {
      assert GrayListed(s, x);
    }
  }

  lemma CoveredMore(s: State, p: set<Ref>, q: set<Ref>)
    requires Covered(s, p) && p <= q
    ensures Covered(s, q)
  {
  }

  lemma EdgesInside(s: State)
    requires Closed(s)
    ensures EdgeClosed(s, s.heap.Keys) && Sound(s, s.heap.Keys)
  {
    forall x | x in s.heap ensures forall y :: y in s.heap[x].Out() ==> y in s.heap.Keys {
      assert AllIn(s, s.heap[x].Out());
    }
  }

  lemma PropagateLists(s: State)
    requires Base(s) && MarkPhase(s) && s.gray != []
    ensures Closed(s) && AllIn(s, s.gray) && GrayNode(s, s.gray[0])
    ensures MarkedOnly(s, PropagateMark(s))
    ensures GrayLists(PropagateMark(s)) && ThreadsNotBlack(PropagateMark(s))
  {
    LiveIsClosed(s);
    PropagateMarkGray(s);
    TakeGrayFacts(s);
    TakeGrayLists(s);
    MarkListShape(TakeGray(s), s.heap[s.gray[0]].Out());
    ShapeGrayLists(TakeGray(s), PropagateMark(s));
  }

  lemma PropagateCovered(s: State)
    requires Closed(s) && GrayList(s, s.gray) && s.gray != []
    requires AllIn(s, s.gray) && GrayNode(s, s.gray[0]) && Covered(s, Elems(s.grayagain))
    ensures Covered(PropagateMark(s), Elems(PropagateMark(s).grayagain))
  {
    EdgesInside(s);
    PropagateMarkInv(s, Elems(s.grayagain), s.heap.Keys);
    CoveredMore(PropagateMark(s), Elems(s.grayagain), Elems(PropagateMark(s).grayagain));
  }

  lemma GrewMarked(s: State, t: State, x: Ref)
    requires Grew(s.heap, t.heap) && !IsWhite(s, x)
    ensures !IsWhite(t, x)
  {
    assert x in s.heap ==> Darker(s.heap[x], t.heap[x]);
  }

  lemma PropagatePhase(s: State)
    requires Base(s) && MarkPhase(s) && s.gray != []
    ensures Closed(s) && AllIn(s, s.gray) && GrayNode(s, s.gray[0])
    ensures Base(PropagateMark(s)) && MarkPhase(PropagateMark(s))
  {
    PropagateLists(s);
    var t := PropagateMark(s);
    GrewBase(s, t);
    PropagateCovered(s);
    forall x | !IsWhite(s, x) ensures !IsWhite(t, x) { GrewMarked(s, t, x); }
  }

  /** propagatemark keeps the main invariant. */
  lemma PropagateInv(s: State)
    requires Inv(s) && s.gcstate == Propagate
    ensures StepReady(s) && Inv(SingleStep(s))
  {
    PropagatePhase(s);
    PropagateMarkGray(s);
    PhaseOnly(PropagateMark(s), Atomic);
  }

  lemma {:induction false} PropagateAllPhase(s: State)
    requires Base(s) && MarkPhase(s)
    ensures Closed(s) && Base(PropagateAll(s)) && MarkPhase(PropagateAll(s))
    decreases Work(s)
  {
    LiveIsClosed(s);
    if s.gray != [] {
      PropagateMarkGray(s);
      PropagatePhase(s);
      PropagateAllPhase(PropagateMark(s));
    }
  }
}
