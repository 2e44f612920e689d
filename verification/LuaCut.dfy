/** Marking never follows the references of an object that is marked and waits in no gray list.  It
    runs as if such objects had none: it commutes with cutting them off. */
module LuaCut {
  import opened Wrappers
  import opened LuaHeap
  import opened LuaTricolour
  import opened LuaCollector

  /** The objects of `b`, black and without references. */
  function Cut(s: State, b: set<Ref>): State {
    s.(heap := CutHeap(s.heap, b))
  }

  function CutHeap(h: map<Ref, Obj>, b: set<Ref>): map<Ref, Obj> {
    map x | x in h :: if x in b then Leaf(h[x]) else h[x]
  }

  lemma CutUpdate(h: map<Ref, Obj>, b: set<Ref>, x: Ref, o: Obj)
    ensures CutHeap(h[x := o], b) == CutHeap(h, b)[x := if x in b then Leaf(o) else o]
  {
  }

  function Leaf(o: Obj): Obj {
    o.(colour := Black, meta := None, refs := [])
  }

  /** The objects of `b` are marked, and marking is done with them. */
  ghost predicate Settled(s: State, b: set<Ref>) {
    forall x :: x in b && x in s.heap ==> !s.heap[x].colour.White? && x !in s.gray && x !in s.grayagain
  }

  lemma CutWhite(s: State, b: set<Ref>)
    requires Settled(s, b)
    ensures forall x :: IsWhite(Cut(s, b), x) <==> IsWhite(s, x)
    ensures WhiteSet(Cut(s, b)) == WhiteSet(s)
  {
  }

  lemma CutClosed(s: State, b: set<Ref>)
    requires Closed(s)
    ensures Closed(Cut(s, b))
  {
    forall x | x in s.heap
      ensures AllIn(Cut(s, b), Cut(s, b).heap[x].Out())
      ensures Cut(s, b).heap[x].kind == Str ==> Cut(s, b).heap[x].Out() == []
    {
      assert AllIn(s, s.heap[x].Out());
    }
  }

  lemma CutColour(s: State, b: set<Ref>, o: Ref, c: Colour)
    requires o in s.heap && o !in b
    ensures SetColour(Cut(s, b), o, c) == Cut(SetColour(s, o, c), b)
  {
    CutUpdate(s.heap, b, o, s.heap[o].(colour := c));
  }

  /** What is gray without the references of `b` is gray with them. */
  lemma GrayUncut(s: State, b: set<Ref>, l: seq<Ref>)
    requires GrayList(Cut(s, b), l)
    ensures GrayList(s, l)
  {
    forall x | x in l ensures GrayNode(s, x) { assert GrayNode(Cut(s, b), x); }
  }

  lemma CutLists(s: State, b: set<Ref>)
    ensures Lists(Cut(s, b)) <==> Lists(s)
  {
    var t := Cut(s, b);
    assert forall x :: x in s.heap ==>
      x in t.heap && t.heap[x].kind == s.heap[x].kind && t.heap[x].finalized == s.heap[x].finalized;
  }

  lemma CutBase(s: State, b: set<Ref>)
    requires Base(s) && forall x :: x in b && x in s.heap ==> !s.heap[x].colour.White? && s.heap[x].kind != Thread
    ensures Base(Cut(s, b)) && (NoneDead(s) ==> NoneDead(Cut(s, b)))
  {
    var t := Cut(s, b);
    assert forall x :: Dead(t, x) <==> Dead(s, x);
    forall x | Alive(t, x) ensures LiveOut(t, x) {
      assert Alive(s, x) && LiveOut(s, x);
      assert forall y :: Alive(s, y) ==> Alive(t, y);
    }
    assert forall x :: IsRoot(t, x) ==> IsRoot(s, x) && Alive(s, x);
    assert IsRoot(s, s.running);
  }

  lemma AtomicReadyUncut(s: State, b: set<Ref>)
    requires AtomicReady(Cut(s, b)) && Closed(s)
    ensures AtomicReady(s)
  {
    GrayUncut(s, b, s.grayagain);
  }

  // ---------- single objects and lists ----------

  lemma {:induction false} MarkObjectCut(s: State, r: Ref, b: set<Ref>)
    requires Closed(s) && r in s.heap && Settled(s, b)
    ensures Closed(Cut(s, b)) && MarkObject(Cut(s, b), r) == Cut(MarkObject(s, r), b)
    ensures Settled(MarkObject(s, r), b)
    decreases |WhiteSet(s)|, 2, 0
  {
    CutClosed(s, b);
    CutWhite(s, b);
    if s.heap[r].colour.White? {
      if s.heap[r].kind == Str {
        CutColour(s, b, r, Black);
      } else if s.heap[r].kind == Userdata {
        UserdataCut(s, r, b);
      } else {
        PushCut(s, r, b);
      }
    }
  }

  lemma PushCut(s: State, o: Ref, b: set<Ref>)
    requires Closed(s) && IsWhite(s, o) && Traversable(s.heap[o].kind) && Settled(s, b)
    requires Closed(Cut(s, b)) && IsWhite(Cut(s, b), o)
    ensures ReallyMarkObject(Cut(s, b), o) == Cut(ReallyMarkObject(s, o), b)
    ensures Settled(ReallyMarkObject(s, o), b)
  {
    CutColour(s, b, o, Gray);
  }

  lemma {:induction false} UserdataCut(s: State, o: Ref, b: set<Ref>)
    requires Closed(s) && IsWhite(s, o) && s.heap[o].kind == Userdata && Settled(s, b)
    requires Closed(Cut(s, b)) && IsWhite(Cut(s, b), o)
    ensures ReallyMarkObject(Cut(s, b), o) == Cut(ReallyMarkObject(s, o), b)
    ensures Settled(ReallyMarkObject(s, o), b)
    decreases |WhiteSet(s)|, 1, 0
  {
    ColourMarks(s, o, Gray);
    ColourMarks(Cut(s, b), o, Gray);
    CutColour(s, b, o, Gray);
    VisitCut(SetColour(s, o, Gray), o, b);
  }

  lemma {:induction false} VisitCut(s: State, o: Ref, b: set<Ref>)
    requires Closed(s) && o in s.heap && s.heap[o].colour.Gray? && o !in b && Settled(s, b)
    ensures Closed(Cut(s, b)) && MarkUserdata(Cut(s, b), o) == Cut(MarkUserdata(s, o), b)
    ensures Settled(MarkUserdata(s, o), b)
    decreases |WhiteSet(s)|, 4, 0
  {
    CutClosed(s, b);
    OutParts(s, o);
    OutParts(Cut(s, b), o);
    var s2 := MarkList(s, s.heap[o].MetaRefs());
    MarkListCut(s, s.heap[o].MetaRefs(), b);
    Touched(s, s2, o);
    Touched(Cut(s, b), Cut(s2, b), o);
    CutColour(s2, b, o, Black);
    MarkListCut(SetColour(s2, o, Black), s.heap[o].refs, b);
  }

  lemma {:induction false} MarkListCut(s: State, l: seq<Ref>, b: set<Ref>)
    requires Closed(s) && AllIn(s, l) && Settled(s, b)
    ensures Closed(Cut(s, b)) && MarkList(Cut(s, b), l) == Cut(MarkList(s, l), b)
    ensures Settled(MarkList(s, l), b)
    decreases |WhiteSet(s)|, 3, |l|
  {
    CutClosed(s, b);
    if l != [] {
      MarkObjectCut(s, l[0], b);
      MarkedAllIn(s, MarkObject(s, l[0]), l);
      MarkListCut(MarkObject(s, l[0]), l[1..], b);
    }
  }

  // ---------- propagation ----------

  lemma CutGray(s: State, l: seq<Ref>, b: set<Ref>)
    requires forall x :: x in l ==> x !in b
    ensures GrayList(Cut(s, b), l) <==> GrayList(s, l)
  {
    assert forall x :: x in l ==> (GrayNode(Cut(s, b), x) <==> GrayNode(s, x));
  }

  lemma TakeGrayCut(s: State, b: set<Ref>)
    requires s.gray != [] && s.gray[0] in s.heap && s.gray[0] !in b && Settled(s, b)
    ensures TakeGray(Cut(s, b)) == Cut(TakeGray(s), b) && Settled(TakeGray(s), b)
  {
    CutColour(s, b, s.gray[0], if s.heap[s.gray[0]].kind == Thread then Gray else Black);
    assert forall x :: x in s.gray[1..] ==> x in s.gray;
  }

  lemma PropagateMarkCut(s: State, b: set<Ref>)
    requires Closed(s) && GrayList(s, s.gray) && s.gray != [] && Settled(s, b)
    requires AllIn(s, s.gray) && GrayNode(s, s.gray[0])
    ensures Closed(Cut(s, b)) && GrayNode(Cut(s, b), s.gray[0]) && AllIn(Cut(s, b), s.gray)
    ensures PropagateMark(Cut(s, b)) == Cut(PropagateMark(s), b) && Settled(PropagateMark(s), b)
  {
    CutClosed(s, b);
    assert s.gray[0] in s.gray;
    TakeGrayFacts(s);
    TakeGrayCut(s, b);
    MarkListCut(TakeGray(s), s.heap[s.gray[0]].Out(), b);
  }

  lemma {:induction false} PropagateAllCut(s: State, b: set<Ref>)
    requires Closed(s) && GrayList(s, s.gray) && Settled(s, b)
    ensures Closed(Cut(s, b)) && GrayList(Cut(s, b), s.gray)
    ensures PropagateAll(Cut(s, b)) == Cut(PropagateAll(s), b) && Settled(PropagateAll(s), b)
    decreases Work(s)
  {
    CutClosed(s, b);
    assert forall x :: x in s.gray ==> GrayNode(s, x) && x !in b;
    CutGray(s, s.gray, b);
    if s.gray != [] {
      PropagateMarkGray(s);
      PropagateMarkGray(Cut(s, b));
      PropagateMarkCut(s, b);
      PropagateAllCut(PropagateMark(s), b);
    }
  }

  // ---------- the atomic step ----------

  lemma AtomicReadyCut(s: State, b: set<Ref>)
    requires AtomicReady(s) && Settled(s, b)
    ensures AtomicReady(Cut(s, b))
  {
    CutClosed(s, b);
    assert forall x :: x in s.grayagain ==> GrayNode(s, x) && x !in b;
    CutGray(s, s.grayagain, b);
  }

  lemma MarkChangedCut(s: State, b: set<Ref>)
    requires AtomicReady(s) && AtomicReady(Cut(s, b)) && Settled(s, b)
    ensures MarkChanged(Cut(s, b)) == Cut(MarkChanged(s), b) && Settled(MarkChanged(s), b)
  {
    var l := [s.running] + s.globals;
    MarkListShape(s, l);
    MarkListShape(Cut(s, b), l);
    MarkListCut(s, l, b);
    PropagateAllCut(MarkList(s, l), b);
  }

  lemma MarkStrongCut(s: State, b: set<Ref>)
    requires AtomicReady(s) && AtomicReady(Cut(s, b)) && Settled(s, b)
    ensures MarkStrong(Cut(s, b)) == Cut(MarkStrong(s), b) && Settled(MarkStrong(s), b)
  {
    MarkChangedCut(s, b);
    assert MarkAgain(Cut(s, b)) == Cut(MarkAgain(s), b);
    assert Settled(MarkAgain(s), b) by {
      assert forall x :: x in s.grayagain ==> GrayNode(s, x) && x !in b;
    }
    PropagateAllCut(MarkAgain(s), b);
  }

  lemma {:induction false} FilterCut(h: map<Ref, Obj>, k: map<Ref, Obj>, l: seq<Ref>)
    requires forall x :: x in l ==> x in h && x in k && (h[x].colour.White? <==> k[x].colour.White?)
    ensures Whites(h, l) == Whites(k, l) && NonWhites(h, l) == NonWhites(k, l)
  {
    if l != [] { FilterCut(h, k, l[1..]); }
  }

  lemma ResurrectedCut(s: State, b: set<Ref>)
    requires Closed(s) && s.gray == [] && AllIn(s, s.finobj) && AllIn(s, s.tobefnz) && Settled(s, b)
    ensures Closed(Cut(s, b)) && AllIn(Cut(s, b), s.finobj) && AllIn(Cut(s, b), s.tobefnz)
    ensures MarkResurrected(Cut(s, b)) == Cut(MarkResurrected(s), b) && Settled(MarkResurrected(s), b)
  {
    CutClosed(s, b);
    CutWhite(s, b);
    FilterCut(s.heap, Cut(s, b).heap, s.finobj);
    var s1 := SeparateToBeFnz(s);
    assert SeparateToBeFnz(Cut(s, b)) == Cut(s1, b);
    GrewClosed(s, s1);
    MarkListShape(s1, s1.tobefnz);
    MarkListShape(Cut(s1, b), s1.tobefnz);
    MarkListCut(s1, s1.tobefnz, b);
    PropagateAllCut(MarkList(s1, s1.tobefnz), b);
  }

  lemma AtomicStepCut(s: State, b: set<Ref>)
    requires AtomicReady(s) && Settled(s, b)
    ensures AtomicReady(Cut(s, b)) && AtomicStep(Cut(s, b)) == Cut(AtomicStep(s), b) && Settled(AtomicStep(s), b)
  {
    AtomicReadyCut(s, b);
    MarkStrongCut(s, b);
    ResurrectedCut(MarkStrong(s), b);
  }

  lemma RestartCut(s: State, b: set<Ref>)
    requires Closed(s) && AllIn(s, RootList(s)) && forall x :: x in b && x in s.heap ==> !s.heap[x].colour.White?
    ensures Closed(Cut(s, b)) && AllIn(Cut(s, b), RootList(s))
    ensures RestartCollection(Cut(s, b)) == Cut(RestartCollection(s), b) && Settled(RestartCollection(s), b)
  {
    CutClosed(s, b);
    var s0 := s.(gray := [], grayagain := []);
    assert Closed(s0) by { GrewRefl(s); GrewClosed(s, s0); }
    assert Cut(s, b).(gray := [], grayagain := []) == Cut(s0, b);
    MarkListCut(s0, RootList(s), b);
  }

  // ---------- singlestep ----------

  lemma StartCut(s: State, b: set<Ref>)
    requires s.gcstate == Pause && Closed(s) && AllIn(s, RootList(s))
    requires forall x :: x in b && x in s.heap ==> !s.heap[x].colour.White?
    ensures StepReady(s) && StepReady(Cut(s, b)) && SingleStep(Cut(s, b)) == Cut(SingleStep(s), b)
    ensures Closed(SingleStep(s)) && Settled(SingleStep(s), b) && SingleStep(s).gcstate == Propagate
  {
    RestartCut(s, b);
    GrewRefl(RestartCollection(s));
    GrewClosed(RestartCollection(s), SingleStep(s));
  }

  lemma PropagateStepCut(s: State, b: set<Ref>)
    requires s.gcstate == Propagate && StepReady(s) && StepReady(Cut(s, b)) && Settled(s, b)
    ensures SingleStep(Cut(s, b)) == Cut(SingleStep(s), b) && Settled(SingleStep(s), b)
    ensures Closed(SingleStep(s)) && Grew(s.heap, SingleStep(s).heap)
    ensures SingleStep(s).mainthread == s.mainthread && SingleStep(s).finobj == s.finobj
    ensures KeepInvariant(SingleStep(s).gcstate)
  {
    PropagateMarkGray(s);
    PropagateMarkGray(Cut(s, b));
    PropagateMarkCut(s, b);
    GrewRefl(PropagateMark(s));
    GrewClosed(PropagateMark(s), SingleStep(s));
  }
}
