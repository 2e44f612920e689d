/** The main invariant of the collector (lgc.h:15-25): while it is marking, a black object
    never points to a white one, and every gray object waits in a gray list.  Proved here of
    every mark function of LuaHeap, for any set of objects left for later. */
module LuaTricolour {
  import opened LuaHeap

  // ---------- what marking does to single objects and to the gray list ----------

  /** The list `gray` holds each of its objects once; they are gray and have a traverse
      function. */
  ghost predicate GrayList(s: State, l: seq<Ref>) {
    NoDup(l) && forall x :: x in l ==> GrayNode(s, x)
  }

  predicate GrayNode(s: State, x: Ref) {
    x in s.heap && s.heap[x].colour.Gray? && Traversable(s.heap[x].kind)
  }

  /** `x` was marked on the way from `s` to `t`. */
  predicate NewlyMarked(s: State, t: State, x: Ref) {
    IsWhite(s, x) && x in t.heap && !IsWhite(t, x)
  }

  ghost predicate Shape(s: State, t: State) {
    && (forall x :: x in s.heap && !IsWhite(s, x) ==> x in t.heap && t.heap[x] == s.heap[x])
    && (forall x :: NewlyMarked(s, t, x) ==>
          if Traversable(s.heap[x].kind) then x in t.gray else t.heap[x].colour.Black?)
    && (forall x :: x in s.gray ==> x in t.gray)
    && (forall x :: x in t.gray ==> x in s.gray || IsWhite(s, x))
    && GrayList(t, t.gray)
  }

  lemma ShapeTrans(s: State, t: State, u: State)
    requires Shape(s, t) && Shape(t, u) && Grew(s.heap, t.heap) && Grew(t.heap, u.heap)
    ensures Shape(s, u)
  {
    forall x | NewlyMarked(s, u, x)
      ensures if Traversable(s.heap[x].kind) then x in u.gray else u.heap[x].colour.Black?
    {
      assert Darker(s.heap[x], t.heap[x]);
      if IsWhite(t, x) {
        assert NewlyMarked(t, u, x);
      } else {
        assert NewlyMarked(s, t, x);
      }
    }
    forall x | x in u.gray ensures x in s.gray || IsWhite(s, x) {
      if x !in t.gray {
        assert IsWhite(t, x);
        assert Darker(s.heap[x], t.heap[x]);
      }
    }
  }

  lemma {:induction false} MarkObjectShape(s: State, r: Ref)
    requires Closed(s) && r in s.heap && GrayList(s, s.gray)
    ensures Shape(s, MarkObject(s, r)) && !IsWhite(MarkObject(s, r), r)
    decreases |WhiteSet(s)|, 2, 0
  {
    if s.heap[r].colour.White? {
      if s.heap[r].kind == Str {
        StringShape(s, r);
      } else if s.heap[r].kind == Userdata {
        ColourMarks(s, r, Gray);
        UserdataShape(s, r);
      } else {
        PushShape(s, r);
      }
    }
  }

  lemma StringShape(s: State, o: Ref)
    requires Closed(s) && IsWhite(s, o) && !Traversable(s.heap[o].kind) && GrayList(s, s.gray)
    ensures Shape(s, SetColour(s, o, Black))
  {
    GrayListKept(s, SetColour(s, o, Black), o);
  }

  lemma PushShape(s: State, o: Ref)
    requires Closed(s) && IsWhite(s, o) && Traversable(s.heap[o].kind) && GrayList(s, s.gray)
    ensures Shape(s, SetColour(s, o, Gray).(gray := [o] + s.gray))
  {
    var t := SetColour(s, o, Gray).(gray := [o] + s.gray);
    assert !GrayNode(s, o);
    forall x | x in t.gray ensures GrayNode(t, x) {
      assert x == o || GrayNode(s, x);
    }
  }

  lemma {:induction false} UserdataShape(s: State, o: Ref)
    requires Closed(s) && IsWhite(s, o) && s.heap[o].kind == Userdata && GrayList(s, s.gray)
    requires Marked(s, SetColour(s, o, Gray))
    requires |WhiteSet(SetColour(s, o, Gray))| < |WhiteSet(s)|
    ensures var t := MarkUserdata(SetColour(s, o, Gray), o); Shape(s, t) && t.heap[o].colour.Black?
    decreases |WhiteSet(s)|, 1, 0
  {
    var s1 := SetColour(s, o, Gray);
    GrayListKept(s, s1, o);
    OutParts(s1, o);
    var s2 := MarkList(s1, s1.heap[o].MetaRefs());
    MarkListShape(s1, s1.heap[o].MetaRefs());
    Touched(s1, s2, o);
    var s3 := SetColour(s2, o, Black);
    GrayListKept(s2, s3, o);
    var t := MarkList(s3, s1.heap[o].refs);
    MarkListShape(s3, s1.heap[o].refs);
    UserdataShapeJoin(s, s1, s2, s3, t, o);
  }

  lemma GrayListKept(s: State, t: State, o: Ref)
    requires GrayList(s, s.gray) && t.gray == s.gray && o in s.heap && !Traversable(s.heap[o].kind)
    requires o in t.heap && t.heap == s.heap[o := t.heap[o]]
    ensures GrayList(t, t.gray)
  {
    forall x | x in t.gray ensures GrayNode(t, x) {
      assert GrayNode(s, x);
    }
  }

  lemma UserdataShapeJoin(s: State, s1: State, s2: State, s3: State, t: State, o: Ref)
    requires IsWhite(s, o) && s.heap[o].kind == Userdata && s1 == SetColour(s, o, Gray)
    requires Grew(s1.heap, s2.heap) && Shape(s1, s2) && s3 == SetColour(s2, o, Black)
    requires Grew(s3.heap, t.heap) && Shape(s3, t)
    ensures Shape(s, t) && t.heap[o].colour.Black?
  {
    forall x | NewlyMarked(s, t, x)
      ensures if Traversable(s.heap[x].kind) then x in t.gray else t.heap[x].colour.Black?
    {
      if x != o {
        assert Darker(s1.heap[x], s2.heap[x]);
        if IsWhite(s2, x) {
          assert NewlyMarked(s3, t, x);
        } else {
          assert NewlyMarked(s1, s2, x);
        }
      }
    }
    forall x | x in t.gray ensures x in s.gray || IsWhite(s, x) {
      if x !in s2.gray {
        assert IsWhite(s3, x);
        assert Darker(s1.heap[x], s2.heap[x]);
      }
    }
  }

  lemma {:induction false} MarkListShape(s: State, l: seq<Ref>)
    requires Closed(s) && AllIn(s, l) && GrayList(s, s.gray)
    ensures Shape(s, MarkList(s, l))
    ensures forall x :: x in l ==> !IsWhite(MarkList(s, l), x)
    decreases |WhiteSet(s)|, 3, |l|
  {
    if l != [] {
      var s1 := MarkObject(s, l[0]);
      MarkObjectShape(s, l[0]);
      MarkedAllIn(s, s1, l);
      MarkListShape(s1, l[1..]);
      var t := MarkList(s1, l[1..]);
      ShapeTrans(s, s1, t);
      assert Darker(s1.heap[l[0]], t.heap[l[0]]);
      forall x | x in l ensures !IsWhite(t, x) {
        assert x == l[0] || x in l[1..];
      }
    }
  }

  // ---------- the tri-colour invariant and its converse ----------

  predicate OutMarked(s: State, x: Ref)
    requires x in s.heap
  {
    forall y :: y in s.heap[x].Out() ==> !IsWhite(s, y)
  }

  /** Every marked object outside `gray` and outside `p` points to marked objects only.  With
      `p` the list `grayagain` this is the main invariant of lgc.h:15-25. */
  ghost predicate Covered(s: State, p: set<Ref>) {
    forall x :: x in s.heap && !IsWhite(s, x) && x !in s.gray && x !in p ==> OutMarked(s, x)
  }

  /** `r` contains everything its members point to. */
  ghost predicate EdgeClosed(s: State, r: set<Ref>) {
    forall x :: x in s.heap && x in r ==> forall y :: y in s.heap[x].Out() ==> y in r
  }

  /** Nothing outside `r` is marked. */
  ghost predicate Sound(s: State, r: set<Ref>) {
    forall x :: x in s.heap && !IsWhite(s, x) ==> x in r
  }

  ghost predicate MarkInv(s: State, p: set<Ref>, r: set<Ref>) {
    Closed(s) && GrayList(s, s.gray) && Covered(s, p) && EdgeClosed(s, r) && Sound(s, r)
  }

  lemma OutMarkedGrows(s: State, t: State, x: Ref)
    requires Grew(s.heap, t.heap) && x in s.heap && OutMarked(s, x)
    ensures OutMarked(t, x)
  {
    assert Darker(s.heap[x], t.heap[x]);
    assert t.heap[x].Out() == s.heap[x].Out();
    forall y | y in s.heap[x].Out() ensures !IsWhite(t, y) {
      assert !IsWhite(s, y);
      assert y in s.heap ==> Darker(s.heap[y], t.heap[y]);
    }
  }

  lemma CoveredStep(s: State, t: State, p: set<Ref>)
    requires Grew(s.heap, t.heap) && Covered(s, p)
    requires forall x :: x in s.gray ==> x in t.gray || x in p || (x in t.heap && OutMarked(t, x))
    requires forall x :: NewlyMarked(s, t, x) ==> x in t.gray || x in p || OutMarked(t, x)
    ensures Covered(t, p)
  {
    forall x | x in t.heap && !IsWhite(t, x) && x !in t.gray && x !in p ensures OutMarked(t, x) {
      if IsWhite(s, x) {
        assert NewlyMarked(s, t, x);
      } else if x !in s.gray {
        OutMarkedGrows(s, t, x);
      }
    }
  }

  lemma SoundStep(s: State, t: State, r: set<Ref>)
    requires Grew(s.heap, t.heap) && EdgeClosed(s, r) && Sound(s, r)
    requires forall x :: NewlyMarked(s, t, x) ==> x in r
    ensures EdgeClosed(t, r) && Sound(t, r)
  {
    forall x | x in t.heap && x in r ensures forall y :: y in t.heap[x].Out() ==> y in r {
      assert Darker(s.heap[x], t.heap[x]);
    }
    forall x | x in t.heap && !IsWhite(t, x) ensures x in r {
      if IsWhite(s, x) { assert NewlyMarked(s, t, x); }
    }
  }

  /** The invariant looks at the heap and at which objects are left for later, only. */
  lemma SameHeapInv(s: State, t: State, p: set<Ref>, q: set<Ref>, r: set<Ref>)
    requires MarkInv(s, p, r) && t.heap == s.heap && GrayList(s, t.gray)
    requires forall x :: x in s.gray || x in p ==> x in t.gray || x in q
    ensures MarkInv(t, q, r)
  {
    GrewRefl(s);
    GrewClosed(s, t);
    forall x | x in t.gray ensures GrayNode(t, x) {
      assert GrayNode(s, x);
    }
    forall x | x in t.heap && !IsWhite(t, x) && x !in t.gray && x !in q ensures OutMarked(t, x) {
      assert !IsWhite(s, x);
      OutMarkedGrows(s, t, x);
    }
  }

  lemma {:induction false} MarkObjectInv(s: State, o: Ref, p: set<Ref>, r: set<Ref>)
    requires MarkInv(s, p, r) && o in s.heap && o in r
    ensures MarkInv(MarkObject(s, o), p, r)
    decreases |WhiteSet(s)|, 2, 0
  {
    if s.heap[o].colour.White? {
      if s.heap[o].kind == Str {
        StringInv(s, o, p, r);
      } else if s.heap[o].kind == Userdata {
        UserdataInv(s, o, p, r);
      } else {
        PushInv(s, o, p, r);
      }
    }
  }

  lemma StringInv(s: State, o: Ref, p: set<Ref>, r: set<Ref>)
    requires MarkInv(s, p, r) && IsWhite(s, o) && s.heap[o].kind == Str && o in r
    ensures MarkInv(SetColour(s, o, Black), p, r)
  {
    var t := SetColour(s, o, Black);
    ColourMarks(s, o, Black);
    GrayListKept(s, t, o);
    CoveredStep(s, t, p);
    SoundStep(s, t, r);
  }

  lemma PushInv(s: State, o: Ref, p: set<Ref>, r: set<Ref>)
    requires MarkInv(s, p, r) && IsWhite(s, o) && Traversable(s.heap[o].kind) && o in r
    ensures MarkInv(SetColour(s, o, Gray).(gray := [o] + s.gray), p, r)
  {
    var t := SetColour(s, o, Gray).(gray := [o] + s.gray);
    PushMarks(s, o);
    PushShape(s, o);
    CoveredStep(s, t, p);
    SoundStep(s, t, r);
  }

  lemma {:induction false} UserdataInv(s: State, o: Ref, p: set<Ref>, r: set<Ref>)
    requires MarkInv(s, p, r) && IsWhite(s, o) && s.heap[o].kind == Userdata && o in r
    ensures MarkInv(ReallyMarkObject(s, o), p, r)
    decreases |WhiteSet(s)|, 1, 0
  {
    ColourMarks(s, o, Gray);
    GrayInv(s, o, p, r);
    VisitUserdataInv(SetColour(s, o, Gray), o, p, r);
  }

  lemma {:induction false} VisitUserdataInv(s: State, o: Ref, p: set<Ref>, r: set<Ref>)
    requires MarkInv(s, p + {o}, r) && o in s.heap && s.heap[o].colour.Gray? && s.heap[o].kind == Userdata
    requires forall y :: y in s.heap[o].Out() ==> y in r
    ensures MarkInv(MarkUserdata(s, o), p, r)
    decreases |WhiteSet(s)|, 4, 0
  {
    OutParts(s, o);
    var s3 := VisitMetatable(s, o, p, r);
    var t := MarkList(s3, s.heap[o].refs);
    MarkListInv(s3, s.heap[o].refs, p + {o}, r);
    MarkListShape(s3, s.heap[o].refs);
    UserdataOut(s, MarkList(s, s.heap[o].MetaRefs()), s3, t, o);
    DropCover(t, o, p, r);
  }

  lemma DropCover(s: State, o: Ref, p: set<Ref>, r: set<Ref>)
    requires MarkInv(s, p + {o}, r) && o in s.heap && OutMarked(s, o)
    ensures MarkInv(s, p, r)
  {
  }

  lemma {:induction false} VisitMetatable(s: State, o: Ref, p: set<Ref>, r: set<Ref>) returns (s3: State)
    requires MarkInv(s, p + {o}, r) && o in s.heap && s.heap[o].colour.Gray? && s.heap[o].kind == Userdata
    requires forall y :: y in s.heap[o].Out() ==> y in r
    requires AllIn(s, s.heap[o].MetaRefs())
    ensures var s2 := MarkList(s, s.heap[o].MetaRefs());
      && o in s2.heap && s3 == SetColour(s2, o, Black)
      && (forall y :: y in s.heap[o].MetaRefs() ==> !IsWhite(s2, y))
    ensures Marked(s, s3) && MarkInv(s3, p + {o}, r) && AllIn(s3, s.heap[o].refs)
    decreases |WhiteSet(s)|, 3, |s.heap[o].MetaRefs()| + 1
  {
    var s2 := MarkList(s, s.heap[o].MetaRefs());
    MarkListInv(s, s.heap[o].MetaRefs(), p + {o}, r);
    MarkListShape(s, s.heap[o].MetaRefs());
    Touched(s, s2, o);
    s3 := SetColour(s2, o, Black);
    assert !IsWhite(s, o);
    Blacken(s2, o);
    BlackInv(s2, o, p, r);
  }

  lemma UserdataOut(s1: State, s2: State, s3: State, t: State, o: Ref)
    requires o in s1.heap && Grew(s1.heap, s2.heap) && s3 == SetColour(s2, o, Black) && Grew(s3.heap, t.heap)
    requires forall y :: y in s1.heap[o].MetaRefs() ==> !IsWhite(s2, y)
    requires forall y :: y in s1.heap[o].refs ==> !IsWhite(t, y)
    ensures OutMarked(t, o)
  {
    assert Darker(s1.heap[o], s2.heap[o]) && Darker(s3.heap[o], t.heap[o]);
    assert t.heap[o].Out() == s1.heap[o].Out();
    forall y | y in s1.heap[o].Out() ensures !IsWhite(t, y) {
      if y in s1.heap[o].MetaRefs() {
        assert y in s3.heap ==> Darker(s3.heap[y], t.heap[y]);
      }
    }
  }

  lemma GrayInv(s: State, o: Ref, p: set<Ref>, r: set<Ref>)
    requires MarkInv(s, p, r) && IsWhite(s, o) && s.heap[o].kind == Userdata && o in r
    ensures MarkInv(SetColour(s, o, Gray), p + {o}, r)
    ensures forall y :: y in s.heap[o].Out() ==> y in r
  {
    var t := SetColour(s, o, Gray);
    ColourMarks(s, o, Gray);
    GrayListKept(s, t, o);
    CoveredStep(s, t, p + {o});
    SoundStep(s, t, r);
  }

  lemma BlackInv(s: State, o: Ref, p: set<Ref>, r: set<Ref>)
    requires MarkInv(s, p + {o}, r) && o in s.heap && s.heap[o].kind == Userdata && !IsWhite(s, o)
    requires Grew(s.heap, SetColour(s, o, Black).heap)
    ensures MarkInv(SetColour(s, o, Black), p + {o}, r)
  {
    var t := SetColour(s, o, Black);
    GrewClosed(s, t);
    GrayListKept(s, t, o);
    CoveredStep(s, t, p + {o});
    SoundStep(s, t, r);
  }

  lemma {:induction false} MarkListInv(s: State, l: seq<Ref>, p: set<Ref>, r: set<Ref>)
    requires MarkInv(s, p, r) && AllIn(s, l) && forall x :: x in l ==> x in r
    ensures MarkInv(MarkList(s, l), p, r)
    decreases |WhiteSet(s)|, 3, |l|
  {
    if l != [] {
      MarkObjectInv(s, l[0], p, r);
      MarkedAllIn(s, MarkObject(s, l[0]), l);
      MarkListInv(MarkObject(s, l[0]), l[1..], p, r);
    }
  }

  /** propagatemark keeps the invariant: the object it takes off `gray` ends up with nothing
      white behind it. */
  lemma PropagateMarkInv(s: State, p: set<Ref>, r: set<Ref>)
    requires MarkInv(s, p, r) && AllIn(s, s.gray) && s.gray != [] && s.gray[0] in s.gray
    requires s.heap[s.gray[0]].colour.Gray?
    ensures MarkInv(PropagateMark(s), p, r)
  {
    var o := s.gray[0];
    var s1 := TakeGray(s);
    TakeGrayFacts(s);
    TakeGrayInv(s, p, r);
    MarkListShape(s1, s.heap[o].Out());
    MarkListInv(s1, s.heap[o].Out(), p + {o}, r);
    var t := PropagateMark(s);
    assert OutMarked(t, o) by {
      assert Darker(s1.heap[o], t.heap[o]);
    }
  }

  lemma TakeGrayInv(s: State, p: set<Ref>, r: set<Ref>)
    requires MarkInv(s, p, r) && AllIn(s, s.gray) && s.gray != [] && s.gray[0] in s.gray
    requires s.heap[s.gray[0]].colour.Gray?
    ensures MarkInv(TakeGray(s), p + {s.gray[0]}, r)
    ensures forall y :: y in s.heap[s.gray[0]].Out() ==> y in r
  {
    var o := s.gray[0];
    var t := TakeGray(s);
    TakeGrayFacts(s);
    TakeGrayList(s);
    NothingMarked(s);
    CoveredStep(s, t, p + {o});
    SoundStep(s, t, r);
  }

  lemma NothingMarked(s: State)
    requires s.gray != [] && s.gray[0] in s.heap && s.heap[s.gray[0]].colour.Gray?
    ensures forall x :: !NewlyMarked(s, TakeGray(s), x)
  {
  }

  lemma PropagateMarkGray(s: State)
    requires Closed(s) && GrayList(s, s.gray) && s.gray != []
    ensures AllIn(s, s.gray) && GrayNode(s, s.gray[0])
    ensures GrayList(PropagateMark(s), PropagateMark(s).gray)
  {
    assert s.gray[0] in s.gray;
    assert GrayNode(s, s.gray[0]);
    TakeGrayFacts(s);
    TakeGrayList(s);
    MarkListShape(TakeGray(s), s.heap[s.gray[0]].Out());
  }

  lemma TakeGrayList(s: State)
    requires GrayList(s, s.gray) && s.gray != [] && s.gray[0] in s.heap
    ensures GrayList(TakeGray(s), s.gray[1..])
  {
    forall x | x in s.gray[1..] ensures GrayNode(TakeGray(s), x) {
      assert x in s.gray && GrayNode(s, x);
    }
  }

  /** propagateall (lgc.c:603-605): propagate until `gray` is empty. */
  ghost function PropagateAll(s: State): (t: State)
    requires Closed(s) && GrayList(s, s.gray)
    ensures Propagated(s, t) && t.gray == []
    decreases Work(s)
  {
    if s.gray == [] then GrewRefl(s); s
    else
      PropagateMarkGray(s);
      var s1 := PropagateMark(s);
      var t := PropagateAll(s1);
      PropagatedTrans(s, s1, t);
      t
  }

  lemma GrewRefl(s: State)
    ensures Grew(s.heap, s.heap)
  {
  }

  lemma {:induction false} PropagateAllInv(s: State, p: set<Ref>, r: set<Ref>)
    requires MarkInv(s, p, r)
    ensures MarkInv(PropagateAll(s), p, r)
    decreases Work(s)
  {
    if s.gray != [] {
      PropagateMarkGray(s);
      PropagateMarkInv(s, p, r);
      PropagateAllInv(PropagateMark(s), p, r);
    }
  }

  /** The colour of an object once it has been traversed: threads stay gray (lgc.c:583-590). */
  function VisitedColour(k: Kind): Colour {
    if k == Thread then Gray else Black
  }

  predicate Waiting(s: State, x: Ref) {
    x in s.heap && (s.heap[x].colour.White? || x in s.gray)
  }

  /** `x` was waiting in `s` and has been dealt with in `t`. */
  predicate Visited(s: State, t: State, x: Ref) {
    Waiting(s, x) && x in t.heap && !Waiting(t, x)
  }

  /** Steps of the propagate phase touch only white objects and objects of `gray`. */
  ghost predicate PropShape(s: State, t: State) {
    && (forall x :: x in s.heap && !Waiting(s, x) ==> x in t.heap && t.heap[x] == s.heap[x] && !Waiting(t, x))
    && (forall x :: Visited(s, t, x) ==> t.heap[x].colour == VisitedColour(s.heap[x].kind))
  }

  lemma PropShapeTrans(s: State, t: State, u: State)
    requires PropShape(s, t) && PropShape(t, u) && Grew(s.heap, t.heap) && Grew(t.heap, u.heap)
    ensures PropShape(s, u)
  {
    forall x | Visited(s, u, x) ensures u.heap[x].colour == VisitedColour(s.heap[x].kind) {
      assert Darker(s.heap[x], t.heap[x]);
      if Waiting(t, x) { assert Visited(t, u, x); } else { assert Visited(s, t, x); }
    }
  }

  lemma PropagateMarkShape(s: State)
    requires Closed(s) && GrayList(s, s.gray) && s.gray != []
    requires AllIn(s, s.gray) && GrayNode(s, s.gray[0])
    ensures PropShape(s, PropagateMark(s))
  {
    var o := s.gray[0];
    var s1 := TakeGray(s);
    TakeGrayFacts(s);
    TakeGrayList(s);
    MarkListShape(s1, s.heap[o].Out());
    TakeGrayShape(s);
    ShapeIsPropShape(s1, PropagateMark(s));
    PropShapeTrans(s, s1, PropagateMark(s));
  }

  lemma TakeGrayShape(s: State)
    requires GrayList(s, s.gray) && s.gray != [] && s.gray[0] in s.heap
    ensures PropShape(s, TakeGray(s)) && s.gray[0] !in s.gray[1..]
  {
    assert [s.gray[0]] + s.gray[1..] == s.gray;
    NoDupConcat([s.gray[0]], s.gray[1..]);
  }

  lemma ShapeIsPropShape(s: State, t: State)
    requires Shape(s, t) && Grew(s.heap, t.heap)
    ensures PropShape(s, t)
  {
    forall x | Visited(s, t, x) ensures t.heap[x].colour == VisitedColour(s.heap[x].kind) {
      assert NewlyMarked(s, t, x);
      assert Darker(s.heap[x], t.heap[x]);
    }
  }

  lemma {:induction false} PropagateAllShape(s: State)
    requires Closed(s) && GrayList(s, s.gray)
    ensures PropShape(s, PropagateAll(s))
    decreases Work(s)
  {
    if s.gray != [] {
      PropagateMarkGray(s);
      PropagateMarkShape(s);
      PropagateAllShape(PropagateMark(s));
      PropShapeTrans(s, PropagateMark(s), PropagateAll(s));
    }
  }
}
