/** The heap of the Lua collector and its mark phase (lgc.c): objects, colours, the gray
    lists, and the functions that turn white objects gray and gray objects black.

    An address is a `Ref`, memory is the map `heap`, and the intrusive lists (`allgc`,
    `gray`, ...) are sequences of addresses.  The mark functions require `Closed`: every
    pointer they follow must lead to an object that has not been freed. */
module LuaHeap {
  import opened Wrappers

  type Ref = nat

  /** Value of the colour bits of `marked`; `White(b)` is the white with number `b`. */
  datatype Colour = White(bit: bool) | Gray | Black

  datatype Kind = Str | Userdata | Table | LuaClosure | CClosure | Thread | Proto

  /** `meta` is the metatable, `refs` every other collectable the object points to, in the
      order in which its traverse function visits them. */
  datatype Obj = Obj(kind: Kind, colour: Colour, finalized: bool, meta: Option<Ref>, refs: seq<Ref>) {
    function MetaRefs(): seq<Ref> {
      if meta.Some? then [meta.value] else []
    }

    function Out(): seq<Ref> {
      MetaRefs() + refs
    }
  }

  datatype GCState =
    | Propagate | Atomic | SwpAllGc | SwpFinObj | SwpToBeFnz | SwpEnd | CallFin | Pause

  /** The pointer `sweepgc`: NULL, the head field of a list, or the `next` field of `o`. */
  datatype Cursor = NoCursor | Header | After(o: Ref)

  /** The fields of global_State that the collector works on, the roots, and in `sharing` the pairs of
      Lua closures that have an upvalue in common. */
  datatype State = State(
    heap: map<Ref, Obj>,
    gcstate: GCState,
    currentwhite: bool,
    allgc: seq<Ref>,
    finobj: seq<Ref>,
    tobefnz: seq<Ref>,
    fixedgc: seq<Ref>,
    gray: seq<Ref>,
    grayagain: seq<Ref>,
    sweepgc: Cursor,
    emergency: bool,
    mainthread: Ref,
    running: Ref,
    globals: seq<Ref>,
    sharing: set<(Ref, Ref)>)

  predicate NoDup<T(==)>(l: seq<T>) {
    forall i, j :: 0 <= i < j < |l| ==> l[i] != l[j]
  }

  lemma NoDupConcat<T>(a: seq<T>, b: seq<T>)
    ensures NoDup(a + b) <==> NoDup(a) && NoDup(b) && forall x :: x in a ==> x !in b
  {
    var l := a + b;
    assert forall i :: 0 <= i < |a| ==> a[i] == l[i];
    assert forall j :: 0 <= j < |b| ==> b[j] == l[|a| + j];
    if NoDup(l) {
      forall x | x in a ensures x !in b {
        var i :| 0 <= i < |a| && a[i] == x;
        forall j | 0 <= j < |b| ensures b[j] != x {
          assert l[i] != l[|a| + j];
        }
      }
    } else {
      var i, j :| 0 <= i < j < |l| && l[i] == l[j];
      if i < |a| <= j {
        assert l[i] in a && l[j] == b[j - |a|];
      }
    }
  }

  predicate AllIn(s: State, l: seq<Ref>) {
    forall x :: x in l ==> x in s.heap
  }

  /** No object points to a freed address; strings point to nothing. */
  predicate Closed(s: State) {
    forall x :: x in s.heap ==> AllIn(s, s.heap[x].Out()) && (s.heap[x].kind == Str ==> s.heap[x].Out() == [])
  }

  predicate IsWhite(s: State, x: Ref) {
    x in s.heap && s.heap[x].colour.White?
  }

  predicate Traversable(k: Kind) {
    k != Str && k != Userdata
  }

  ghost function WhiteSet(s: State): set<Ref> {
    set x | x in s.heap && s.heap[x].colour.White?
  }

  /** Objects still to be marked plus objects still to be traversed. */
  ghost function Work(s: State): nat {
    |WhiteSet(s)| + |s.gray|
  }

  function SetColour(s: State, x: Ref, c: Colour): State
    requires x in s.heap
  {
    s.(heap := s.heap[x := s.heap[x].(colour := c)])
  }

  /** `b` is the object `a` with the same or a darker colour. */
  ghost predicate Darker(a: Obj, b: Obj) {
    && b == a.(colour := b.colour)
    && (b.colour.White? ==> a.colour == b.colour)
    && (a.colour.Black? ==> b.colour.Black?)
  }

  /** What marking may do to memory: give white objects a darker colour. */
  ghost predicate Grew(h: map<Ref, Obj>, k: map<Ref, Obj>) {
    k.Keys == h.Keys && forall x :: x in h ==> Darker(h[x], k[x])
  }

  lemma GrewTrans(h: map<Ref, Obj>, k: map<Ref, Obj>, m: map<Ref, Obj>)
    requires Grew(h, k) && Grew(k, m)
    ensures Grew(h, m)
  {
    forall x | x in h ensures Darker(h[x], m[x]) {
      assert Darker(h[x], k[x]) && Darker(k[x], m[x]);
    }
  }

  lemma GrewClosed(s: State, t: State)
    requires Grew(s.heap, t.heap) && Closed(s)
    ensures Closed(t)
  {
    forall x | x in t.heap
      ensures AllIn(t, t.heap[x].Out()) && (t.heap[x].kind == Str ==> t.heap[x].Out() == [])
    {
      assert Darker(s.heap[x], t.heap[x]);
      assert AllIn(s, s.heap[x].Out());
    }
  }

  lemma DarkenOne(s: State, x: Ref, c: Colour)
    requires IsWhite(s, x) && !c.White?
    ensures Grew(s.heap, SetColour(s, x, c).heap)
    ensures |WhiteSet(SetColour(s, x, c))| == |WhiteSet(s)| - 1
  {
    assert WhiteSet(SetColour(s, x, c)) == WhiteSet(s) - {x};
  }

  lemma Blacken(s: State, x: Ref)
    requires Closed(s) && x in s.heap && s.heap[x].colour.Gray?
    ensures Marked(s, SetColour(s, x, Black))
    ensures WhiteSet(SetColour(s, x, Black)) == WhiteSet(s)
  {
    var t := SetColour(s, x, Black);
    assert WhiteSet(t) == WhiteSet(s);
    GrewClosed(s, t);
  }

  /** A mark function from `s` gave `t`: only colours and the list `gray` changed, and no
      work was added. */
  ghost predicate Marked(s: State, t: State) {
    && t == s.(heap := t.heap, gray := t.gray)
    && Grew(s.heap, t.heap)
    && Closed(t)
    && |WhiteSet(t)| <= |WhiteSet(s)|
    && Work(t) <= Work(s)
    && (AllIn(s, s.gray) ==> AllIn(t, t.gray))
  }

  lemma MarkedTrans(s: State, t: State, u: State)
    requires Marked(s, t) && Marked(t, u)
    ensures Marked(s, u)
  {
    GrewTrans(s.heap, t.heap, u.heap);
  }

  lemma MarkedAllIn(s: State, t: State, l: seq<Ref>)
    requires Marked(s, t) && AllIn(s, l)
    ensures AllIn(t, l)
  {
  }

  /** markobject / markvalue (lgc.c:83-86): mark `r` unless it already is. */
  ghost function MarkObject(s: State, r: Ref): (t: State)
    requires Closed(s) && r in s.heap
    ensures Marked(s, t)
    decreases |WhiteSet(s)|, 2, 0
  {
    if s.heap[r].colour.White? then ReallyMarkObject(s, r) else s
  }

  /** reallymarkobject (lgc.c:235-283): strings become black, userdata are visited at once,
      everything else becomes gray and waits in the list `gray`. */
  ghost function ReallyMarkObject(s: State, o: Ref): (t: State)
    requires Closed(s) && IsWhite(s, o)
    ensures Marked(s, t)
    decreases |WhiteSet(s)|, 1, 0
  {
    match s.heap[o].kind
    case Str =>
      ColourMarks(s, o, Black);
      SetColour(s, o, Black)
    case Userdata =>
      ColourMarks(s, o, Gray);
      MarkedTrans(s, SetColour(s, o, Gray), MarkUserdata(SetColour(s, o, Gray), o));
      MarkUserdata(SetColour(s, o, Gray), o)
    case _ =>
      PushMarks(s, o);
      SetColour(s, o, Gray).(gray := [o] + s.gray)
  }

  lemma ColourMarks(s: State, o: Ref, c: Colour)
    requires Closed(s) && IsWhite(s, o) && !c.White?
    ensures Marked(s, SetColour(s, o, c))
    ensures |WhiteSet(SetColour(s, o, c))| == |WhiteSet(s)| - 1
  {
    DarkenOne(s, o, c);
    GrewClosed(s, SetColour(s, o, c));
  }

  lemma PushMarks(s: State, o: Ref)
    requires Closed(s) && IsWhite(s, o)
    ensures Marked(s, SetColour(s, o, Gray).(gray := [o] + s.gray))
  {
    ColourMarks(s, o, Gray);
    var t := SetColour(s, o, Gray);
    assert WhiteSet(t) == WhiteSet(t.(gray := [o] + s.gray));
    GrewClosed(s, t.(gray := [o] + s.gray));
  }

  /** The userdata case of reallymarkobject: metatable, black, then the user value. */
  ghost function MarkUserdata(s: State, o: Ref): (t: State)
    requires Closed(s) && o in s.heap && s.heap[o].colour.Gray?
    ensures Marked(s, t)
    decreases |WhiteSet(s)|, 4, 0
  {
    OutParts(s, o);
    var s2 := MarkList(s, s.heap[o].MetaRefs());
    Touched(s, s2, o);
    var s3 := SetColour(s2, o, Black);
    var t := MarkList(s3, s.heap[o].refs);
    MarkedTrans(s, s3, t);
    t
  }

  lemma OutParts(s: State, o: Ref)
    requires Closed(s) && o in s.heap
    ensures AllIn(s, s.heap[o].MetaRefs()) && AllIn(s, s.heap[o].refs)
  {
    assert AllIn(s, s.heap[o].Out());
  }

  lemma Touched(s: State, t: State, o: Ref)
    requires Closed(s) && o in s.heap && Marked(s, t) && !s.heap[o].colour.White?
    ensures o in t.heap && Closed(SetColour(t, o, Black)) && AllIn(SetColour(t, o, Black), s.heap[o].refs)
    ensures Marked(s, SetColour(t, o, Black))
    ensures |WhiteSet(SetColour(t, o, Black))| <= |WhiteSet(s)|
  {
    assert Darker(s.heap[o], t.heap[o]);
    OutParts(s, o);
    BlackenAny(t, o);
    MarkedTrans(s, t, SetColour(t, o, Black));
  }

  lemma BlackenAny(s: State, x: Ref)
    requires Closed(s) && x in s.heap && !s.heap[x].colour.White?
    ensures Marked(s, SetColour(s, x, Black))
  {
    if s.heap[x].colour.Gray? {
      Blacken(s, x);
    } else {
      assert SetColour(s, x, Black) == s;
    }
  }

  /** Mark every object of a list of pointers, from left to right. */
  ghost function MarkList(s: State, l: seq<Ref>): (t: State)
    requires Closed(s) && AllIn(s, l)
    ensures Marked(s, t)
    decreases |WhiteSet(s)|, 3, |l|
  {
    if l == [] then s
    else
      var s1 := MarkObject(s, l[0]);
      MarkedAllIn(s, s1, l);
      var t := MarkList(s1, l[1..]);
      MarkedTrans(s, s1, t);
      t
  }

  /** A step of the propagate phase led from `s` to `t`. */
  ghost predicate Propagated(s: State, t: State) {
    && t == s.(heap := t.heap, gray := t.gray, grayagain := t.grayagain)
    && Grew(s.heap, t.heap)
    && Closed(t)
    && AllIn(t, t.gray)
    && Work(t) <= Work(s)
  }

  lemma PropagatedTrans(s: State, t: State, u: State)
    requires Propagated(s, t) && Propagated(t, u)
    ensures Propagated(s, u)
  {
    GrewTrans(s.heap, t.heap, u.heap);
  }

  /** The first half of propagatemark (lgc.c:559-600): take the first object off `gray` and
      blacken it; threads stay gray and go to `grayagain` instead. */
  function TakeGray(s: State): State
    requires s.gray != [] && s.gray[0] in s.heap
  {
    var o := s.gray[0];
    if s.heap[o].kind == Thread then
      SetColour(s, o, Gray).(gray := s.gray[1..], grayagain := [o] + s.grayagain)
    else
      SetColour(s, o, Black).(gray := s.gray[1..])
  }

  lemma TakeGrayFacts(s: State)
    requires Closed(s) && AllIn(s, s.gray) && s.gray != [] && s.gray[0] in s.heap
    requires s.heap[s.gray[0]].colour.Gray?
    ensures var t := TakeGray(s); Propagated(s, t) && Work(t) == Work(s) - 1
    ensures AllIn(TakeGray(s), s.heap[s.gray[0]].Out())
  {
    var t := TakeGray(s);
    TakeGrayGrew(s);
    TakeGrayWhite(s);
    GrewClosed(s, t);
    assert AllIn(s, s.heap[s.gray[0]].Out());
    assert AllIn(t, t.gray) by {
      assert forall x :: x in t.gray ==> x in s.gray;
    }
  }

  lemma TakeGrayGrew(s: State)
    requires s.gray != [] && s.gray[0] in s.heap && s.heap[s.gray[0]].colour.Gray?
    ensures Grew(s.heap, TakeGray(s).heap)
  {
  }

  lemma TakeGrayWhite(s: State)
    requires s.gray != [] && s.gray[0] in s.heap && s.heap[s.gray[0]].colour.Gray?
    ensures Work(TakeGray(s)) == Work(s) - 1
  {
    assert WhiteSet(TakeGray(s)) == WhiteSet(s);
  }

  /** propagatemark (lgc.c:559-600): turn the first gray object black and mark everything it
      points to. */
  ghost function PropagateMark(s: State): (t: State)
    requires Closed(s) && AllIn(s, s.gray) && s.gray != [] && s.gray[0] in s.heap
    requires s.heap[s.gray[0]].colour.Gray?
    ensures Propagated(s, t) && Work(t) < Work(s)
  {
    TakeGrayFacts(s);
    MarkList(TakeGray(s), s.heap[s.gray[0]].Out())
  }
}
