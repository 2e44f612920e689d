/** The phases of the collector (lgc.c): start of a cycle, the atomic step, the sweeps, and
    `singlestep`, with the invariant that every phase keeps. */
module LuaCollector {
  import opened LuaHeap
  import opened LuaTricolour

  /** Objects swept in one step (GCSWEEPMAX, lgc.c:42): (2400 / 7) / 4 on a 64-bit build. */
  const GCSWEEPMAX: nat := 85

  // ---------- lists, roots and liveness ----------

  predicate Dead(s: State, x: Ref) {
    x in s.heap && s.heap[x].colour == White(!s.currentwhite)
  }

  predicate Alive(s: State, x: Ref) {
    x in s.heap && !Dead(s, x)
  }

  predicate CurrentWhite(s: State, x: Ref) {
    x in s.heap && s.heap[x].colour == White(s.currentwhite)
  }

  ghost predicate AllAlive(s: State, l: seq<Ref>) {
    forall x :: x in l ==> Alive(s, x)
  }

  /** What the program can name directly, and the objects whose finalizer is still to be called:
      the collector will hand them to the program. */
  predicate IsRoot(s: State, x: Ref) {
    x == s.mainthread || x == s.running || x in s.globals || x in s.tobefnz || x in s.finobj
  }

  /** `p` is a chain of pointers, and no pointer on the way dangles. */
  ghost predicate Chain(h: map<Ref, Obj>, p: seq<Ref>) {
    forall i :: 0 <= i < |p| - 1 ==> p[i] in h && p[i + 1] in h[p[i]].Out()
  }

  ghost predicate PathTo(s: State, p: seq<Ref>, x: Ref) {
    |p| > 0 && IsRoot(s, p[0]) && p[|p| - 1] == x && Chain(s.heap, p)
  }

  ghost predicate Reachable(s: State, x: Ref) {
    exists p :: PathTo(s, p, x)
  }

  predicate HeldRoot(s: State, x: Ref) {
    x == s.mainthread || x == s.running || x in s.globals
  }

  ghost predicate HeldPath(s: State, p: seq<Ref>, x: Ref) {
    |p| > 0 && HeldRoot(s, p[0]) && p[|p| - 1] == x && Chain(s.heap, p)
  }

  /** The program can get hold of `x`: it is reachable without the lists of objects with finalizers. */
  ghost predicate Held(s: State, x: Ref) {
    exists p :: HeldPath(s, p, x)
  }

  lemma HeldReachable(s: State, x: Ref)
    requires Held(s, x)
    ensures Reachable(s, x)
  {
    var p :| HeldPath(s, p, x);
    assert PathTo(s, p, x);
  }

  /** Only tables and userdata have finalizers. */
  predicate Finalizable(k: Kind) {
    k == Table || k == Userdata
  }

  /** Every object is on exactly one of `allgc`, `finobj`, `tobefnz` and `fixedgc`, except the
      main thread, which is on none; FINALIZEDBIT marks the two lists in the middle. */
  ghost predicate Lists(s: State) {
    && NoDup(s.allgc) && NoDup(s.finobj) && NoDup(s.tobefnz) && NoDup(s.fixedgc)
    && (forall x :: x in s.allgc ==> x in s.heap && !s.heap[x].finalized && x !in s.fixedgc && x != s.mainthread)
    && (forall x :: x in s.finobj ==>
          x in s.heap && s.heap[x].finalized && Finalizable(s.heap[x].kind) && x !in s.tobefnz)
    && (forall x :: x in s.tobefnz ==> x in s.heap && s.heap[x].finalized && Finalizable(s.heap[x].kind))
    && (forall x :: x in s.fixedgc ==> x in s.heap && !s.heap[x].finalized && s.heap[x].kind == Str)
    && s.mainthread in s.heap && !s.heap[s.mainthread].finalized && s.heap[s.mainthread].kind == Thread
    && (forall x :: x in s.heap ==>
          x in s.allgc || x in s.finobj || x in s.tobefnz || x in s.fixedgc || x == s.mainthread)
  }

  predicate LiveOut(s: State, x: Ref)
    requires x in s.heap
  {
    (s.heap[x].kind == Str ==> s.heap[x].Out() == []) && forall y :: y in s.heap[x].Out() ==> Alive(s, y)
  }

  /** Roots are alive, and what is alive points to what is alive only. */
  ghost predicate LiveClosed(s: State) {
    && (forall x :: Alive(s, x) ==> LiveOut(s, x))
    && (forall x :: IsRoot(s, x) ==> Alive(s, x))
    && s.running in s.heap && s.heap[s.running].kind == Thread
  }

  /** Dead objects are in the first list to be swept. */
  ghost predicate DeadOnAllgc(s: State) {
    forall x :: Dead(s, x) ==> x in s.allgc
  }

  ghost predicate NoneDead(s: State) {
    forall x :: x in s.heap ==> !Dead(s, x)
  }

  ghost predicate ThreadsNotBlack(s: State) {
    forall x :: x in s.heap && s.heap[x].kind == Thread ==> !s.heap[x].colour.Black?
  }

  function Elems(l: seq<Ref>): set<Ref> {
    set x | x in l
  }

  predicate GrayListed(s: State, x: Ref) {
    x in s.gray || x in s.grayagain || x in s.fixedgc
  }

  /** Every gray object is in exactly one gray list, once; fixed strings are in none. */
  ghost predicate GrayLists(s: State) {
    && GrayList(s, s.gray) && GrayList(s, s.grayagain)
    && (forall x :: x in s.gray ==> x !in s.grayagain)
    && (forall x :: x in s.heap && s.heap[x].colour.Gray? ==> GrayListed(s, x))
  }

  /** While the collector is marking. */
  ghost predicate MarkPhase(s: State) {
    && NoneDead(s)
    && s.sweepgc == NoCursor
    && GrayLists(s)
    && Covered(s, Elems(s.grayagain))
    && !IsWhite(s, s.mainthread)
    && (forall x :: x in s.tobefnz ==> !IsWhite(s, x))
  }

  // ---------- the sweep cursor ----------

  ghost predicate CursorIn(l: seq<Ref>, c: Cursor) {
    c.After? ==> c.o in l
  }

  /** The part of list `l` that the sweep has passed. */
  function Passed(l: seq<Ref>, c: Cursor): seq<Ref> {
    match c
    case NoCursor => l
    case Header => []
    case After(o) => if l == [] then [] else if l[0] == o then [o] else [l[0]] + Passed(l[1..], c)
  }

  /** The part of list `l` still to be swept. */
  function Ahead(l: seq<Ref>, c: Cursor): seq<Ref> {
    match c
    case NoCursor => []
    case Header => l
    case After(o) => if l == [] then [] else if l[0] == o then l[1..] else Ahead(l[1..], c)
  }

  lemma {:induction false} PassedAhead(l: seq<Ref>, c: Cursor)
    ensures Passed(l, c) + Ahead(l, c) == l
    ensures c.After? && c.o in l ==> Passed(l, c) != [] && Passed(l, c)[|Passed(l, c)| - 1] == c.o
  {
    if c.After? && l != [] && l[0] != c.o {
      PassedAhead(l[1..], c);
    }
  }

  /** The list that the current phase sweeps. */
  function SweepTarget(s: State): seq<Ref> {
    match s.gcstate
    case SwpAllGc => s.allgc
    case SwpFinObj => s.finobj
    case SwpToBeFnz => s.tobefnz
    case _ => []
  }

  function PutTarget(s: State, l: seq<Ref>): State {
    match s.gcstate
    case SwpAllGc => s.(allgc := l)
    case SwpFinObj => s.(finobj := l)
    case SwpToBeFnz => s.(tobefnz := l)
    case _ => s
  }

  ghost predicate Swept(s: State, l: seq<Ref>) {
    forall x :: x in l ==> CurrentWhite(s, x)
  }

  predicate IsSweepPhase(g: GCState) {
    g == SwpAllGc || g == SwpFinObj || g == SwpToBeFnz || g == SwpEnd
  }

  predicate KeepInvariant(g: GCState) {
    g == Propagate || g == Atomic
  }

  /** While the collector is sweeping: lists of earlier phases are back to the current white,
      the current list is up to the cursor, and only `allgc` ahead of the cursor can still
      hold dead objects. */
  ghost predicate SweepPhase(s: State) {
    && CursorIn(SweepTarget(s), s.sweepgc)
    && Swept(s, Passed(SweepTarget(s), s.sweepgc))
    && (s.gcstate != SwpAllGc ==> Swept(s, s.allgc) && NoneDead(s))
    && (s.gcstate == SwpToBeFnz || s.gcstate == SwpEnd ==> Swept(s, s.finobj))
    && (s.gcstate == SwpEnd ==> Swept(s, s.tobefnz) && s.sweepgc == NoCursor)
    && DeadOnAllgc(s)
  }

  ghost predicate AllWhite(s: State) {
    forall x :: x in s.heap ==> x in s.fixedgc || CurrentWhite(s, x)
  }

  /** Fixed strings never become white again. */
  ghost predicate FixedMarked(s: State) {
    forall x :: x in s.fixedgc ==> !IsWhite(s, x)
  }

  /** What holds in every phase. */
  ghost predicate Base(s: State) {
    Lists(s) && LiveClosed(s) && ThreadsNotBlack(s) && FixedMarked(s)
  }

  ghost predicate Inv(s: State) {
    && Base(s)
    && match s.gcstate
       case Propagate => MarkPhase(s) && s.gray != []
       case Atomic => MarkPhase(s)
       case CallFin => AllWhite(s) && s.sweepgc == NoCursor
       case Pause => AllWhite(s) && s.sweepgc == NoCursor
       case _ => SweepPhase(s)
  }

  // ---------- sweeping ----------

  datatype Sweeping = Sweeping(heap: map<Ref, Obj>, pre: seq<Ref>, rest: seq<Ref>)

  /** sweeplist (lgc.c:734-751): pass at most `count` objects of `rest`; free those in the other
      white, turn the rest to the current white. */
  function SweepList(h: map<Ref, Obj>, cw: bool, pre: seq<Ref>, rest: seq<Ref>, count: nat): Sweeping
    requires NoDup(rest) && forall x :: x in rest ==> x in h
    decreases |rest|
  {
    if rest == [] || count == 0 then Sweeping(h, pre, rest)
    else if h[rest[0]].colour == White(!cw) then
      SweepList(h - {rest[0]}, cw, pre, rest[1..], count - 1)
    else
      SweepList(h[rest[0] := h[rest[0]].(colour := White(cw))], cw, pre + [rest[0]], rest[1..], count - 1)
  }

  function CursorAt(pre: seq<Ref>, rest: seq<Ref>): Cursor {
    if rest == [] then NoCursor else if pre == [] then Header else After(pre[|pre| - 1])
  }

  /** Sweep at most `count` objects of the current list, from the cursor on. */
  function SweepSome(s: State, count: nat): State
    requires NoDup(Ahead(SweepTarget(s), s.sweepgc)) && AllIn(s, Ahead(SweepTarget(s), s.sweepgc))
  {
    var r := SweepList(s.heap, s.currentwhite, Passed(SweepTarget(s), s.sweepgc),
                       Ahead(SweepTarget(s), s.sweepgc), count);
    PutTarget(s.(heap := r.heap, sweepgc := CursorAt(r.pre, r.rest)), r.pre + r.rest)
  }

  /** sweepstep (lgc.c:1026-1039). */
  function SweepStep(s: State, next: GCState, cursor: Cursor): State
    requires NoDup(Ahead(SweepTarget(s), s.sweepgc)) && AllIn(s, Ahead(SweepTarget(s), s.sweepgc))
  {
    var s1 := if s.sweepgc != NoCursor then SweepSome(s, GCSWEEPMAX) else s;
    if s1.sweepgc != NoCursor then s1 else s1.(gcstate := next, sweepgc := cursor)
  }

  /** udata2finalize has taken the object that the cursor is in off `tobefnz`, and the pointer now
      leads into `allgc`. */
  predicate Lost(s: State) {
    s.gcstate == SwpToBeFnz && s.sweepgc.After? && s.sweepgc.o !in s.tobefnz
  }

  /** The list that the pointer leads into. */
  function CursorList(s: State): seq<Ref> {
    if Lost(s) then s.allgc else SweepTarget(s)
  }

  /** sweepstep with such a cursor: it is the rest of `allgc` that gets swept. */
  function SweepAway(s: State): State
    requires NoDup(Ahead(s.allgc, s.sweepgc)) && AllIn(s, Ahead(s.allgc, s.sweepgc))
  {
    var t := SweepStep(s.(gcstate := SwpAllGc), SwpEnd, NoCursor);
    if t.gcstate == SwpAllGc then t.(gcstate := SwpToBeFnz) else t
  }

  /** entersweep (lgc.c:956-961). */
  function EnterSweep(s: State): State
    requires NoDup(s.allgc) && AllIn(s, s.allgc)
  {
    SweepSome(s.(gcstate := SwpAllGc, sweepgc := Header), 1)
  }

  // ---------- what a sweep does ----------

  predicate DeadIn(h: map<Ref, Obj>, cw: bool, x: Ref) {
    x in h && h[x].colour == White(!cw)
  }

  /** Which objects a sweep over the first `n` elements of `rest` frees and recolours. */
  ghost predicate SweptTo(h: map<Ref, Obj>, cw: bool, pre: seq<Ref>, rest: seq<Ref>, n: nat, r: Sweeping)
    requires n <= |rest|
  {
    && r.rest == rest[n..]
    && (forall x :: x in r.heap <==> x in h && !(x in rest[..n] && DeadIn(h, cw, x)))
    && (forall x :: x in r.heap ==> r.heap[x] == if x in rest[..n] then h[x].(colour := White(cw)) else h[x])
    && (forall x :: x in r.pre <==> x in pre || (x in rest[..n] && !DeadIn(h, cw, x)))
    && NoDup(r.pre + r.rest)
  }

  lemma {:induction false} SweepListFacts(h: map<Ref, Obj>, cw: bool, pre: seq<Ref>, rest: seq<Ref>, count: nat)
    requires NoDup(pre + rest) && NoDup(rest) && forall x :: x in rest ==> x in h
    ensures SweptTo(h, cw, pre, rest, if count < |rest| then count else |rest|, SweepList(h, cw, pre, rest, count))
    decreases |rest|
  {
    var n := if count < |rest| then count else |rest|;
    if rest != [] && count != 0 {
      var c := rest[0];
      NoDupConcat(pre, rest);
      assert [c] + rest[1..] == rest;
      NoDupConcat([c], rest[1..]);
      var dead := h[c].colour == White(!cw);
      var h1 := if dead then h - {c} else h[c := h[c].(colour := White(cw))];
      var pre1 := if dead then pre else pre + [c];
      NoDupStep(pre, rest, dead);
      SweepListFacts(h1, cw, pre1, rest[1..], count - 1);
      SweepStepFacts(h, cw, pre, rest, n, SweepList(h1, cw, pre1, rest[1..], count - 1));
    }
  }

  lemma NoDupStep(pre: seq<Ref>, rest: seq<Ref>, dead: bool)
    requires NoDup(pre + rest) && rest != []
    ensures NoDup((if dead then pre else pre + [rest[0]]) + rest[1..]) && NoDup(rest[1..])
  {
    assert [rest[0]] + rest[1..] == rest;
    NoDupConcat(pre, rest);
    NoDupConcat([rest[0]], rest[1..]);
    NoDupConcat(pre, [rest[0]]);
    NoDupConcat(pre, rest[1..]);
    NoDupConcat(pre + [rest[0]], rest[1..]);
  }

  lemma SweepStepFacts(h: map<Ref, Obj>, cw: bool, pre: seq<Ref>, rest: seq<Ref>, n: nat, r: Sweeping)
    requires 0 < n <= |rest| && rest[0] in h && rest[0] !in rest[1..]
    requires var c := rest[0]; var dead := h[c].colour == White(!cw);
      SweptTo(if dead then h - {c} else h[c := h[c].(colour := White(cw))], cw,
              if dead then pre else pre + [c], rest[1..], n - 1, r)
    ensures SweptTo(h, cw, pre, rest, n, r)
  {
    assert rest[1..][n - 1..] == rest[n..];
    FirstSwept(rest, n);
  }

  lemma FirstSwept(rest: seq<Ref>, n: nat)
    requires 0 < n <= |rest| && rest[0] !in rest[1..]
    ensures forall x :: x in rest[..n] <==> x == rest[0] || x in rest[1..][..n - 1]
    ensures rest[0] !in rest[1..][..n - 1]
  {
    assert rest[..n] == [rest[0]] + rest[1..][..n - 1];
  }

  // ---------- start of a cycle, and the atomic step ----------

  function RootList(s: State): seq<Ref> {
    [s.mainthread] + s.globals + s.tobefnz
  }

  /** restartcollection (lgc.c:337-344): forget all gray lists and mark the roots. */
  ghost function RestartCollection(s: State): State
    requires Closed(s) && AllIn(s, RootList(s))
  {
    MarkList(s.(gray := [], grayagain := []), RootList(s))
  }

  /** Marking in `m` led to `t`: nothing but colours and gray lists is different from `s`. */
  ghost predicate MarkedOnly(s: State, t: State) {
    && t == s.(heap := t.heap, gray := t.gray, grayagain := t.grayagain)
    && Grew(s.heap, t.heap) && Closed(t)
  }

  /** Ready for the atomic step: `gray` is empty and `grayagain` holds the rest. */
  ghost predicate AtomicReady(s: State) {
    && Closed(s) && s.gray == [] && GrayList(s, s.grayagain)
    && AllIn(s, [s.running] + s.globals)
    && NoDup(s.finobj) && AllIn(s, s.finobj) && AllIn(s, s.tobefnz)
  }

  /** `atomic` up to lgc.c:994: mark the running thread and the globals again, propagate. */
  ghost function MarkChanged(s: State): (t: State)
    requires AtomicReady(s)
    ensures MarkedOnly(s, t) && GrayList(t, s.grayagain)
  {
    MarkListShape(s, [s.running] + s.globals);
    var s1 := MarkList(s, [s.running] + s.globals);
    var t := PropagateAll(s1);
    GrewTrans(s.heap, s1.heap, t.heap);
    PendingStays(s, s1, t);
    t
  }

  lemma PendingStays(s: State, s1: State, s2: State)
    requires GrayList(s, s.grayagain) && s.gray == [] && Shape(s, s1)
    requires Closed(s1) && GrayList(s1, s1.gray) && s2 == PropagateAll(s1)
    ensures GrayList(s2, s.grayagain)
  {
    PropagateAllShape(s1);
    forall x | x in s.grayagain ensures GrayNode(s2, x) {
      assert GrayNode(s, x) && !Waiting(s1, x);
    }
  }

  /** `atomic` at lgc.c:996: make the saved `grayagain` the gray list. */
  ghost function MarkAgain(s: State): (t: State)
    requires AtomicReady(s)
    ensures MarkedOnly(s, t) && GrayList(t, t.gray) && t.gray == s.grayagain
  {
    GrewClosed(MarkChanged(s), MarkChanged(s).(gray := s.grayagain));
    MarkChanged(s).(gray := s.grayagain)
  }

  /** `atomic` up to lgc.c:1000: now everything strongly accessible is marked. */
  ghost function MarkStrong(s: State): (t: State)
    requires AtomicReady(s)
    ensures MarkedOnly(s, t) && t.gray == []
  {
    var s2 := MarkAgain(s);
    var t := PropagateAll(s2);
    GrewTrans(s.heap, s2.heap, t.heap);
    t
  }

  function Whites(h: map<Ref, Obj>, l: seq<Ref>): (r: seq<Ref>)
    requires forall x :: x in l ==> x in h
    ensures forall x :: x in r <==> x in l && h[x].colour.White?
  {
    if l == [] then []
    else (if h[l[0]].colour.White? then [l[0]] else []) + Whites(h, l[1..])
  }

  function NonWhites(h: map<Ref, Obj>, l: seq<Ref>): (r: seq<Ref>)
    requires forall x :: x in l ==> x in h
    ensures forall x :: x in r <==> x in l && !h[x].colour.White?
  {
    if l == [] then []
    else (if h[l[0]].colour.White? then [] else [l[0]]) + NonWhites(h, l[1..])
  }

  predicate Precedes(l: seq<Ref>, x: Ref, y: Ref) {
    exists i, j :: 0 <= i < j < |l| && l[i] == x && l[j] == y
  }

  /** The list `m` holds members of `l`, in the order of `l`. */
  ghost predicate InOrder(l: seq<Ref>, m: seq<Ref>) {
    (forall x :: x in m ==> x in l) && forall x, y :: Precedes(m, x, y) ==> Precedes(l, x, y)
  }

  lemma OrderNoDup(l: seq<Ref>, m: seq<Ref>)
    requires NoDup(l) && InOrder(l, m)
    ensures NoDup(m)
  {
    forall i, j | 0 <= i < j < |m| ensures m[i] != m[j] {
      assert Precedes(m, m[i], m[j]) && Precedes(l, m[i], m[j]);
    }
  }

  lemma PrecedesTail(l: seq<Ref>, x: Ref, y: Ref)
    requires l != [] && (Precedes(l[1..], x, y) || (x == l[0] && y in l[1..]))
    ensures Precedes(l, x, y)
  {
    if i, j :| 0 <= i < j < |l[1..]| && l[1..][i] == x && l[1..][j] == y {
      assert l[i + 1] == x && l[j + 1] == y;
    } else {
      var j :| 0 <= j < |l[1..]| && l[1..][j] == y;
      assert l[0] == x && l[j + 1] == y;
    }
  }

  lemma OrderCons(l: seq<Ref>, m: seq<Ref>)
    requires l != [] && InOrder(l[1..], m)
    ensures InOrder(l, m) && InOrder(l, [l[0]] + m)
  {
    forall x, y | Precedes(m, x, y) ensures Precedes(l, x, y) { PrecedesTail(l, x, y); }
    forall x, y | Precedes([l[0]] + m, x, y) ensures Precedes(l, x, y) {
      var i, j :| 0 <= i < j < |[l[0]] + m| && ([l[0]] + m)[i] == x && ([l[0]] + m)[j] == y;
      assert y == m[j - 1];
      if i > 0 { assert x == m[i - 1] && Precedes(m, x, y); }
      PrecedesTail(l, x, y);
    }
  }

  /** separatetobefnz keeps the order of `finobj` in both parts. */
  lemma {:induction false} FilterOrder(h: map<Ref, Obj>, l: seq<Ref>)
    requires forall x :: x in l ==> x in h
    ensures InOrder(l, Whites(h, l)) && InOrder(l, NonWhites(h, l))
  {
    if l != [] {
      FilterOrder(h, l[1..]);
      OrderCons(l, Whites(h, l[1..]));
      OrderCons(l, NonWhites(h, l[1..]));
    }
  }

  /** separatetobefnz (lgc.c:877-892): objects with a finalizer that nothing marked move to the
      end of `tobefnz`. */
  function SeparateToBeFnz(s: State): State
    requires AllIn(s, s.finobj)
  {
    s.(finobj := NonWhites(s.heap, s.finobj), tobefnz := s.tobefnz + Whites(s.heap, s.finobj))
  }

  /** The second half of `atomic` (lgc.c:1006-1009): mark what the finalizers will see. */
  ghost function MarkResurrected(s: State): (t: State)
    requires Closed(s) && s.gray == [] && AllIn(s, s.finobj) && AllIn(s, s.tobefnz)
    ensures MarkedOnly(SeparateToBeFnz(s), t) && t.gray == []
  {
    var s1 := SeparateToBeFnz(s);
    GrewClosed(s, s1);
    MarkListShape(s1, s1.tobefnz);
    var s2 := MarkList(s1, s1.tobefnz);
    var t := PropagateAll(s2);
    GrewTrans(s1.heap, s2.heap, t.heap);
    t
  }

  /** atomic (lgc.c:979-1023) without weak tables: finish marking and flip the current white. */
  ghost function AtomicStep(s: State): State
    requires AtomicReady(s)
  {
    var s1 := MarkStrong(s);
    var t := MarkResurrected(s1);
    t.(currentwhite := !t.currentwhite)
  }

  // ---------- finalizers ----------

  /** udata2finalize (lgc.c:787-797), with the push of the object on the stack of the running
      thread that GCTM does with it (lgc.c:806-825). */
  function CallFinalizer(s: State): State
    requires s.tobefnz != [] && s.tobefnz[0] in s.heap && s.running in s.heap
  {
    var o := s.tobefnz[0];
    var obj := s.heap[o].(finalized := false);
    var obj' := if IsSweepPhase(s.gcstate) then obj.(colour := White(s.currentwhite)) else obj;
    var h := s.heap[o := obj'];
    s.(heap := h[s.running := h[s.running].(refs := h[s.running].refs + [o])],
       tobefnz := s.tobefnz[1..], allgc := [o] + s.allgc)
  }

  // ---------- singlestep ----------

  ghost predicate StepReady(s: State) {
    match s.gcstate
    case Pause => Closed(s) && AllIn(s, RootList(s))
    case Propagate => Closed(s) && GrayList(s, s.gray) && s.gray != []
    case Atomic =>
      Closed(s) && GrayList(s, s.gray) && AtomicReady(PropagateAll(s)) && NoDup(s.allgc) && AllIn(s, s.allgc)
    case SwpEnd => s.mainthread in s.heap
    case CallFin => s.tobefnz != [] ==> s.tobefnz[0] in s.heap && s.running in s.heap
    case _ => NoDup(Ahead(CursorList(s), s.sweepgc)) && AllIn(s, Ahead(CursorList(s), s.sweepgc))
  }

  /** singlestep (lgc.c:1042-1094).  In the state GCScallfin one call stands for one finalizer
      of `runafewfinalizers`. */
  ghost function SingleStep(s: State): State
    requires StepReady(s)
  {
    match s.gcstate
    case Pause => RestartCollection(s).(gcstate := Propagate)
    case Propagate =>
      PropagateMarkGray(s);
      var t := PropagateMark(s);
      if t.gray == [] then t.(gcstate := Atomic) else t
    case Atomic =>
      var t := AtomicStep(PropagateAll(s));
      AtomicFrame(PropagateAll(s));
      EnterSweep(t)
    case SwpAllGc => SweepStep(s, SwpFinObj, Header)
    case SwpFinObj => SweepStep(s, SwpToBeFnz, Header)
    case SwpToBeFnz => if Lost(s) then SweepAway(s) else SweepStep(s, SwpEnd, NoCursor)
    case SwpEnd => SetColour(s, s.mainthread, White(s.currentwhite)).(gcstate := CallFin)
    case CallFin =>
      if s.tobefnz != [] && !s.emergency then CallFinalizer(s) else s.(gcstate := Pause)
  }

  lemma AtomicFrame(s: State)
    requires AtomicReady(s)
    ensures AtomicStep(s).allgc == s.allgc && AtomicStep(s).heap.Keys == s.heap.Keys
  {
  }
}
