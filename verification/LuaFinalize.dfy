/** Finalizers and the other list moves (lgc.c:194-201, 787-797, 877-918): registering a
    finalizer while `allgc` is being swept, calling one, fixing a string, changing roots. */
module LuaFinalize {
  import opened Wrappers
  import opened LuaHeap
  import opened LuaTricolour
  import opened LuaCollector
  import opened LuaCycle
  import opened LuaSweep
  import opened LuaMutator

  // ---------- roots ----------

  lemma SetRootsInv(s: State, globals: seq<Ref>, running: Ref)
    requires Inv(s) && AllAlive(s, globals) && Alive(s, running) && s.heap[running].kind == Thread
    ensures Inv(s.(globals := globals, running := running))
  {
    RootsLive(s, globals, running);
    SetRootsPhase(s, s.(globals := globals, running := running));
  }

  lemma RootsLive(s: State, globals: seq<Ref>, running: Ref)
    requires LiveClosed(s) && AllAlive(s, globals) && Alive(s, running) && s.heap[running].kind == Thread
    ensures LiveClosed(s.(globals := globals, running := running))
  {
    var t := s.(globals := globals, running := running);
    assert forall x :: Alive(t, x) <==> Alive(s, x);
    forall x | Alive(t, x) ensures LiveOut(t, x) { assert LiveOut(s, x); }
    forall x | IsRoot(t, x) ensures Alive(t, x) {
      if x !in globals && x != running { assert IsRoot(s, x); }
    }
  }

  lemma SetRootsPhase(s: State, t: State)
    requires t == s.(globals := t.globals, running := t.running)
    ensures Lists(s) ==> Lists(t)
    ensures FixedMarked(s) ==> FixedMarked(t)
    ensures ThreadsNotBlack(s) ==> ThreadsNotBlack(t)
    ensures MarkPhase(s) ==> MarkPhase(t)
    ensures SweepPhase(s) ==> SweepPhase(t)
    ensures AllWhite(s) ==> AllWhite(t)
  {
    assert forall x :: Dead(t, x) <==> Dead(s, x);
    assert forall x :: CurrentWhite(t, x) <==> CurrentWhite(s, x);
    assert forall x :: IsWhite(t, x) <==> IsWhite(s, x);
    if MarkPhase(s) {
      assert forall x :: GrayNode(s, x) ==> GrayNode(t, x);
      assert forall x :: GrayListed(s, x) ==> GrayListed(t, x);
      assert forall x :: x in s.heap && OutMarked(s, x) ==> OutMarked(t, x);
    }
  }

  // ---------- sweeptolive ----------

  /** From `s` to `t` the sweep moved on: the same objects are alive. */
  ghost predicate SweptOn(s: State, t: State) {
    && t == s.(heap := t.heap, allgc := t.allgc, sweepgc := t.sweepgc)
    && (forall x :: Alive(t, x) <==> Alive(s, x))
    && (forall x :: x in t.heap ==> x in s.heap && t.heap[x] == s.heap[x].(colour := t.heap[x].colour))
    && (forall x :: CurrentWhite(s, x) ==> CurrentWhite(t, x))
    && (forall x :: Alive(s, x) && x in s.allgc ==> x in t.allgc)
    && (forall x :: x in t.allgc ==> x in s.allgc)
    && (forall x :: x in t.heap && x !in s.allgc ==> t.heap[x] == s.heap[x])
  }

  lemma SweepOne(s: State)
    requires Base(s) && SweepPhase(s) && s.gcstate == SwpAllGc
    ensures NoDup(Ahead(s.allgc, s.sweepgc)) && AllIn(s, Ahead(s.allgc, s.sweepgc))
    ensures var t := SweepSome(s, 1);
      && Base(t) && SweepPhase(t) && SweptOn(s, t)
      && (t.sweepgc == s.sweepgc != NoCursor ==> |Ahead(t.allgc, t.sweepgc)| < |Ahead(s.allgc, s.sweepgc)|)
  {
    var done := SweepSomeEffect(s, 1);
    SweepSomeInv(s, 1);
    SweptOnStep(s, SweepSome(s, 1), done);
    SweepOneShorter(s);
  }

  lemma SweptOnStep(s: State, t: State, done: seq<Ref>)
    requires SweepEffect(s, t, done) && s.gcstate == SwpAllGc
    ensures SweptOn(s, t)
  {
    SweepAlive(s, t, done);
  }

  lemma SweepOneShorter(s: State)
    requires Lists(s) && s.gcstate == SwpAllGc
    requires NoDup(Ahead(s.allgc, s.sweepgc)) && AllIn(s, Ahead(s.allgc, s.sweepgc))
    ensures var t := SweepSome(s, 1);
      t.sweepgc == s.sweepgc != NoCursor ==> |Ahead(t.allgc, t.sweepgc)| < |Ahead(s.allgc, s.sweepgc)|
  {
    TargetFacts(s);
    var pre, rest := Passed(s.allgc, s.sweepgc), Ahead(s.allgc, s.sweepgc);
    SweepListFacts(s.heap, s.currentwhite, pre, rest, 1);
    var r := SweepList(s.heap, s.currentwhite, pre, rest, 1);
    PassedAt(r.pre, r.rest);
  }

  lemma CursorPast(s: State)
    requires Base(s) && s.gcstate == SwpAllGc
    ensures NoDup(Ahead(s.allgc, s.sweepgc)) && AllIn(s, Ahead(s.allgc, s.sweepgc))
    ensures s.sweepgc.After? ==> SweepSome(s, 1).sweepgc != Header
  {
    TargetFacts(s);
    if s.sweepgc.After? { SweptPast(s, 1); }
  }

  /** sweeptolive (lgc.c:757-763): sweep one object at a time until the cursor moves. */
  function SweepToLive(s: State): (t: State)
    requires Base(s) && SweepPhase(s) && s.gcstate == SwpAllGc && s.sweepgc != NoCursor
    ensures Base(t) && SweepPhase(t) && SweptOn(s, t) && t.sweepgc != s.sweepgc
    ensures s.sweepgc.After? ==> t.sweepgc != Header
    decreases |Ahead(s.allgc, s.sweepgc)|
  {
    SweepOne(s);
    CursorPast(s);
    var t := SweepSome(s, 1);
    if t.sweepgc == s.sweepgc then SweepToLive(t) else t
  }

  // ---------- luaC_checkfinalizer ----------

  function RemoveOne(l: seq<Ref>, o: Ref): seq<Ref> {
    if l == [] then [] else if l[0] == o then l[1..] else [l[0]] + RemoveOne(l[1..], o)
  }

  lemma {:induction false} RemoveOneFacts(l: seq<Ref>, o: Ref, c: Cursor)
    requires NoDup(l)
    ensures forall x :: x in RemoveOne(l, o) <==> x in l && x != o
    ensures NoDup(RemoveOne(l, o))
    ensures c != After(o) ==> forall x :: x in Passed(RemoveOne(l, o), c) ==> x in Passed(l, c)
  {
    if l != [] {
      assert [l[0]] + l[1..] == l;
      NoDupConcat([l[0]], l[1..]);
      RemoveOneFacts(l[1..], o, c);
      if l[0] != o {
        NoDupConcat([l[0]], RemoveOne(l[1..], o));
        assert RemoveOne(l, o)[1..] == RemoveOne(l[1..], o);
      }
    }
  }

  /** Take `o` off `allgc` and put it on `finobj` with FINALIZEDBIT set (lgc.c:911-916). */
  function MoveToFinobj(s: State, o: Ref): State
    requires o in s.heap
  {
    s.(heap := s.heap[o := s.heap[o].(finalized := true)], allgc := RemoveOne(s.allgc, o), finobj := [o] + s.finobj)
  }

  ghost predicate CanFinalize(s: State, o: Ref) {
    Alive(s, o) && Finalizable(s.heap[o].kind)
  }

  /** The state with `o` swept, for a cursor that leads into `allgc`. */
  function SweptHere(s: State, o: Ref): State
    requires o in s.heap
  {
    SetColour(s, o, White(s.currentwhite)).(gcstate := SwpAllGc)
  }

  /** sweeptolive ends, and follows no pointer to freed memory. */
  ghost predicate CheckReady(s: State, o: Ref) {
    && o in s.heap
    && (!s.heap[o].finalized && IsSweepPhase(s.gcstate) && s.sweepgc == After(o) ==>
          Base(SweptHere(s, o)) && SweepPhase(SweptHere(s, o)))
  }

  /** luaC_checkfinalizer while sweeping: no cursor may stay in `o` (lgc.c:906-910). */
  function SweepObject(s: State, o: Ref): (t: State)
    requires CheckReady(s, o) && !s.heap[o].finalized && IsSweepPhase(s.gcstate)
    ensures o in t.heap && t.gcstate == s.gcstate
  {
    if s.sweepgc == After(o) then
      assert Alive(SweptHere(s, o), o);
      assert Alive(SweepToLive(SweptHere(s, o)), o);
      SweepToLive(SweptHere(s, o)).(gcstate := s.gcstate)
    else SetColour(s, o, White(s.currentwhite))
  }

  /** luaC_checkfinalizer (lgc.c:899-918) for a metatable with a __gc field. */
  function CheckFinalizer(s: State, o: Ref): State
    requires CheckReady(s, o)
  {
    if s.heap[o].finalized then s
    else if !IsSweepPhase(s.gcstate) then MoveToFinobj(s, o)
    else MoveToFinobj(SweepObject(s, o), o)
  }

  lemma CheckIsReady(s: State, o: Ref)
    requires Inv(s) && CanFinalize(s, o)
    ensures CheckReady(s, o)
    ensures !s.heap[o].finalized && IsSweepPhase(s.gcstate) && s.sweepgc == After(o) ==> s.gcstate == SwpAllGc
  {
    if !s.heap[o].finalized && IsSweepPhase(s.gcstate) {
      WhitenInv(s, o);
      if s.sweepgc == After(o) { CursorOwner(s, o); }
    }
  }

  /** Only while `allgc` is swept can the cursor sit in an object without FINALIZEDBIT. */
  lemma CursorOwner(s: State, o: Ref)
    requires Lists(s) && SweepPhase(s) && IsSweepPhase(s.gcstate) && o in s.heap && !s.heap[o].finalized
    requires s.sweepgc == After(o)
    ensures s.gcstate == SwpAllGc
  {
  }

  lemma WhitenInv(s: State, o: Ref)
    requires Base(s) && SweepPhase(s) && IsSweepPhase(s.gcstate) && Alive(s, o) && o !in s.fixedgc
    ensures Base(SetColour(s, o, White(s.currentwhite))) && SweepPhase(SetColour(s, o, White(s.currentwhite)))
  {
    var t := SetColour(s, o, White(s.currentwhite));
    assert forall x :: Dead(t, x) <==> Dead(s, x);
    forall x | Alive(t, x) ensures LiveOut(t, x) {
      assert Alive(s, x) && LiveOut(s, x);
      assert forall y :: Alive(s, y) ==> Alive(t, y);
    }
    assert forall x :: IsRoot(t, x) ==> IsRoot(s, x);
    assert forall x :: CurrentWhite(s, x) ==> CurrentWhite(t, x);
  }

  lemma MoveLive(s: State, o: Ref)
    requires LiveClosed(s) && Alive(s, o)
    ensures LiveClosed(MoveToFinobj(s, o))
    ensures forall x :: Alive(MoveToFinobj(s, o), x) <==> Alive(s, x)
    ensures forall x :: CurrentWhite(MoveToFinobj(s, o), x) <==> CurrentWhite(s, x)
    ensures forall x :: IsWhite(MoveToFinobj(s, o), x) <==> IsWhite(s, x)
    ensures forall x :: Dead(MoveToFinobj(s, o), x) <==> Dead(s, x)
  {
    var t := MoveToFinobj(s, o);
    assert forall x :: Dead(t, x) <==> Dead(s, x);
    forall x | Alive(t, x) ensures LiveOut(t, x) {
      assert Alive(s, x) && LiveOut(s, x);
      assert t.heap[x].Out() == s.heap[x].Out();
      assert forall y :: Alive(s, y) ==> Alive(t, y);
    }
    assert forall x :: IsRoot(t, x) ==> x == o || IsRoot(s, x);
    assert IsRoot(s, s.running);
  }

  lemma MoveLists(s: State, o: Ref)
    requires Lists(s) && o in s.allgc && Finalizable(s.heap[o].kind)
    ensures Lists(MoveToFinobj(s, o))
  {
    RemoveOneFacts(s.allgc, o, NoCursor);
    NoDupConcat([o], s.finobj);
  }

  lemma MoveBase(s: State, o: Ref)
    requires Base(s) && o in s.allgc && Alive(s, o) && Finalizable(s.heap[o].kind)
    ensures Base(MoveToFinobj(s, o))
  {
    MoveLive(s, o);
    MoveLists(s, o);
    var t := MoveToFinobj(s, o);
    assert forall x :: x in t.heap ==> t.heap[x].kind == s.heap[x].kind && t.heap[x].colour == s.heap[x].colour;
  }

  /** Moving an object that the cursor is not in leaves the cursor in the swept list, with only
      current-white objects before it. */
  lemma MoveSweep(s: State, o: Ref)
    requires Lists(s) && LiveClosed(s) && SweepPhase(s) && IsSweepPhase(s.gcstate)
    requires o in s.allgc && CurrentWhite(s, o) && s.sweepgc != After(o)
    ensures SweepPhase(MoveToFinobj(s, o))
  {
    MoveLive(s, o);
    RemoveOneFacts(s.allgc, o, s.sweepgc);
    PushedPassed(o, s.finobj, s.sweepgc);
  }

  lemma MoveMark(s: State, o: Ref)
    requires LiveClosed(s) && MarkPhase(s) && Alive(s, o)
    ensures MarkPhase(MoveToFinobj(s, o))
  {
    var t := MoveToFinobj(s, o);
    MoveLive(s, o);
    assert forall x :: GrayNode(s, x) ==> GrayNode(t, x);
    assert forall x :: GrayListed(s, x) ==> GrayListed(t, x);
    assert forall x :: x in s.heap && OutMarked(s, x) ==> OutMarked(t, x);
  }

  /** Registering a finalizer keeps the invariant in every phase; in particular the cursor
      stays inside the list being swept. */
  lemma CheckFinalizerInv(s: State, o: Ref)
    requires Inv(s) && CanFinalize(s, o)
    ensures CheckReady(s, o)
    ensures var t := CheckFinalizer(s, o);
      Inv(t) && (IsSweepPhase(s.gcstate) && !s.heap[o].finalized ==> t.sweepgc != After(o))
  {
    CheckIsReady(s, o);
    if !s.heap[o].finalized {
      NotFinalized(s, o);
      if IsSweepPhase(s.gcstate) {
        CheckSweepInv(s, o);
      } else {
        MoveInv(s, o);
      }
    }
  }

  lemma NotFinalized(s: State, o: Ref)
    requires Lists(s) && o in s.heap && !s.heap[o].finalized && Finalizable(s.heap[o].kind)
    ensures o in s.allgc
  {
  }

  lemma MoveInv(s: State, o: Ref)
    requires Inv(s) && CanFinalize(s, o) && o in s.allgc && !IsSweepPhase(s.gcstate)
    ensures var t := MoveToFinobj(s, o); Inv(t)
  {
    MoveBase(s, o);
    if KeepInvariant(s.gcstate) {
      MoveMark(s, o);
    } else {
      MoveLive(s, o);
    }
  }

  /** Before the object moves it has the current white, and the cursor is not in it. */
  lemma SweptForMove(s: State, o: Ref)
    requires Inv(s) && CanFinalize(s, o) && !s.heap[o].finalized && o in s.allgc && IsSweepPhase(s.gcstate)
    ensures CheckReady(s, o)
    ensures var t := SweepObject(s, o);
      && Base(t) && SweepPhase(t) && CurrentWhite(t, o) && o in t.allgc && t.sweepgc != After(o)
      && t.heap[o].kind == s.heap[o].kind
  {
    WhitenInv(s, o);
    CheckIsReady(s, o);
    if s.sweepgc == After(o) {
      CursorOwner(s, o);
      assert CurrentWhite(SweptHere(s, o), o);
    }
  }

  lemma CheckSweepInv(s: State, o: Ref)
    requires Inv(s) && CanFinalize(s, o) && !s.heap[o].finalized && o in s.allgc && IsSweepPhase(s.gcstate)
    ensures CheckReady(s, o)
    ensures var t := CheckFinalizer(s, o); Inv(t) && t.sweepgc != After(o)
  {
    SweptForMove(s, o);
    var t := SweepObject(s, o);
    MoveBase(t, o);
    MoveSweep(t, o);
  }

  // ---------- udata2finalize ----------

  /** udata2finalize does not look at `sweepgc`.  The only state in which that matters is
      GCSswptobefnz with the cursor in the object that is taken off `tobefnz`. */
  predicate LosesCursor(s: State) {
    s.gcstate == SwpToBeFnz && s.tobefnz != [] && s.sweepgc == After(s.tobefnz[0])
  }

  function Unlinked(s: State): State
    requires s.tobefnz != [] && s.tobefnz[0] in s.heap
  {
    var o := s.tobefnz[0];
    var obj := s.heap[o].(finalized := false);
    var obj' := if IsSweepPhase(s.gcstate) then obj.(colour := White(s.currentwhite)) else obj;
    s.(heap := s.heap[o := obj'], tobefnz := s.tobefnz[1..], allgc := [o] + s.allgc)
  }

  lemma UnlinkedLists(s: State)
    requires Lists(s) && s.tobefnz != [] && s.tobefnz[0] in s.heap
    ensures Lists(Unlinked(s))
  {
    var o := s.tobefnz[0];
    assert [o] + s.tobefnz[1..] == s.tobefnz;
    NoDupConcat([o], s.tobefnz[1..]);
    NoDupConcat([o], s.allgc);
    assert o in s.tobefnz;
    assert forall x :: x in s.tobefnz <==> x == o || x in s.tobefnz[1..];
  }

  lemma UnlinkedLive(s: State)
    requires LiveClosed(s) && s.tobefnz != [] && s.tobefnz[0] in s.heap
    ensures LiveClosed(Unlinked(s)) && Alive(Unlinked(s), s.tobefnz[0])
    ensures forall x :: Alive(Unlinked(s), x) <==> Alive(s, x)
    ensures forall x :: Dead(Unlinked(s), x) <==> Dead(s, x)
    ensures forall x :: CurrentWhite(s, x) ==> CurrentWhite(Unlinked(s), x)
  {
    var o := s.tobefnz[0];
    var t := Unlinked(s);
    assert o in s.tobefnz && IsRoot(s, o) && Alive(s, o);
    assert forall x :: Dead(t, x) <==> Dead(s, x);
    forall x | Alive(t, x) ensures LiveOut(t, x) {
      assert Alive(s, x) && LiveOut(s, x);
      assert t.heap[x].Out() == s.heap[x].Out();
      assert forall y :: Alive(s, y) ==> Alive(t, y);
    }
    assert forall x :: IsRoot(t, x) ==> IsRoot(s, x);
    assert IsRoot(s, s.running);
  }

  lemma UnlinkedBase(s: State)
    requires Base(s) && s.tobefnz != []
    ensures s.tobefnz[0] in s.heap && Base(Unlinked(s))
  {
    assert s.tobefnz[0] in s.tobefnz;
    UnlinkedLists(s);
    UnlinkedLive(s);
    var t := Unlinked(s);
    assert forall x :: x in t.heap && x != s.tobefnz[0] ==> t.heap[x] == s.heap[x];
  }

  lemma UnlinkedSweep(s: State)
    requires Lists(s) && LiveClosed(s) && SweepPhase(s) && IsSweepPhase(s.gcstate)
    requires s.tobefnz != [] && s.tobefnz[0] in s.heap && !LosesCursor(s)
    ensures SweepPhase(Unlinked(s))
  {
    UnlinkedLive(s);
    PushedPassed(s.tobefnz[0], s.allgc, s.sweepgc);
    var o := s.tobefnz[0];
    assert CurrentWhite(Unlinked(s), o);
    if s.gcstate == SwpToBeFnz {
      TailPassed(s.tobefnz, s.sweepgc);
    }
  }

  lemma TailPassed(l: seq<Ref>, c: Cursor)
    requires l != [] && c != After(l[0])
    ensures forall x :: x in Passed(l[1..], c) ==> x in Passed(l, c)
    ensures CursorIn(l, c) ==> CursorIn(l[1..], c)
  {
  }

  lemma UnlinkedMark(s: State)
    requires Lists(s) && LiveClosed(s) && MarkPhase(s) && s.tobefnz != [] && s.tobefnz[0] in s.heap
    requires !IsSweepPhase(s.gcstate)
    ensures MarkPhase(Unlinked(s))
  {
    var t := Unlinked(s);
    UnlinkedLive(s);
    UnlinkedCovered(s, Elems(s.grayagain));
    assert forall x :: GrayNode(s, x) ==> GrayNode(t, x);
    assert forall x :: GrayListed(s, x) ==> GrayListed(t, x);
  }

  lemma UnlinkedCovered(s: State, p: set<Ref>)
    requires s.tobefnz != [] && s.tobefnz[0] in s.heap && !IsSweepPhase(s.gcstate) && Covered(s, p)
    ensures Covered(Unlinked(s), p) && forall x :: IsWhite(Unlinked(s), x) <==> IsWhite(s, x)
  {
    var t := Unlinked(s);
    assert forall x :: IsWhite(t, x) <==> IsWhite(s, x);
    assert forall x :: x in s.heap && OutMarked(s, x) ==> OutMarked(t, x);
  }

  lemma UnlinkedInv(s: State)
    requires Inv(s) && s.tobefnz != [] && !LosesCursor(s)
    ensures s.tobefnz[0] in s.heap && Inv(Unlinked(s))
  {
    UnlinkedBase(s);
    if KeepInvariant(s.gcstate) {
      UnlinkedMark(s);
    } else if IsSweepPhase(s.gcstate) {
      UnlinkedSweep(s);
    } else {
      UnlinkedLive(s);
    }
  }

  /** Calling a finalizer keeps the invariant unless the sweep cursor is lost. */
  lemma CallFinalizerInv(s: State)
    requires Inv(s) && s.tobefnz != [] && !LosesCursor(s)
    ensures s.tobefnz[0] in s.heap && s.running in s.heap && Inv(CallFinalizer(s))
  {
    UnlinkedInv(s);
    var t := Unlinked(s);
    assert IsRoot(t, t.running) && LiveOut(t, t.running);
    assert IsRoot(s, s.running) && IsRoot(s, s.tobefnz[0]);
    UnlinkedLive(s);
    forall y | y in t.heap[t.running].refs + [s.tobefnz[0]] ensures Alive(t, y) {
      if y != s.tobefnz[0] { assert y in t.heap[t.running].Out(); }
    }
    StackInv(t, t.heap[t.running].refs + [s.tobefnz[0]]);
  }

  /** Exactly then does the cursor leave the list being swept. */
  lemma LosesCursorExactly(s: State)
    requires Inv(s) && s.tobefnz != []
    ensures s.tobefnz[0] in s.heap && s.running in s.heap
    ensures CursorIn(SweepTarget(CallFinalizer(s)), CallFinalizer(s).sweepgc) <==> !LosesCursor(s)
  {
    assert IsRoot(s, s.running) && s.tobefnz[0] in s.tobefnz && IsRoot(s, s.tobefnz[0]);
    var o := s.tobefnz[0];
    assert [o] + s.tobefnz[1..] == s.tobefnz;
    NoDupConcat([o], s.tobefnz[1..]);
    if s.sweepgc.After? && s.sweepgc.o != o {
      assert s.sweepgc.o in s.tobefnz <==> s.sweepgc.o in s.tobefnz[1..];
    }
  }

  // ---------- fixed strings ----------

  /** luaC_fix (lgc.c:194-201): the newest object, a string, becomes gray for ever. */
  function Fix(s: State): State
    requires s.allgc != [] && s.allgc[0] in s.heap
  {
    var o := s.allgc[0];
    var t := if s.heap[o].colour.White? then SetColour(s, o, Gray) else s;
    t.(allgc := s.allgc[1..], fixedgc := [o] + s.fixedgc)
  }

  ghost predicate FixOk(s: State) {
    s.allgc != [] && Alive(s, s.allgc[0]) && s.heap[s.allgc[0]].kind == Str && s.sweepgc != After(s.allgc[0])
  }

  lemma FixLists(s: State)
    requires Lists(s) && FixOk(s) && FixedMarked(s)
    ensures var t := Fix(s); Lists(t) && FixedMarked(t)
  {
    var o := s.allgc[0];
    HeadOff(s.allgc);
    NoDupConcat([o], s.fixedgc);
    FixObjects(s);
  }

  /** Fixing a string changes its colour only. */
  lemma FixObjects(s: State)
    requires FixOk(s) && FixedMarked(s)
    ensures var t := Fix(s);
      && t.heap.Keys == s.heap.Keys && FixedMarked(t)
      && forall x :: x in s.heap ==> t.heap[x] == s.heap[x].(colour := t.heap[x].colour)
  {
  }

  lemma FixLive(s: State)
    requires LiveClosed(s) && FixOk(s)
    ensures LiveClosed(Fix(s))
    ensures forall x :: Dead(Fix(s), x) <==> Dead(s, x)
    ensures forall x :: CurrentWhite(s, x) && x != s.allgc[0] ==> CurrentWhite(Fix(s), x)
  {
    var t := Fix(s);
    assert forall x :: Dead(t, x) <==> Dead(s, x);
    forall x | Alive(t, x) ensures LiveOut(t, x) {
      assert Alive(s, x) && LiveOut(s, x);
      assert t.heap[x].Out() == s.heap[x].Out();
      assert forall y :: Alive(s, y) ==> Alive(t, y);
    }
    assert forall x :: IsRoot(t, x) ==> IsRoot(s, x);
    assert IsRoot(s, s.running);
  }

  lemma FixGrayLists(s: State)
    requires GrayLists(s) && FixOk(s)
    ensures GrayLists(Fix(s))
  {
    var t := Fix(s);
    assert forall x :: GrayNode(s, x) ==> GrayNode(t, x);
    assert forall x :: GrayListed(s, x) ==> GrayListed(t, x);
  }

  /** A string points to nothing, so turning one gray leaves nothing uncovered. */
  lemma FixCovered(s: State, q: set<Ref>)
    requires s.allgc != [] && s.allgc[0] in s.heap && s.heap[s.allgc[0]].Out() == [] && Covered(s, q)
    ensures Covered(Fix(s), q)
  {
    var t := Fix(s);
    assert forall x :: IsWhite(t, x) ==> IsWhite(s, x);
    forall x | x in t.heap && !IsWhite(t, x) && x !in t.gray && x !in q ensures OutMarked(t, x) {
      if x != s.allgc[0] { assert OutMarked(s, x); }
    }
  }

  lemma FixMark(s: State)
    requires LiveClosed(s) && MarkPhase(s) && FixOk(s)
    ensures MarkPhase(Fix(s))
  {
    FixLive(s);
    FixGrayLists(s);
    assert LiveOut(s, s.allgc[0]);
    FixCovered(s, Elems(s.grayagain));
  }

  lemma TailCursor(l: seq<Ref>, c: Cursor)
    requires l != [] && NoDup(l) && c != After(l[0]) && CursorIn(l, c)
    ensures CursorIn(l[1..], c)
    ensures forall x :: x in Passed(l[1..], c) ==> x in Passed(l, c) && x != l[0]
  {
    HeadOff(l);
    TailPassed(l, c);
    PassedAhead(l[1..], c);
  }

  lemma OtherCursor(l: seq<Ref>, c: Cursor, o: Ref)
    requires CursorIn(l, c) && NoDup(l) && o !in l
    ensures forall x :: x in Passed(l, c) ==> x != o
  {
    PassedAhead(l, c);
  }

  /** The list being swept loses at most its head, and the cursor stays in it. */
  lemma FixCursor(s: State)
    requires s.allgc != [] && s.allgc[0] in s.heap && s.sweepgc != After(s.allgc[0])
    requires NoDup(s.allgc) && NoDup(SweepTarget(s)) && CursorIn(SweepTarget(s), s.sweepgc)
    requires s.allgc[0] !in s.finobj && s.allgc[0] !in s.tobefnz
    ensures CursorIn(SweepTarget(Fix(s)), s.sweepgc)
    ensures forall x :: x in Passed(SweepTarget(Fix(s)), s.sweepgc) ==>
              x in Passed(SweepTarget(s), s.sweepgc) && x != s.allgc[0]
  {
    if s.gcstate == SwpAllGc {
      TailCursor(s.allgc, s.sweepgc);
    } else {
      OtherCursor(SweepTarget(s), s.sweepgc, s.allgc[0]);
    }
  }

  lemma HeadOff(l: seq<Ref>)
    requires l != [] && NoDup(l)
    ensures l[0] in l && NoDup(l[1..]) && forall x :: x in l[1..] <==> x in l && x != l[0]
  {
    assert [l[0]] + l[1..] == l;
    NoDupConcat([l[0]], l[1..]);
  }

  lemma FixSweep(s: State)
    requires Lists(s) && LiveClosed(s) && SweepPhase(s) && IsSweepPhase(s.gcstate) && FixOk(s)
    ensures SweepPhase(Fix(s))
  {
    FixLive(s);
    HeadOff(s.allgc);
    FixCursor(s);
  }

  lemma FixThreads(s: State)
    requires FixOk(s)
    ensures ThreadsNotBlack(s) ==> ThreadsNotBlack(Fix(s))
  {
  }

  lemma FixBase(s: State)
    requires Base(s) && FixOk(s)
    ensures Base(Fix(s))
  {
    FixLists(s);
    FixLive(s);
    FixThreads(s);
  }

  lemma FixAllWhite(s: State)
    requires AllWhite(s) && FixOk(s)
    ensures AllWhite(Fix(s))
  {
  }

  lemma FixMarkInv(s: State)
    requires Inv(s) && FixOk(s) && KeepInvariant(s.gcstate)
    ensures Inv(Fix(s))
  {
    FixBase(s);
    FixMark(s);
  }

  lemma FixSweepInv(s: State)
    requires Inv(s) && FixOk(s) && IsSweepPhase(s.gcstate)
    ensures Inv(Fix(s))
  {
    FixBase(s);
    FixSweep(s);
  }

  lemma FixInv(s: State)
    requires Inv(s) && FixOk(s)
    ensures Inv(Fix(s))
  {
    if KeepInvariant(s.gcstate) {
      FixMarkInv(s);
    } else if IsSweepPhase(s.gcstate) {
      FixSweepInv(s);
    } else {
      FixBase(s);
      FixAllWhite(s);
    }
  }

  // ---------- assignments to closed upvalues ----------

  /** luaC_upvalbarrier_ (lgc.c:185-191): a closed upvalue shared by the closures `cs` now holds
      `v`; if the collector is marking, `v` is marked, whatever the colour of the closures. */
  ghost function StoreUpvalue(s: State, cs: map<Ref, seq<Ref>>, v: Ref): State
    requires UpvalueReady(s, cs, v)
  {
    var t := SetUpvalues(s, cs);
    if KeepInvariant(s.gcstate) then MarkObject(t, v) else t
  }

  function SetUpvalues(s: State, cs: map<Ref, seq<Ref>>): State {
    s.(heap := map x | x in s.heap :: if x in cs then s.heap[x].(refs := cs[x]) else s.heap[x])
  }

  ghost predicate UpvalueReady(s: State, cs: map<Ref, seq<Ref>>, v: Ref) {
    v in s.heap && (KeepInvariant(s.gcstate) ==> Closed(SetUpvalues(s, cs)))
  }

  ghost predicate UpvalueOk(s: State, cs: map<Ref, seq<Ref>>, v: Ref) {
    && Alive(s, v)
    && (forall c :: c in cs ==> c in s.heap && s.heap[c].kind == LuaClosure)
    && (forall c, y :: c in cs && y in cs[c] ==> y in s.heap[c].refs || y == v)
  }

  lemma UpvalueBase(s: State, cs: map<Ref, seq<Ref>>, v: Ref)
    requires Inv(s) && UpvalueOk(s, cs, v)
    ensures Base(SetUpvalues(s, cs)) && v in SetUpvalues(s, cs).heap
    ensures KeepInvariant(s.gcstate) ==> NoneDead(SetUpvalues(s, cs)) && Closed(SetUpvalues(s, cs))
    ensures UpvalueReady(s, cs, v)
  {
    UpvalueLists(s, cs, v);
    UpvalueLive(s, cs, v);
    if KeepInvariant(s.gcstate) {
      UpvalueClosed(s, cs, v);
    }
  }

  lemma UpvalueLists(s: State, cs: map<Ref, seq<Ref>>, v: Ref)
    requires Lists(s) && ThreadsNotBlack(s) && FixedMarked(s) && UpvalueOk(s, cs, v)
    ensures Lists(SetUpvalues(s, cs)) && ThreadsNotBlack(SetUpvalues(s, cs)) && FixedMarked(SetUpvalues(s, cs))
  {
    var t := SetUpvalues(s, cs);
    assert forall x :: IsWhite(t, x) <==> IsWhite(s, x);
  }

  lemma UpvalueClosed(s: State, cs: map<Ref, seq<Ref>>, v: Ref)
    requires LiveClosed(s) && NoneDead(s) && UpvalueOk(s, cs, v)
    ensures NoneDead(SetUpvalues(s, cs)) && Closed(SetUpvalues(s, cs))
  {
    var t := SetUpvalues(s, cs);
    assert forall x :: Dead(t, x) <==> Dead(s, x);
    UpvalueLive(s, cs, v);
    LiveIsClosed(t);
  }

  lemma UpvalueLive(s: State, cs: map<Ref, seq<Ref>>, v: Ref)
    requires LiveClosed(s) && UpvalueOk(s, cs, v)
    ensures LiveClosed(SetUpvalues(s, cs))
  {
    var t := SetUpvalues(s, cs);
    assert forall x :: Dead(t, x) <==> Dead(s, x);
    forall x | Alive(t, x) ensures LiveOut(t, x) {
      assert Alive(s, x) && LiveOut(s, x);
      forall y | y in t.heap[x].Out() ensures Alive(t, y) {
        assert y in s.heap[x].Out() || y == v;
      }
    }
    assert forall x :: IsRoot(t, x) ==> IsRoot(s, x) && Alive(s, x);
    assert IsRoot(s, s.running);
  }

  lemma UpvalueCovered(s: State, cs: map<Ref, seq<Ref>>, v: Ref, q: set<Ref>)
    requires Covered(s, q)
    ensures Covered(SetUpvalues(s, cs), q + cs.Keys)
  {
    var t := SetUpvalues(s, cs);
    assert forall y :: IsWhite(t, y) <==> IsWhite(s, y);
    assert forall x :: x in s.heap && x !in cs && OutMarked(s, x) ==> OutMarked(t, x);
  }

  lemma UpvalueMarks(s: State, cs: map<Ref, seq<Ref>>, v: Ref)
    requires Inv(s) && UpvalueOk(s, cs, v) && KeepInvariant(s.gcstate)
    ensures UpvalueReady(s, cs, v)
    ensures var t := SetUpvalues(s, cs); var u := StoreUpvalue(s, cs, v);
      && GrayLists(t) && Shape(t, u) && Grew(t.heap, u.heap) && Covered(u, Elems(s.grayagain) + cs.Keys)
      && GrayLists(u) && Base(u) && NoneDead(u) && !IsWhite(u, v)
  {
    var t := SetUpvalues(s, cs);
    UpvalueBase(s, cs, v);
    var u := StoreUpvalue(s, cs, v);
    UpvalueGrayLists(s, cs);
    MarkObjectShape(t, v);
    ShapeGrayLists(t, u);
    GrewBase(t, u);
    EdgesInside(t);
    UpvalueCovered(s, cs, v, Elems(s.grayagain));
    MarkObjectInv(t, v, Elems(s.grayagain) + cs.Keys, t.heap.Keys);
  }

  lemma UpvalueGrayLists(s: State, cs: map<Ref, seq<Ref>>)
    requires GrayLists(s)
    ensures GrayLists(SetUpvalues(s, cs))
  {
    var t := SetUpvalues(s, cs);
    assert forall x :: GrayNode(s, x) ==> GrayNode(t, x);
    assert forall x :: GrayListed(s, x) ==> GrayListed(t, x);
  }

  lemma UpvalueMark(s: State, cs: map<Ref, seq<Ref>>, v: Ref)
    requires Inv(s) && UpvalueOk(s, cs, v) && KeepInvariant(s.gcstate)
    ensures UpvalueReady(s, cs, v) && Inv(StoreUpvalue(s, cs, v))
  {
    UpvalueMarks(s, cs, v);
    UpvalueMarkPhase(s, cs, v, StoreUpvalue(s, cs, v));
  }

  lemma UpvalueMarkPhase(s: State, cs: map<Ref, seq<Ref>>, v: Ref, u: State)
    requires UpvalueOk(s, cs, v) && MarkPhase(s)
    requires var t := SetUpvalues(s, cs);
      && Shape(t, u) && Grew(t.heap, u.heap) && Covered(u, Elems(s.grayagain) + cs.Keys)
      && u == t.(heap := u.heap, gray := u.gray)
    requires GrayLists(u) && NoneDead(u) && !IsWhite(u, v)
    ensures MarkPhase(u) && (s.gray != [] ==> u.gray != [])
  {
    var t := SetUpvalues(s, cs);
    forall x | !IsWhite(s, x) ensures !IsWhite(u, x) { GrewMarked(t, u, x); }
    forall x | x in u.heap && !IsWhite(u, x) && x !in u.gray && x !in u.grayagain ensures OutMarked(u, x) {
      if x in cs { UpvalueOut(s, cs, v, u, x); }
    }
    if s.gray != [] { assert s.gray[0] in u.gray; }
  }

  /** A closure that is marked and in no gray list points to marked objects again. */
  lemma UpvalueOut(s: State, cs: map<Ref, seq<Ref>>, v: Ref, u: State, x: Ref)
    requires Covered(s, Elems(s.grayagain)) && UpvalueOk(s, cs, v) && x in cs
    requires var t := SetUpvalues(s, cs); Grew(t.heap, u.heap) && Shape(t, u) && !IsWhite(u, v)
    requires GrayLists(s) && x in u.heap && !IsWhite(u, x) && x !in u.gray && x !in s.grayagain
    ensures OutMarked(u, x)
  {
    var t := SetUpvalues(s, cs);
    assert Darker(t.heap[x], u.heap[x]);
    assert NewlyMarked(t, u, x) ==> x in u.gray;
    assert OutMarked(s, x);
    forall y | y in u.heap[x].Out() ensures !IsWhite(u, y) {
      assert y in s.heap[x].Out() || y == v;
      assert !IsWhite(t, y) || y == v;
      if y != v { GrewMarked(t, u, y); }
    }
  }

  /** Assigning to an upvalue keeps the invariant. */
  lemma StoreUpvalueInv(s: State, cs: map<Ref, seq<Ref>>, v: Ref)
    requires Inv(s) && UpvalueOk(s, cs, v)
    ensures UpvalueReady(s, cs, v)
    ensures var t := StoreUpvalue(s, cs, v); Inv(t)
  {
    if KeepInvariant(s.gcstate) {
      UpvalueMark(s, cs, v);
    } else {
      UpvalueBase(s, cs, v);
      UpvaluePhase(s, cs);
    }
  }

  lemma UpvaluePhase(s: State, cs: map<Ref, seq<Ref>>)
    ensures SweepPhase(s) ==> SweepPhase(SetUpvalues(s, cs))
    ensures AllWhite(s) ==> AllWhite(SetUpvalues(s, cs))
  {
    var t := SetUpvalues(s, cs);
    assert forall x :: Dead(t, x) <==> Dead(s, x);
    assert forall x :: CurrentWhite(t, x) <==> CurrentWhite(s, x);
  }
}
