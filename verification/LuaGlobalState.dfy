/** The collector as lgc.c writes it: one object whose fields the functions update in place,
    with loops where lgc.c has loops.  Every method is proved to compute the function of the
    same name on `Snapshot()`; what those functions keep is proved in the modules LuaSafety
    and LuaComplete. */
module LuaGlobalState {
  import opened Wrappers
  import opened LuaHeap
  import opened LuaTricolour
  import opened LuaCollector
  import opened LuaCycle
  import opened LuaAtomic
  import opened LuaSweep
  import opened LuaMutator
  import opened LuaFinalize
  import opened LuaSafety
  import opened LuaFullGc
  import opened LuaComplete

  class GlobalState {
    var heap: map<Ref, Obj>
    var gcstate: GCState
    var currentwhite: bool
    var allgc: seq<Ref>
    var finobj: seq<Ref>
    var tobefnz: seq<Ref>
    var fixedgc: seq<Ref>
    var gray: seq<Ref>
    var grayagain: seq<Ref>
    var sweepgc: Cursor
    var emergency: bool
    var mainthread: Ref
    var running: Ref
    var globals: seq<Ref>
    var sharing: set<(Ref, Ref)>

    ghost function Snapshot(): State
      reads this
    {
      State(heap, gcstate, currentwhite, allgc, finobj, tobefnz, fixedgc, gray, grayagain, sweepgc, emergency,
            mainthread, running, globals, sharing)
    }

    constructor (registry: Ref, thread: Ref)
      requires registry != thread
      ensures Snapshot() == InitialState(registry, thread) && Inv(Snapshot())
    {
      heap := map[thread := Obj(Thread, White(false), false, None, []),
                  registry := Obj(Table, White(false), false, None, [])];
      gcstate, currentwhite, sweepgc, emergency := Pause, false, NoCursor, false;
      allgc, finobj, tobefnz, fixedgc, gray, grayagain := [registry], [], [], [], [], [];
      mainthread, running, globals, sharing := thread, thread, [registry], {};
      new;
      InitialInv(registry, thread);
    }

    method Paint(x: Ref, c: Colour)
      requires x in heap
      modifies this`heap
      ensures Snapshot() == SetColour(old(Snapshot()), x, c)
    {
      heap := heap[x := heap[x].(colour := c)];
    }

    // ---------- marking ----------

    /** markobject (lgc.c:86). */
    method MarkObject(r: Ref)
      requires Closed(Snapshot()) && r in heap
      modifies this`heap, this`gray
      ensures Snapshot() == LuaHeap.MarkObject(old(Snapshot()), r)
      decreases |WhiteSet(Snapshot())|, 2, 0
    {
      if heap[r].colour.White? {
        ReallyMarkObject(r);
      }
    }

    /** reallymarkobject (lgc.c:235-283). */
    method ReallyMarkObject(o: Ref)
      requires Closed(Snapshot()) && IsWhite(Snapshot(), o)
      modifies this`heap, this`gray
      ensures Snapshot() == LuaHeap.ReallyMarkObject(old(Snapshot()), o)
      decreases |WhiteSet(Snapshot())|, 1, 0
    {
      if heap[o].kind == Str {
        Paint(o, Black);
      } else {
        ColourMarks(Snapshot(), o, Gray);
        Paint(o, Gray);
        if heap[o].kind == Userdata {
          VisitUserdata(o);
        } else {
          gray := [o] + gray;
        }
      }
    }

    /** The case LUA_TUSERDATA of reallymarkobject. */
    method VisitUserdata(o: Ref)
      requires Closed(Snapshot()) && o in heap && heap[o].colour.Gray?
      modifies this`heap, this`gray
      ensures Snapshot() == MarkUserdata(old(Snapshot()), o)
      decreases |WhiteSet(Snapshot())|, 4, 0
    {
      var obj := heap[o];
      OutParts(Snapshot(), o);
      MarkAll(obj.MetaRefs());
      Touched(old(Snapshot()), Snapshot(), o);
      Paint(o, Black);
      MarkAll(obj.refs);
    }

    /** A run of markvalue / markobject over the fields of an object, or over a list. */
    method MarkAll(l: seq<Ref>)
      requires Closed(Snapshot()) && AllIn(Snapshot(), l)
      modifies this`heap, this`gray
      ensures Snapshot() == MarkList(old(Snapshot()), l)
      decreases |WhiteSet(Snapshot())|, 3, |l|
    {
      ghost var s := Snapshot();
      ghost var whites := |WhiteSet(s)|;
      var i := 0;
      while i < |l|
        invariant 0 <= i <= |l|
        invariant Marked(s, Snapshot()) && AllIn(Snapshot(), l[i..])
        invariant MarkList(Snapshot(), l[i..]) == MarkList(s, l)
      {
        assert l[i] in l[i..] && l[i..][0] == l[i] && l[i..][1..] == l[i + 1..];
        ghost var s1 := Snapshot();
        MarkObject(l[i]);
        MarkedTrans(s, s1, Snapshot());
        i := i + 1;
      }
      assert l[|l|..] == [];
    }

    /** propagatemark up to its switch: the object leaves `gray` (lgc.c:561-567). */
    method TakeFirstGray() returns (o: Ref)
      requires gray != [] && gray[0] in heap
      modifies this`heap, this`gray, this`grayagain
      ensures Snapshot() == TakeGray(old(Snapshot())) && o == old(gray)[0]
    {
      o := gray[0];
      Paint(o, Black);
      gray := gray[1..];
      if heap[o].kind == Thread {
        grayagain := [o] + grayagain;
        Paint(o, Gray);
      }
    }

    /** propagatemark (lgc.c:559-600). */
    method PropagateMark()
      requires Closed(Snapshot()) && AllIn(Snapshot(), gray) && gray != [] && gray[0] in heap
      requires heap[gray[0]].colour.Gray?
      modifies this`heap, this`gray, this`grayagain
      ensures Snapshot() == LuaHeap.PropagateMark(old(Snapshot()))
    {
      TakeGrayFacts(Snapshot());
      var o := TakeFirstGray();
      MarkAll(heap[o].Out());
    }

    /** propagateall (lgc.c:603-605). */
    method PropagateAll()
      requires Closed(Snapshot()) && GrayList(Snapshot(), gray)
      modifies this`heap, this`gray, this`grayagain
      ensures Snapshot() == LuaTricolour.PropagateAll(old(Snapshot()))
    {
      while gray != []
        invariant Closed(Snapshot()) && GrayList(Snapshot(), gray)
        invariant LuaTricolour.PropagateAll(Snapshot()) == LuaTricolour.PropagateAll(old(Snapshot()))
        decreases Work(Snapshot())
      {
        PropagateMarkGray(Snapshot());
        PropagateMark();
      }
    }

    /** restartcollection (lgc.c:337-344). */
    method RestartCollection()
      requires Closed(Snapshot()) && AllIn(Snapshot(), RootList(Snapshot()))
      modifies this`heap, this`gray, this`grayagain
      ensures Snapshot() == LuaCollector.RestartCollection(old(Snapshot()))
    {
      gray, grayagain := [], [];
      GrewClosed(old(Snapshot()), Snapshot());
      MarkAll([mainthread] + globals + tobefnz);
    }

    /** separatetobefnz (lgc.c:877-892). */
    method SeparateToBeFnz()
      requires AllIn(Snapshot(), finobj)
      modifies this`finobj, this`tobefnz
      ensures Snapshot() == LuaCollector.SeparateToBeFnz(old(Snapshot()))
    {
      var kept, moved := Separate(heap, finobj, tobefnz);
      finobj, tobefnz := kept, moved;
    }

    /** atomic (lgc.c:979-1023), without weak tables. */
    method Atomic()
      requires AtomicReady(Snapshot())
      modifies this`heap, this`gray, this`grayagain, this`finobj, this`tobefnz, this`currentwhite
      ensures Snapshot() == AtomicStep(old(Snapshot()))
    {
      MarkStronglyReachable();
      MarkForFinalizers();
      currentwhite := !currentwhite;
    }

    /** atomic up to lgc.c:994: roots that changed without a barrier. */
    method MarkChangedRoots()
      requires AtomicReady(Snapshot())
      modifies this`heap, this`gray, this`grayagain
      ensures Snapshot() == MarkChanged(old(Snapshot()))
    {
      MarkListShape(Snapshot(), [running] + globals);
      MarkAll([running] + globals);
      PropagateAll();
    }

    /** atomic up to lgc.c:1000. */
    method MarkStronglyReachable()
      requires AtomicReady(Snapshot())
      modifies this`heap, this`gray, this`grayagain
      ensures Snapshot() == MarkStrong(old(Snapshot()))
    {
      ghost var s := Snapshot();
      var again := grayagain;
      MarkChangedRoots();
      gray := again;
      assert Snapshot() == MarkAgain(s);
      PropagateAll();
    }

    method MarkForFinalizers()
      requires Closed(Snapshot()) && gray == [] && AllIn(Snapshot(), finobj) && AllIn(Snapshot(), tobefnz)
      modifies this`heap, this`gray, this`grayagain, this`finobj, this`tobefnz
      ensures Snapshot() == MarkResurrected(old(Snapshot()))
    {
      ghost var s := Snapshot();
      SeparateToBeFnz();
      GrewClosed(s, Snapshot());
      MarkListShape(Snapshot(), tobefnz);
      MarkAll(tobefnz);
      PropagateAll();
    }

    // ---------- sweeping ----------

    /** sweeplist (lgc.c:734-751): sweep at most `count` objects of the list `pre + rest`, from
        `rest` on; returns the list that is left and where to go on. */
    method SweepList(pre: seq<Ref>, rest: seq<Ref>, count: nat) returns (l: seq<Ref>, p: Cursor)
      requires NoDup(rest) && AllIn(Snapshot(), rest)
      modifies this`heap
      ensures var r := LuaCollector.SweepList(old(heap), currentwhite, pre, rest, count);
        heap == r.heap && l == r.pre + r.rest && p == CursorAt(r.pre, r.rest)
    {
      var before, ahead, n := pre, rest, count;
      while ahead != [] && n > 0
        invariant NoDup(ahead) && AllIn(Snapshot(), ahead)
        invariant LuaCollector.SweepList(heap, currentwhite, before, ahead, n)
               == LuaCollector.SweepList(old(heap), currentwhite, pre, rest, count)
        decreases |ahead|
      {
        var curr := ahead[0];
        NoDupHead(ahead);
        if heap[curr].colour == White(!currentwhite) {
          heap := heap - {curr};
        } else {
          heap := heap[curr := heap[curr].(colour := White(currentwhite))];
          before := before + [curr];
        }
        ahead := ahead[1..];
        n := n - 1;
      }
      l, p := before + ahead, CursorAt(before, ahead);
    }

    /** One call of sweeplist on the current list (lgc.c:1030 and 960). */
    method SweepFromCursor(count: nat)
      requires NoDup(Ahead(SweepTarget(Snapshot()), sweepgc))
               && AllIn(Snapshot(), Ahead(SweepTarget(Snapshot()), sweepgc))
      requires Sweeping?(gcstate)
      modifies this`heap, this`sweepgc, this`allgc, this`finobj, this`tobefnz
      ensures Snapshot() == SweepSome(old(Snapshot()), count)
    {
      var list := if gcstate == SwpAllGc then allgc else if gcstate == SwpFinObj then finobj else tobefnz;
      var l, p := SweepList(Passed(list, sweepgc), Ahead(list, sweepgc), count);
      sweepgc := p;
      if gcstate == SwpAllGc {
        allgc := l;
      } else if gcstate == SwpFinObj {
        finobj := l;
      } else {
        tobefnz := l;
      }
    }

    /** sweepstep (lgc.c:1026-1039). */
    method SweepStep(next: GCState, cursor: Cursor)
      requires NoDup(Ahead(SweepTarget(Snapshot()), sweepgc))
               && AllIn(Snapshot(), Ahead(SweepTarget(Snapshot()), sweepgc))
      requires Sweeping?(gcstate)
      modifies this`heap, this`sweepgc, this`allgc, this`finobj, this`tobefnz, this`gcstate
      ensures Snapshot() == LuaCollector.SweepStep(old(Snapshot()), next, cursor)
    {
      SweepStepParts(Snapshot(), next, cursor);
      if sweepgc != NoCursor {
        SweepFromCursor(GCSWEEPMAX);
      }
      if sweepgc == NoCursor {
        gcstate, sweepgc := next, cursor;
      }
    }

    /** entersweep (lgc.c:956-961). */
    method EnterSweep()
      requires NoDup(allgc) && AllIn(Snapshot(), allgc)
      modifies this`heap, this`sweepgc, this`allgc, this`finobj, this`tobefnz, this`gcstate
      ensures Snapshot() == LuaCollector.EnterSweep(old(Snapshot()))
    {
      gcstate, sweepgc := SwpAllGc, Header;
      SweepFromCursor(1);
    }

    // ---------- singlestep and full collections ----------

    /** udata2finalize and the push in GCTM (lgc.c:787-797, 806-825). */
    method CallFinalizer()
      requires tobefnz != [] && tobefnz[0] in heap && running in heap
      modifies this`heap, this`tobefnz, this`allgc
      ensures Snapshot() == LuaCollector.CallFinalizer(old(Snapshot()))
    {
      var o := tobefnz[0];
      Udata2Finalize(o);
      heap := heap[running := heap[running].(refs := heap[running].refs + [o])];
    }

    method Udata2Finalize(o: Ref)
      requires tobefnz != [] && o == tobefnz[0] && o in heap
      modifies this`heap, this`tobefnz, this`allgc
      ensures Snapshot() == Unlinked(old(Snapshot()))
    {
      tobefnz := tobefnz[1..];
      allgc := [o] + allgc;
      heap := heap[o := heap[o].(finalized := false)];
      if IsSweepPhase(gcstate) {
        Paint(o, White(currentwhite));
      }
    }

    /** singlestep (lgc.c:1042-1094). */
    method SingleStep()
      requires StepReady(Snapshot())
      modifies this
      ensures Snapshot() == LuaCollector.SingleStep(old(Snapshot()))
    {
      match gcstate {
        case Pause =>
          RestartCollection();
          gcstate := Propagate;
        case Propagate => PropagateStep();
        case Atomic => AtomicThenSweep();
        case SwpAllGc => SweepStep(SwpFinObj, Header);
        case SwpFinObj => SweepStep(SwpToBeFnz, Header);
        case SwpToBeFnz => SweepToBeFnz();
        case SwpEnd =>
          Paint(mainthread, White(currentwhite));
          gcstate := CallFin;
        case CallFin =>
          if tobefnz != [] && !emergency {
            CallFinalizer();
          } else {
            gcstate := Pause;
          }
      }
    }

    /** The list that sweepstep sweeps is the one that the pointer leads into. */
    /** The same when the cursor has been lost: it leads into `allgc`. */
    method SweepAway()
      requires Lost(Snapshot()) && NoDup(Ahead(allgc, sweepgc)) && AllIn(Snapshot(), Ahead(allgc, sweepgc))
      modifies this`heap, this`sweepgc, this`allgc, this`finobj, this`tobefnz, this`gcstate
      ensures Snapshot() == LuaCollector.SweepAway(old(Snapshot()))
    {
      gcstate := SwpAllGc;
      SweepStep(SwpEnd, NoCursor);
      if gcstate == SwpAllGc {
        gcstate := SwpToBeFnz;
      }
    }

    method SweepToBeFnz()
      requires StepReady(Snapshot()) && gcstate == SwpToBeFnz
      modifies this`heap, this`sweepgc, this`allgc, this`finobj, this`tobefnz, this`gcstate
      ensures Snapshot() == LuaCollector.SingleStep(old(Snapshot()))
    {
      if sweepgc.After? && sweepgc.o !in tobefnz {
        SweepAway();
      } else {
        SweepingStep(Snapshot());
        SweepStep(SwpEnd, NoCursor);
      }
    }

    method PropagateStep()
      requires StepReady(Snapshot()) && gcstate == Propagate
      modifies this
      ensures Snapshot() == LuaCollector.SingleStep(old(Snapshot()))
    {
      PropagateMarkGray(Snapshot());
      PropagateMark();
      if gray == [] {
        gcstate := GCState.Atomic;
      }
    }

    method AtomicThenSweep()
      requires StepReady(Snapshot()) && gcstate == GCState.Atomic
      modifies this
      ensures Snapshot() == LuaCollector.SingleStep(old(Snapshot()))
    {
      PropagateAll();
      AtomicFrame(Snapshot());
      Atomic();
      EnterSweep();
    }

    /** luaC_runtilstate (lgc.c:1101-1105). */
    method RunUntil(stop: set<GCState>)
      requires Inv(Snapshot()) && CanStop(stop)
      modifies this
      ensures Snapshot() == LuaFullGc.RunUntil(old(Snapshot()), stop) && Inv(Snapshot())
    {
      while gcstate !in stop
        invariant Inv(Snapshot())
        invariant LuaFullGc.RunUntil(Snapshot(), stop) == LuaFullGc.RunUntil(old(Snapshot()), stop)
        decreases Left(Snapshot(), stop).0, Left(Snapshot(), stop).1
      {
        Advance(Snapshot(), stop);
        SingleStep();
      }
    }

    /** luaC_fullgc (lgc.c:1156-1172). */
    method FullGc(isemergency: bool)
      requires Inv(Snapshot())
      modifies this
      ensures Snapshot() == LuaComplete.FullGc(old(Snapshot()), isemergency)
    {
      FullCycle(isemergency);
      SetEmergency(false);
    }

    method SetEmergency(on: bool)
      modifies this`emergency
      ensures Snapshot() == old(Snapshot()).(emergency := on)
    {
      emergency := on;
    }

    /** luaC_fullgc, lgc.c:1158-1169. */
    method FullCycle(isemergency: bool)
      requires Inv(Snapshot())
      modifies this
      ensures Snapshot() == LuaComplete.FullCycle(Prepare(old(Snapshot()), isemergency))
    {
      ClearMarks(isemergency);
      RunUntil({Pause});
      NewCycle();
      RunUntil({Pause});
    }

    /** luaC_fullgc, lgc.c:1165-1166: one new cycle, up to the finalizers. */
    method NewCycle()
      requires Inv(Snapshot())
      modifies this
      ensures Snapshot() == LuaFullGc.RunUntil(LuaFullGc.RunUntil(old(Snapshot()), NotPause), {CallFin})
      ensures Inv(Snapshot())
    {
      RunUntil(NotPause);
      RunUntil({CallFin});
    }

    /** The beginning of luaC_fullgc: sweep at once if there may be black objects. */
    method ClearMarks(isemergency: bool)
      requires Inv(Snapshot())
      modifies this
      ensures Snapshot() == Prepare(old(Snapshot()), isemergency) && Inv(Snapshot())
    {
      EmergencyInv(Snapshot(), isemergency);
      emergency := isemergency;
      if KeepInvariant(gcstate) {
        StartFullGcInv(Snapshot());
        EnterSweep();
      }
    }

    // ---------- what the program calls ----------

    /** luaC_newobj (lgc.c:208-216), and the push of the new object. */
    method NewObject(r: Ref, kind: Kind, meta: Option<Ref>, refs: seq<Ref>)
      requires Inv(Snapshot()) && NewOk(Snapshot(), r, kind, meta, refs)
      modifies this`heap, this`allgc
      ensures old(running) in old(heap) && Snapshot() == LuaMutator.NewObject(old(Snapshot()), r, kind, meta, refs)
      ensures Inv(Snapshot())
    {
      NewObjectInv(Snapshot(), r, kind, meta, refs);
      heap := heap[r := Obj(kind, White(currentwhite), false, meta, refs)];
      allgc := [r] + allgc;
      heap := heap[running := heap[running].(refs := heap[running].refs + [r])];
    }

    /** A store followed by luaC_barrier or luaC_barrierback (lgc.h:118-128). */
    method Store(p: Ref, meta: Option<Ref>, refs: seq<Ref>, v: Option<Ref>, back: bool)
      requires Inv(Snapshot()) && StoreOk(Snapshot(), p, meta, refs, v, back)
      modifies this`heap, this`gray, this`grayagain
      ensures StoreReady(old(Snapshot()), p, meta, refs)
      ensures Snapshot() == LuaMutator.Store(old(Snapshot()), p, meta, refs, v, back) && Inv(Snapshot())
    {
      StoreInv(Snapshot(), p, meta, refs, v, back);
      StoreAndBarrier(p, meta, refs, v, back);
    }

    method StoreAndBarrier(p: Ref, meta: Option<Ref>, refs: seq<Ref>, v: Option<Ref>, back: bool)
      requires StoreReady(Snapshot(), p, meta, refs)
      modifies this`heap, this`gray, this`grayagain
      ensures Snapshot() == LuaMutator.Store(old(Snapshot()), p, meta, refs, v, back)
    {
      heap := heap[p := heap[p].(meta := meta, refs := refs)];
      if v.Some? && heap[p].colour.Black? && v.value in heap && heap[v.value].colour.White? {
        if back {
          BarrierBack(p);
        } else {
          Barrier(p, v.value);
        }
      }
    }

    /** luaC_barrier_ (lgc.c:155-164). */
    method Barrier(o: Ref, v: Ref)
      requires o in heap && IsWhite(Snapshot(), v) && (KeepInvariant(gcstate) ==> Closed(Snapshot()))
      modifies this`heap, this`gray
      ensures Snapshot() == BarrierForward(old(Snapshot()), o, v)
    {
      if KeepInvariant(gcstate) {
        ReallyMarkObject(v);
      } else {
        Paint(o, White(currentwhite));
      }
    }

    /** luaC_barrierback_ (lgc.c:171-176). */
    method BarrierBack(t: Ref)
      requires t in heap
      modifies this`heap, this`grayagain
      ensures Snapshot() == LuaMutator.BarrierBack(old(Snapshot()), t)
    {
      Paint(t, Gray);
      grayagain := [t] + grayagain;
    }

    /** sweeptolive (lgc.c:757-763). */
    method SweepToLive()
      requires Base(Snapshot()) && SweepPhase(Snapshot()) && gcstate == SwpAllGc && sweepgc != NoCursor
      modifies this`heap, this`sweepgc, this`allgc, this`finobj, this`tobefnz
      ensures Snapshot() == LuaFinalize.SweepToLive(old(Snapshot()))
    {
      var p, again := sweepgc, true;
      while again
        invariant again ==>
          gcstate == SwpAllGc && Base(Snapshot()) && SweepPhase(Snapshot()) && sweepgc == p != NoCursor
        invariant (if again then LuaFinalize.SweepToLive(Snapshot()) else Snapshot())
               == LuaFinalize.SweepToLive(old(Snapshot()))
        decreases again, |Ahead(allgc, p)|
      {
        SweepOne(Snapshot());
        SweepFromCursor(1);
        again := sweepgc == p;
      }
    }

    /** luaC_checkfinalizer (lgc.c:899-918) for a metatable with a __gc field. */
    method CheckFinalizer(o: Ref)
      requires CheckReady(Snapshot(), o)
      modifies this`heap, this`sweepgc, this`allgc, this`finobj, this`tobefnz, this`gcstate
      ensures Snapshot() == LuaFinalize.CheckFinalizer(old(Snapshot()), o)
    {
      if !heap[o].finalized {
        if IsSweepPhase(gcstate) {
          SweepObject(o);
        }
        MoveToFinobj(o);
      }
    }

    /** luaC_checkfinalizer while sweeping: no cursor may stay in `o` (lgc.c:906-910). */
    method SweepObject(o: Ref)
      requires CheckReady(Snapshot(), o) && !heap[o].finalized && IsSweepPhase(gcstate)
      modifies this`heap, this`sweepgc, this`allgc, this`finobj, this`tobefnz, this`gcstate
      ensures Snapshot() == LuaFinalize.SweepObject(old(Snapshot()), o)
    {
      ghost var s := Snapshot();
      Paint(o, White(currentwhite));
      if sweepgc == After(o) {
        // the pointer leads into `allgc`, whatever the phase
        var phase := gcstate;
        gcstate := SwpAllGc;
        assert Snapshot() == SweptHere(s, o);
        SweepToLive();
        gcstate := phase;
      }
    }

    method MoveToFinobj(o: Ref)
      requires o in heap
      modifies this`heap, this`allgc, this`finobj
      ensures Snapshot() == LuaFinalize.MoveToFinobj(old(Snapshot()), o)
    {
      var l := Unlink(allgc, o);
      allgc := l;
      finobj := [o] + finobj;
      heap := heap[o := heap[o].(finalized := true)];
    }
  }

  lemma Append(a: seq<Ref>, b: seq<Ref>, c: seq<Ref>)
    ensures a + (b + c) == (a + b) + c
  {
  }

  lemma FilterStep(h: map<Ref, Obj>, l: seq<Ref>, kept: seq<Ref>, moved: seq<Ref>)
    requires l != [] && forall x :: x in l ==> x in h
    ensures forall x :: x in l[1..] ==> x in h
    ensures var kept', moved' := if h[l[0]].colour.White? then kept else kept + [l[0]],
                                 if h[l[0]].colour.White? then moved + [l[0]] else moved;
      && kept + NonWhites(h, l) == kept' + NonWhites(h, l[1..])
      && moved + Whites(h, l) == moved' + Whites(h, l[1..])
  {
    if h[l[0]].colour.White? {
      assert Whites(h, l) == [l[0]] + Whites(h, l[1..]) && NonWhites(h, l) == NonWhites(h, l[1..]);
      Append(moved, [l[0]], Whites(h, l[1..]));
    } else {
      assert NonWhites(h, l) == [l[0]] + NonWhites(h, l[1..]) && Whites(h, l) == Whites(h, l[1..]);
      Append(kept, [l[0]], NonWhites(h, l[1..]));
    }
  }

  /** The loop of separatetobefnz: white objects of `l` go to the end of `last`, in order. */
  method Separate(h: map<Ref, Obj>, l: seq<Ref>, last: seq<Ref>) returns (kept: seq<Ref>, moved: seq<Ref>)
    requires forall x :: x in l ==> x in h
    ensures kept == NonWhites(h, l) && moved == last + Whites(h, l)
  {
    var p := l;
    kept, moved := [], last;
    while p != []
      invariant forall x :: x in p ==> x in h
      invariant kept + NonWhites(h, p) == NonWhites(h, l)
      invariant moved + Whites(h, p) == last + Whites(h, l)
      decreases |p|
    {
      FilterStep(h, p, kept, moved);
      if h[p[0]].colour.White? {
        moved := moved + [p[0]];
      } else {
        kept := kept + [p[0]];
      }
      p := p[1..];
    }
  }

  /** The search for the pointer to `o` in `allgc`, and its removal (lgc.c:912-913). */
  method Unlink(l: seq<Ref>, o: Ref) returns (r: seq<Ref>)
    ensures r == RemoveOne(l, o)
  {
    var p, before := l, [];
    while p != [] && p[0] != o
      invariant before + RemoveOne(p, o) == RemoveOne(l, o)
      decreases |p|
    {
      Append(before, [p[0]], RemoveOne(p[1..], o));
      before := before + [p[0]];
      p := p[1..];
    }
    r := before + (if p == [] then [] else p[1..]);
  }

  lemma NoDupHead(l: seq<Ref>)
    requires NoDup(l) && l != []
    ensures NoDup(l[1..]) && l[0] !in l[1..]
  {
    assert [l[0]] + l[1..] == l;
    NoDupConcat([l[0]], l[1..]);
  }
}
