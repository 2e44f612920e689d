/** What every other loss of the sweep cursor costs.  From the state it leads to, the program and the
    collector can go on to a state before the next cycle in which a stale object has the only reference
    to another one: the program takes hold of all it can get, and drops everything else. */
module LuaHarmfulLoss {
  import opened LuaHeap
  import opened LuaCollector
  import opened LuaFinalize
  import opened LuaSafety
  import opened LuaFullGc
  import opened LuaLostCursor
  import opened LuaKept
  import opened LuaQuietLoss
  import opened LuaPace

  /** A step of the collector, and the measure of luaC_runtilstate. */
  lemma StepOn(s: Start, t: State)
    requires Leads(s, t) && Lists(t) && StepReady(t) && t.gcstate != CallFin
    ensures Leads(s, SingleStep(t))
    ensures var a, b := Left(SingleStep(t), {CallFin}), Left(t, {CallFin}); a.0 < b.0 || (a.0 == b.0 && a.1 < b.1)
  {
    LeadsOn(s, t, Collect);
    AdvanceLeft(t, {CallFin});
  }

  lemma NotTwice(s: State)
    requires LostInv(s)
    ensures !LosesCursor(s)
  {
  }

  // ---------- all finalizers are called ----------

  /** From `s` to `t` objects keep their references, and their colours but for the main thread; the stack
      of the running thread grows. */
  ghost predicate SameObjects(s: State, t: State) {
    && t == s.(heap := t.heap, gcstate := t.gcstate, sweepgc := t.sweepgc, allgc := t.allgc, tobefnz := t.tobefnz)
    && t.heap.Keys == s.heap.Keys && s.running in s.heap && s.heap[s.running].kind == Thread
    && (forall x :: x in s.heap ==>
          SameObject(s.heap[x], t.heap[x]) && (x != s.running ==> SameRefsOf(s.heap[x], t.heap[x])))
    && (forall x :: Stale(t, x) ==> Stale(s, x))
  }

  predicate SameObject(a: Obj, b: Obj) {
    && b.kind == a.kind
    && (a.kind != Thread ==> b == a.(finalized := b.finalized))
    && (forall y :: y in a.Out() ==> y in b.Out())
  }

  lemma SameTrans(s: State, t: State, u: State)
    requires SameObjects(s, t) && SameObjects(t, u)
    ensures SameObjects(s, u)
  {
    forall x | x in s.heap
      ensures SameObject(s.heap[x], u.heap[x]) && (x != s.running ==> SameRefsOf(s.heap[x], u.heap[x]))
    {
      assert SameObject(s.heap[x], t.heap[x]) && SameObject(t.heap[x], u.heap[x]);
    }
  }

  lemma SameMarksSame(s: State, t: State)
    requires SameMarks(s, t) && s.heap[s.mainthread].kind == Thread && s.running in s.heap
             && s.heap[s.running].kind == Thread
    ensures SameObjects(s, t) && t.tobefnz == s.tobefnz
  {
    SameStale(s, t);
    forall x | x in s.heap
      ensures SameObject(s.heap[x], t.heap[x]) && SameRefsOf(s.heap[x], t.heap[x])
    {
      assert t.heap[x].Out() == s.heap[x].Out();
    }
  }

  /** The sweep goes on. */
  lemma SweepOn(s0: Start, s: State)
    requires Leads(s0, s) && LostInv(s) && s.gcstate != CallFin && s.gcstate != Pause
    ensures StepReady(s) && Leads(s0, SingleStep(s)) && LostInv(SingleStep(s)) && SingleStep(s).gcstate != Pause
    ensures SameObjects(s, SingleStep(s)) && SingleStep(s).tobefnz == s.tobefnz
    ensures var a, b := Left(SingleStep(s), {CallFin}), Left(s, {CallFin}); a.0 < b.0 || (a.0 == b.0 && a.1 < b.1)
  {
    CollectLost(s);
    StepOn(s0, s);
    NotPaused(s);
    SameMarksSame(s, SingleStep(s));
  }

  /** The sweep comes to its end. */
  lemma {:induction false} ToCallFin(s0: Start, s: State) returns (t: State)
    requires Leads(s0, s) && LostInv(s) && s.gcstate != Pause
    ensures Leads(s0, t) && LostInv(t) && t.gcstate == CallFin && SameObjects(s, t) && t.tobefnz == s.tobefnz
    decreases Left(s, {CallFin}).0, Left(s, {CallFin}).1
  {
    if s.gcstate == CallFin {
      t := s;
      RunningIn(s);
    } else {
      SweepOn(s0, s);
      t := ToCallFin(s0, SingleStep(s));
      SameTrans(s, SingleStep(s), t);
    }
  }

  lemma NotPaused(s: State)
    requires LostInv(s) && StepReady(s) && s.gcstate != CallFin && s.gcstate != Pause
    ensures SingleStep(s).gcstate != Pause && s.heap[s.mainthread].kind == Thread
    ensures s.running in s.heap && s.heap[s.running].kind == Thread
  {
    StepProgress(s);
    RunningIn(s);
  }

  /** The remaining finalizers are called, and the objects end up on the stack. */
  lemma {:induction false} CallAll(s0: Start, s: State) returns (t: State)
    requires Leads(s0, s) && LostInv(s) && s.gcstate == CallFin && !s.emergency
    ensures Leads(s0, t) && LostInv(t) && t.gcstate == CallFin && t.tobefnz == [] && SameObjects(s, t)
    ensures forall x :: x in s.tobefnz ==> OnStack(t, x)
    decreases |s.tobefnz|
  {
    RunningIn(s);
    if s.tobefnz == [] {
      t := s;
    } else {
      CollectLost(s);
      LeadsOn(s0, s, Collect);
      var u := CallFinalizer(s);
      CalledSame(s);
      t := CallAll(s0, u);
      SameTrans(s, u, t);
      assert SameObject(u.heap[u.running], t.heap[t.running]);
      forall x | x in s.tobefnz ensures OnStack(t, x) {
        assert x == s.tobefnz[0] || x in s.tobefnz[1..];
      }
    }
  }

  predicate OnStack(s: State, x: Ref) {
    s.running in s.heap && x in s.heap[s.running].Out()
  }

  lemma CalledSame(s: State)
    requires LostInv(s) && s.gcstate == CallFin && s.tobefnz != []
    requires s.tobefnz[0] in s.heap && s.running in s.heap
    requires forall x :: Stale(CallFinalizer(s), x) ==> Stale(s, x)
    ensures SameObjects(s, CallFinalizer(s)) && OnStack(CallFinalizer(s), s.tobefnz[0])
  {
    var t := CallFinalizer(s);
    assert s.heap[s.running].kind == Thread && s.tobefnz[0] != s.running;
    forall x | x in s.heap
      ensures SameObject(s.heap[x], t.heap[x]) && (x != s.running ==> SameRefsOf(s.heap[x], t.heap[x]))
    {
      if x != s.running { assert t.heap[x].Out() == s.heap[x].Out(); }
    }
  }

  lemma ToPauseState(s0: Start, s: State) returns (t: State)
    requires Leads(s0, s) && LostInv(s) && s.gcstate == CallFin && s.tobefnz == []
    ensures t == s.(gcstate := Pause) && Leads(s0, t) && LostInv(t)
  {
    CollectLost(s);
    LeadsOn(s0, s, Collect);
    t := SingleStep(s);
  }

  /** After the loss and all finalizers, before the next cycle. */
  ghost predicate Before(s: State) {
    LostInv(s) && s.gcstate == Pause && s.tobefnz == []
  }

  /** The cycle ends, and all finalizers are called. */
  lemma Drain(s0: Start, s: State) returns (t: State)
    requires Leads(s0, s) && LostInv(s) && s.gcstate != Pause && !s.emergency
    ensures Leads(s0, t) && Before(t) && SameObjects(s, t)
    ensures forall x :: x in s.tobefnz ==> OnStack(t, x)
  {
    var u := ToCallFin(s0, s);
    var v := CallAll(s0, u);
    t := ToPauseState(s0, v);
    SameTrans(s, u, v);
    SamePause(v);
    SameTrans(s, v, t);
  }

  lemma SamePause(s: State)
    requires s.running in s.heap && s.heap[s.running].kind == Thread
    ensures SameObjects(s, s.(gcstate := Pause))
  {
    assert forall x :: Stale(s.(gcstate := Pause), x) <==> Stale(s, x);
  }

  // ---------- what that leaves ----------

  /** From `s` to `p` nothing came out of reach, and no reference of other objects changed. */
  ghost predicate Unfolded(s: State, p: State) {
    && p.finobj == s.finobj && p.sharing == s.sharing && p.heap.Keys == s.heap.Keys && p.running == s.running
    && s.running in s.heap && s.heap[s.running].kind == Thread
    && (forall x :: x in s.heap ==>
          p.heap[x].kind == s.heap[x].kind && (x != s.running ==> SameRefsOf(s.heap[x], p.heap[x])))
    && (forall x :: Attainable(s, x) ==> Attainable(p, x))
  }

  lemma SolidBefore(s: State, p: State, z: Ref, w: Ref)
    requires Unfolded(s, p) && Solid(p, z, w)
    ensures Solid(s, z, w)
  {
    RootAttainable(p, p.running);
    assert z != s.running;
    assert p.heap[z].Out() == s.heap[z].Out() && p.heap[z].MetaRefs() == s.heap[z].MetaRefs();
  }

  lemma KeptBefore(s: State, p: State, y: Ref)
    requires Unfolded(s, p) && Kept(p, {}, y)
    ensures Kept(s, {}, y)
  {
    var q :| KeptPath(p, {}, q, y);
    forall i | 0 <= i < |q| - 1 ensures Solid(s, q[i], q[i + 1]) { SolidBefore(s, p, q[i], q[i + 1]); }
    assert KeptPath(s, {}, q, y);
  }

  ghost predicate RefsGrow(s: State, p: State) {
    forall x :: x in s.heap ==> x in p.heap && forall y :: y in s.heap[x].Out() ==> y in p.heap[x].Out()
  }

  lemma {:induction false} PathStays(s: State, p: State, q: seq<Ref>, i: nat)
    requires i < |q| && AttainRoot(s, q[0]) && Chain(s.heap, q) && RefsGrow(s, p)
    requires forall x :: AttainRoot(s, x) ==> Attainable(p, x)
    ensures Attainable(p, q[i])
  {
    if i > 0 {
      PathStays(s, p, q, i - 1);
      var z, w := q[i - 1], q[i - 1 + 1];
      assert z in s.heap && w in s.heap[z].Out();
      AttainOn(p, z, w);
    }
  }

  lemma AttainStays(s: State, p: State)
    requires RefsGrow(s, p) && forall x :: AttainRoot(s, x) ==> Attainable(p, x)
    ensures forall x :: Attainable(s, x) ==> Attainable(p, x)
  {
    forall x | Attainable(s, x) ensures Attainable(p, x) {
      var q :| AttainPath(s, q, x);
      PathStays(s, p, q, |q| - 1);
    }
  }

  lemma StackAttainable(s: State, x: Ref)
    requires OnStack(s, x)
    ensures Attainable(s, x)
  {
    RootAttainable(s, s.running);
    AttainOn(s, s.running, x);
  }

  /** The roots of the state before the loss can be attained after it. */
  lemma RootsStay(s: State, u: State, p: State)
    requires s.tobefnz != [] && s.tobefnz[0] in s.heap && s.running in s.heap
             && u == CallFinalizer(s).(emergency := false)
    requires SameObjects(u, p) && forall x :: x in u.tobefnz ==> OnStack(p, x)
    ensures forall x :: AttainRoot(s, x) ==> Attainable(p, x)
  {
    assert SameObject(u.heap[u.running], p.heap[p.running]);
    assert OnStack(u, s.tobefnz[0]);
    forall x | AttainRoot(s, x) ensures Attainable(p, x) {
      if x in s.tobefnz {
        assert x == s.tobefnz[0] || x in s.tobefnz[1..];
        StackAttainable(p, x);
      } else {
        RootAttainable(p, x);
      }
    }
  }

  lemma LossGrows(s: State, u: State, p: State)
    requires s.tobefnz != [] && s.tobefnz[0] in s.heap && s.running in s.heap
             && u == CallFinalizer(s).(emergency := false)
    requires SameObjects(u, p)
    ensures RefsGrow(s, p)
  {
    forall x | x in s.heap ensures forall y :: y in s.heap[x].Out() ==> y in p.heap[x].Out() {
      assert SameObject(u.heap[x], p.heap[x]);
      assert forall y :: y in s.heap[x].Out() ==> y in u.heap[x].Out();
    }
  }

  lemma LossUnfolded(s: State, u: State, p: State)
    requires s.tobefnz != [] && s.tobefnz[0] in s.heap && s.running in s.heap
             && u == CallFinalizer(s).(emergency := false)
    requires s.heap[s.running].kind == Thread
    requires SameObjects(u, p) && forall x :: x in u.tobefnz ==> OnStack(p, x)
    ensures Unfolded(s, p)
  {
    RootsStay(s, u, p);
    LossGrows(s, u, p);
    AttainStays(s, p);
    forall x | x in s.heap
      ensures p.heap[x].kind == s.heap[x].kind && (x != s.running ==> SameRefsOf(s.heap[x], p.heap[x]))
    {
      assert SameObject(u.heap[x], p.heap[x]);
    }
  }

  /** A stale object that the program can attain. */
  ghost predicate Stranded(s: State, x: Ref) {
    Stale(s, x) && Attainable(s, x) && Finalizable(s.heap[x].kind)
  }

  /** The pace right after a finalizer has returned. */
  predicate Resting(p: Pace) {
    !p.stepping
  }

  /** Exactly the objects left behind are stale when the cycle is over. */
  lemma Strand(s: State, p: Pace) returns (t: State)
    requires Inv(s) && LosesCursor(s) && Resting(p)
    ensures s.tobefnz[0] in s.heap && s.running in s.heap
    ensures Leads(Start(CallFinalizer(s), p), t) && Before(t) && Unfolded(s, t)
    ensures t.fixedgc == s.fixedgc && t.mainthread == s.mainthread
    ensures forall x :: Stale(t, x) ==> LeftBehind(s, x)
    ensures forall x :: LeftBehind(s, x) ==> Stranded(t, x) && t.heap[x] == s.heap[x].(finalized := t.heap[x].finalized)
  {
    LossLost(s);
    RunningIn(s);
    var u := CalmDown(s, p);
    t := Drain(Start(CallFinalizer(s), p), u);
    LossUnfolded(s, u, t);
    forall x | LeftBehind(s, x)
      ensures Stranded(t, x) && t.heap[x] == s.heap[x].(finalized := t.heap[x].finalized)
    {
      LeftSame(s, u, t, x);
    }
  }

  /** Finalizers are called, so this is no emergency. */
  lemma CalmDown(s: State, p: Pace) returns (u: State)
    requires s.tobefnz != [] && s.tobefnz[0] in s.heap && s.running in s.heap && LostInv(CallFinalizer(s)) && Resting(p)
    ensures u == CallFinalizer(s).(emergency := false) && LostInv(u) && Leads(Start(CallFinalizer(s), p), u)
    ensures forall x :: Stale(u, x) <==> Stale(CallFinalizer(s), x)
  {
    var s0 := Start(CallFinalizer(s), p);
    LeadsHere(s0);
    EmergencyLost(s0.state, false);
    LeadsWithOn(s0, s0.state, p, SetEmergency(false));
    u := s0.state.(emergency := false);
  }

  lemma LeftSame(s: State, u: State, w: State, x: Ref)
    requires Inv(s) && LosesCursor(s) && LeftBehind(s, x) && s.tobefnz[0] in s.heap && s.running in s.heap
    requires u == CallFinalizer(s).(emergency := false) && Stale(u, x) && SameObjects(u, w) && OnStack(w, x)
    ensures Stranded(w, x) && w.heap[x] == s.heap[x].(finalized := w.heap[x].finalized)
  {
    assert x in s.tobefnz[1..] && x in s.tobefnz && s.heap[s.running].kind == Thread;
    HeadOff(s.tobefnz);
    assert SameObject(u.heap[x], w.heap[x]);
    StackAttainable(w, x);
    assert CurrentWhite(w, x) <==> CurrentWhite(u, x);
  }
}
