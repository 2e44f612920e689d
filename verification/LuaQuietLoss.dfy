/** The losses of the sweep cursor that cost nothing.  Black userdata were left behind, and whatever
    they point to lives without them: then the next cycle, which does not visit them, misses nothing,
    and its atomic step brings the invariant back. */
module LuaQuietLoss {
  import opened Wrappers
  import opened LuaHeap
  import opened LuaCollector
  import opened LuaMutator
  import opened LuaFinalize
  import opened LuaSafety
  import opened LuaLostCursor
  import opened LuaKept

  /** Nothing can make `y` disappear while `x` is there, which is one of the objects `b`. */
  ghost predicate Sheltered(s: State, b: set<Ref>, x: Ref, y: Ref) {
    y == x || y == s.mainthread || y in s.fixedgc || Kept(s, b, y)
  }

  ghost predicate Harmless(s: State, b: set<Ref>, x: Ref) {
    && x in s.heap && s.heap[x].kind == Userdata && s.heap[x].colour.Black?
    && forall y :: y in s.heap[x].Out() ==> Sheltered(s, b, x, y)
  }

  ghost predicate OthersKept(s: State, b: set<Ref>) {
    forall x, y :: x in b && y in b && x != y ==> Kept(s, b, y)
  }

  /** An object that a loss of the cursor leaves behind. */
  predicate LeftBehind(s: State, x: Ref) {
    s.tobefnz != [] && x in s.tobefnz[1..] && !CurrentWhite(s, x)
  }

  /** The condition under which losing the cursor costs nothing: black userdata only are left behind,
      with references to themselves and to what lives anyway, and if there are two of them, both do. */
  ghost predicate HarmlessLoss(s: State) {
    && (forall x :: LeftBehind(s, x) ==> Harmless(s, {}, x))
    && (forall x, y :: LeftBehind(s, x) && LeftBehind(s, y) && x != y ==> Kept(s, {}, y))
  }

  ghost function StaleSet(s: State): set<Ref> {
    set x | x in s.heap && Stale(s, x)
  }

  /** The cursor was lost, and only objects of `b` are stale. */
  ghost predicate QuietLoss(s: State, b: set<Ref>) {
    LostInv(s) && OthersKept(s, b) && forall x :: Stale(s, x) ==> x in b && Harmless(s, b, x)
  }

  // ---------- the loss ----------

  /** The references of objects in `tobefnz` can be dropped. */
  lemma NotSolid(s: State, z: Ref, w: Ref)
    requires Lists(s) && z in s.tobefnz
    ensures !Solid(s, z, w)
  {
    RootAttainable(s, z);
  }

  lemma KeptAround(s: State, b: set<Ref>, y: Ref)
    requires Lists(s) && Kept(s, {}, y) && forall x :: x in b ==> x in s.tobefnz
    ensures Kept(s, b, y)
  {
    var p :| KeptPath(s, {}, p, y);
    forall i | 0 <= i < |p| - 1 ensures p[i] !in b {
      if p[i] in b { NotSolid(s, p[i], p[i + 1]); }
    }
    assert KeptPath(s, b, p, y);
  }

  lemma HarmlessAround(s: State, b: set<Ref>, x: Ref)
    requires Lists(s) && Harmless(s, {}, x) && forall z :: z in b ==> z in s.tobefnz
    ensures Harmless(s, b, x)
  {
    forall y | y in s.heap[x].Out() ensures Sheltered(s, b, x, y) {
      assert Sheltered(s, {}, x, y);
      if Kept(s, {}, y) { KeptAround(s, b, y); }
    }
  }

  lemma LossQuiet(s: State) returns (b: set<Ref>)
    requires Inv(s) && LosesCursor(s) && HarmlessLoss(s)
    ensures s.tobefnz[0] in s.heap && s.running in s.heap && QuietLoss(CallFinalizer(s), b)
  {
    LossLost(s);
    RunningIn(s);
    FinalizerFenced(s);
    var t := CallFinalizer(s);
    b := StaleSet(t);
    LeftIsQuiet(s, t, b);
    forall x | Stale(t, x) ensures Harmless(t, b, x) { FinalizerHarmless(s, b, x); }
  }

  /** What was left behind is kept around itself. */
  lemma LeftIsQuiet(s: State, t: State, b: set<Ref>)
    requires Lists(s) && HarmlessLoss(s) && Fenced(s, t) && forall x :: x in b ==> LeftBehind(s, x)
    ensures OthersKept(t, b) && forall x :: x in b ==> Harmless(s, b, x)
  {
    assert forall x :: x in b ==> x in s.tobefnz;
    forall x, y | x in b && y in b && x != y ensures Kept(t, b, y) {
      KeptAround(s, b, y);
      FencedKept(s, t, b, b, y);
    }
    forall x | x in b ensures Harmless(s, b, x) { HarmlessAround(s, b, x); }
  }

  // ---------- up to the end of the pause ----------

  lemma FencedOthers(s: State, t: State, b: set<Ref>)
    requires Fenced(s, t) && OthersKept(s, b)
    ensures OthersKept(t, b)
  {
    forall x, y | x in b && y in b && x != y ensures Kept(t, b, y) { FencedKept(s, t, b, b, y); }
  }

  lemma FencedSheltered(s: State, t: State, b: set<Ref>, x: Ref, y: Ref)
    requires Fenced(s, t) && Sheltered(s, b, x, y) && t.mainthread == s.mainthread
    requires forall z :: z in s.fixedgc ==> z in t.fixedgc
    ensures Sheltered(t, b, x, y)
  {
    if Kept(s, b, y) { FencedKept(s, t, b, b, y); }
  }

  lemma KeepsHarmless(s: State, t: State, b: set<Ref>, x: Ref)
    requires Harmless(s, b, x) && x in t.heap && t.heap[x] == s.heap[x].(finalized := t.heap[x].finalized)
    requires Fenced(s, t) && t.mainthread == s.mainthread && (forall z :: z in s.fixedgc ==> z in t.fixedgc)
    ensures Harmless(t, b, x)
  {
    assert t.heap[x].Out() == s.heap[x].Out();
    forall y | y in t.heap[x].Out() ensures Sheltered(t, b, x, y) { FencedSheltered(s, t, b, x, y); }
  }

  /** A finalizer call leaves `x` harmless, or makes it white. */
  lemma FinalizerHarmless(s: State, b: set<Ref>, x: Ref)
    requires Base(s) && Harmless(s, b, x) && s.tobefnz != [] && s.tobefnz[0] in s.heap && s.running in s.heap
    ensures Stale(CallFinalizer(s), x) ==> Harmless(CallFinalizer(s), b, x)
  {
    var t := CallFinalizer(s);
    if Stale(t, x) {
      FinalizerFenced(s);
      KeepsHarmless(s, t, b, x);
    }
  }

  lemma StoreHarmless(s: State, b: set<Ref>, x: Ref, p: Ref, meta: Option<Ref>, refs: seq<Ref>, v: Option<Ref>,
      back: bool)
    requires QuietLoss(s, b) && Stale(s, x) && StoreOk(s, p, meta, refs, v, back) && StoreReady(s, p, meta, refs)
    requires Fenced(s, Store(s, p, meta, refs, v, back)) && Stale(Store(s, p, meta, refs, v, back), x)
    ensures Harmless(Store(s, p, meta, refs, v, back), b, x)
  {
    var t := Store(s, p, meta, refs, v, back);
    if p != x {
      KeepsHarmless(s, t, b, x);
    } else {
      StoreMarked(s, x, meta, refs, v, back);
      forall y | y in t.heap[x].Out() ensures Sheltered(t, b, x, y) {
        assert Harmless(s, b, x);
        if y !in s.heap[x].Out() { MarkedSheltered(s, b, x, y); }
        FencedSheltered(s, t, b, x, y);
      }
    }
  }

  /** If `x` is not white after the store, no barrier has fired: it got a marked object. */
  lemma StoreMarked(s: State, x: Ref, meta: Option<Ref>, refs: seq<Ref>, v: Option<Ref>, back: bool)
    requires x in s.heap && s.heap[x].kind == Userdata && s.heap[x].colour.Black?
    requires StoreOk(s, x, meta, refs, v, back) && StoreReady(s, x, meta, refs)
    requires !KeepInvariant(s.gcstate) && Stale(Store(s, x, meta, refs, v, back), x)
    ensures Store(s, x, meta, refs, v, back) == SetOut(s, x, meta, refs)
    ensures v.Some? ==> v.value in s.heap && !IsWhite(s, v.value)
  {
  }

  /** What is not white after the loss. */
  lemma MarkedSheltered(s: State, b: set<Ref>, x: Ref, y: Ref)
    requires QuietLoss(s, b) && x in b && y in s.heap && !IsWhite(s, y)
    ensures Sheltered(s, b, x, y)
  {
    assert Stale(s, y) || y in s.fixedgc || y == s.mainthread;
  }

  lemma RegisteredFenced(s: State, o: Ref)
    requires LostInv(s) && CanFinalize(s, o)
    ensures CheckReady(s, o) && SameRefs(s, CheckFinalizer(s, o)) && RegisteredOnly(s, CheckFinalizer(s, o), o)
  {
    RegisterLost(s, o);
  }

  lemma ActionIsFenced(s: State, a: Action)
    requires LostInv(s) && Enabled(s, a) && Defined(s, a) && a != Collect
    ensures Fenced(s, Apply(s, a))
  {
    RunningIn(s);
    if a.RegisterFinalizer? {
      RegisterEnabled(s, a.o);
      RegisteredFenced(s, a.o);
    }
    ActionFenced(s, a);
  }

  /** The object `x` changed at most in FINALIZEDBIT, and no fixed string was lost. */
  predicate Untouched(s: State, t: State, x: Ref) {
    && x in s.heap && x in t.heap && t.heap[x] == s.heap[x].(finalized := t.heap[x].finalized)
    && t.mainthread == s.mainthread && forall z :: z in s.fixedgc ==> z in t.fixedgc
  }

  lemma StillHarmless(s: State, t: State, b: set<Ref>, x: Ref)
    requires Harmless(s, b, x) && Fenced(s, t) && Untouched(s, t, x)
    ensures Harmless(t, b, x)
  {
    KeepsHarmless(s, t, b, x);
  }

  lemma NewUntouched(s: State, r: Ref, kind: Kind, meta: Option<Ref>, refs: seq<Ref>, x: Ref)
    requires s.running in s.heap && r !in s.heap && x in s.heap && x != s.running
    ensures Untouched(s, Unshared(NewObject(s, r, kind, meta, refs), r), x)
  {
  }

  lemma UpvalueUntouched(s: State, cs: map<Ref, seq<Ref>>, v: Ref, x: Ref)
    requires UpvalueReady(s, cs, v) && !KeepInvariant(s.gcstate) && x in s.heap && x !in cs
    ensures Untouched(s, StoreUpvalue(s, cs, v), x)
  {
  }

  lemma FixUntouched(s: State, x: Ref)
    requires s.allgc != [] && s.allgc[0] in s.heap && s.allgc[0] != x && x in s.heap
    ensures Untouched(s, Fix(s), x)
  {
  }

  lemma FinalizerUntouched(s: State, x: Ref)
    requires s.tobefnz != [] && s.tobefnz[0] in s.heap && s.running in s.heap && x != s.running && x in s.heap
    requires Stale(CallFinalizer(s), x)
    ensures Untouched(s, CallFinalizer(s), x)
  {
  }

  lemma UntouchedByAction(s: State, x: Ref, a: Action)
    requires LostInv(s) && x in s.heap && s.heap[x].kind == Userdata && s.running in s.heap
             && s.heap[s.running].kind == Thread
    requires Enabled(s, a) && a != Collect && !a.StoreRef? && Defined(s, a) && Stale(Apply(s, a), x)
    ensures Untouched(s, Apply(s, a), x)
  {
    match a
    case New(r, kind, meta, refs) => NewUntouched(s, r, kind, meta, refs, x);
    case StoreUpval(cs, v) => UpvalueUntouched(s, cs, v, x);
    case RegisterFinalizer(o) => RegisterEnabled(s, o); RegisteredFenced(s, o);
    case RunFinalizer => FinalizerUntouched(s, x);
    case FixString => FixUntouched(s, x);
    case SetRoots(_, _) =>
    case SetEmergency(_) =>
    case ShareUpvalue(_, _) =>
    case StartFullGc =>
  }

  lemma ActionHarmless(s: State, b: set<Ref>, x: Ref, a: Action)
    requires QuietLoss(s, b) && Stale(s, x) && Enabled(s, a) && a != Collect && Defined(s, a)
    requires Fenced(s, Apply(s, a)) && Stale(Apply(s, a), x)
    ensures Harmless(Apply(s, a), b, x)
  {
    RunningIn(s);
    if a.StoreRef? {
      StoreEnabled(s, a.p, a.meta, a.refs, a.v, a.back);
      StoreHarmless(s, b, x, a.p, a.meta, a.refs, a.v, a.back);
    } else {
      assert Harmless(s, b, x);
      UntouchedByAction(s, x, a);
      StillHarmless(s, Apply(s, a), b, x);
    }
  }

  /** The program cannot make a loss that costs nothing cost something. */
  lemma ActionQuiet(s: State, b: set<Ref>, a: Action)
    requires QuietLoss(s, b) && Enabled(s, a) && a != Collect
    ensures Defined(s, a) && QuietLoss(Apply(s, a), b)
  {
    ActionLost(s, a);
    ActionIsFenced(s, a);
    FencedOthers(s, Apply(s, a), b);
    forall x | Stale(Apply(s, a), x) ensures x in b && Harmless(Apply(s, a), b, x) {
      ActionHarmless(s, b, x, a);
    }
  }

  lemma CollectFenced(s: State)
    requires LostInv(s) && s.gcstate != Pause && StepReady(s)
    requires s.gcstate != CallFin ==> SameMarks(s, SingleStep(s))
    ensures Fenced(s, SingleStep(s))
  {
    RunningIn(s);
    if s.gcstate == CallFin && s.tobefnz != [] && !s.emergency {
      FinalizerFenced(s);
    } else {
      SameRefsFenced(s, SingleStep(s));
    }
  }

  lemma CollectHarmless(s: State, b: set<Ref>, x: Ref)
    requires QuietLoss(s, b) && Stale(s, x) && s.gcstate != Pause && StepReady(s)
    requires s.gcstate != CallFin ==> SameMarks(s, SingleStep(s))
    requires Fenced(s, SingleStep(s)) && Stale(SingleStep(s), x)
    ensures Harmless(SingleStep(s), b, x)
  {
    RunningIn(s);
    if s.gcstate == CallFin && s.tobefnz != [] && !s.emergency {
      FinalizerHarmless(s, b, x);
    } else {
      KeepsHarmless(s, SingleStep(s), b, x);
    }
  }

  lemma CollectQuiet(s: State, b: set<Ref>)
    requires QuietLoss(s, b) && s.gcstate != Pause
    ensures StepReady(s) && QuietLoss(SingleStep(s), b)
  {
    CollectLost(s);
    CollectFenced(s);
    FencedOthers(s, SingleStep(s), b);
    forall x | Stale(SingleStep(s), x) ensures x in b && Harmless(SingleStep(s), b, x) {
      CollectHarmless(s, b, x);
    }
  }
}
