/** Safety of all runs, with finalizers called at any time.  A run is safe, whatever the program does
    next, exactly if each finalizer call that took the sweep cursor along was harmless. */
module LuaLoss {
  import opened Wrappers
  import opened LuaHeap
  import opened LuaTricolour
  import opened LuaCollector
  import opened LuaCycle
  import opened LuaFinalize
  import opened LuaSafety
  import opened LuaLostCursor
  import opened LuaKept
  import opened LuaCut
  import opened LuaQuietLoss
  import opened LuaSkippedObject
  import opened LuaPace
  import opened LuaHarmfulLoss
  import opened LuaDoomedObject

  /** The invariant of runs with harmless losses: the collector's own, or the exception that such a
      loss makes for the rest of the cycle and the marking of the next one. */
  ghost predicate SafeState(s: State) {
    Inv(s) || (exists b :: QuietLoss(s, b)) || (exists b :: SkippedMarking(s, b))
  }

  lemma SafeLive(s: State)
    requires SafeState(s)
    ensures Base(s)
  {
    if b :| SkippedMarking(s, b) { SkippedBase(s, b); }
  }

  /** In such a state all that the program can reach is allocated. */
  lemma SafeReachable(s: State)
    requires SafeState(s)
    ensures !Unsafe(s)
  {
    SafeLive(s);
    forall x | Reachable(s, x) ensures x in s.heap { ReachableAlive(s, x); }
  }

  /** A second loss has to wait for the invariant. */
  lemma LosesInv(s: State)
    requires SafeState(s) && LosesCursor(s)
    ensures Inv(s)
  {
    if b :| QuietLoss(s, b) { NotTwice(s); }
  }

  // ---------- the steps ----------

  /** The next cycle does not visit what is stale now. */
  lemma RestartSkipped(s: State, b: set<Ref>)
    requires QuietLoss(s, b) && s.gcstate == Pause
    ensures StepReady(s) && SkippedMarking(SingleStep(s), StaleSet(s))
  {
    RestartCutInv(s, StaleSet(s));
    var t := SingleStep(s);
    RestartMarked(t, StaleSet(s));
    BackedAfter(s, t, b);
  }

  lemma RestartCutInv(s: State, stale: set<Ref>)
    requires LostInv(s) && s.gcstate == Pause && stale == StaleSet(s)
    ensures StepReady(s) && Closed(s)
    ensures var t := SingleStep(s);
      && Inv(Cut(t, stale)) && t.gcstate == Propagate && Settled(t, stale) && Grew(s.heap, t.heap)
      && t == s.(heap := t.heap, gray := t.gray, grayagain := [], gcstate := Propagate)
  {
    CutStartable(s);
    RestartInv(Cut(s, stale));
    LostReady(s);
    StartCut(s, stale);
  }

  lemma RestartMarked(t: State, stale: set<Ref>)
    requires var u := Cut(t, stale); Inv(u)
    requires t.gcstate == Propagate && Settled(t, stale)
    ensures !IsWhite(t, t.mainthread) && FixedMarked(t)
  {
    CutWhite(t, stale);
  }

  lemma BackedAfter(s: State, t: State, b: set<Ref>)
    requires QuietLoss(s, b) && Closed(s) && Grew(s.heap, t.heap) && !IsWhite(t, t.mainthread) && FixedMarked(t)
    requires t == s.(heap := t.heap, gray := t.gray, grayagain := [], gcstate := Propagate)
    ensures Backed(t, StaleSet(s))
  {
    RestartFenced(s, t);
    forall x | x in StaleSet(s) ensures BackedOne(t, StaleSet(s), x) {
      assert Stale(s, x) && AllIn(s, s.heap[x].Out());
      BackedAt(s, t, b, StaleSet(s), x);
    }
  }

  lemma RestartFenced(s: State, t: State)
    requires Grew(s.heap, t.heap) && t == s.(heap := t.heap, gray := t.gray, grayagain := [], gcstate := Propagate)
    ensures Fenced(s, t)
  {
    forall x | x in s.heap ensures t.heap[x] == s.heap[x].(colour := t.heap[x].colour) {
      assert Darker(s.heap[x], t.heap[x]);
    }
    SameRefsFenced(s, t);
  }

  lemma BackedAt(s: State, t: State, b: set<Ref>, c: set<Ref>, x: Ref)
    requires Harmless(s, b, x) && AllIn(s, s.heap[x].Out()) && c <= b && Fenced(s, t) && Grew(s.heap, t.heap)
    requires t.mainthread == s.mainthread && t.fixedgc == s.fixedgc && !IsWhite(t, t.mainthread) && FixedMarked(t)
    ensures BackedOne(t, c, x)
  {
    assert Darker(s.heap[x], t.heap[x]);
    forall y | y in t.heap[x].Out() ensures y in t.heap && (!t.heap[y].colour.White? || Kept(t, c, y)) {
      assert y in s.heap[x].Out() && Sheltered(s, b, x, y);
      if Kept(s, b, y) { FencedKept(s, t, b, c, y); }
    }
  }

  lemma QuietStep(s: State, b: set<Ref>, a: Action)
    requires QuietLoss(s, b) && Enabled(s, a)
    ensures Defined(s, a) && SafeState(Apply(s, a))
  {
    if a != Collect {
      ActionQuiet(s, b, a);
    } else if s.gcstate != Pause {
      CollectQuiet(s, b);
    } else {
      RestartSkipped(s, b);
    }
  }

  /** What the program does is defined while objects are skipped. */
  lemma SkippedDefined(s: State, b: set<Ref>, a: Action)
    requires SkippedMarking(s, b) && Enabled(s, a) && a != Collect && a != StartFullGc
    ensures Defined(s, a) && Fenced(s, Apply(s, a))
  {
    SkippedBase(s, b);
    RunningApart(s, b);
    match a {
      case StoreRef(p, meta, refs, v, back) =>
        StoreEnabled(s, p, meta, refs, v, back);
        StoreReadyNow(s, p, meta, refs, v, back);
      case StoreUpval(cs, v) => UpvalueEnabled(s, cs, v); UpvalueReadyHere(s, b, cs, v);
      case RegisterFinalizer(o) => RegisterEnabled(s, o); RegisterSkipped(s, b, o);
      case FixString => FixEnabled(s);
      case _ =>
    }
    ActionFenced(s, a);
  }

  lemma SkippedStep(s: State, b: set<Ref>, a: Action)
    requires SkippedMarking(s, b) && Enabled(s, a)
    ensures Defined(s, a) && (SkippedMarking(Apply(s, a), b) || Inv(Apply(s, a)))
  {
    if a == Collect {
      if s.gcstate == Atomic { AtomicSkipped(s, b); } else { PropagateSkipped(s, b); }
    } else if a == StartFullGc {
      FullGcSkipped(s, b);
    } else {
      SkippedDefined(s, b, a);
      SkippedAction(s, b, a);
    }
  }

  lemma SkippedAction(s: State, b: set<Ref>, a: Action)
    requires SkippedMarking(s, b) && Enabled(s, a) && a != Collect && a != StartFullGc
    requires Defined(s, a) && Fenced(s, Apply(s, a))
    ensures SkippedMarking(Apply(s, a), b)
  {
    SkippedLive(s, b);
    match a
    case SetEmergency(on) => EmergencySkipped(s, b, on);
    case New(r, kind, meta, refs) => NewEnabled(s, r, kind, meta, refs); NewSkipped(s, b, r, kind, meta, refs);
    case StoreRef(p, meta, refs, v, back) =>
      StoreEnabled(s, p, meta, refs, v, back);
      StoreSkipped(s, b, p, meta, refs, v, back);
    case StoreUpval(cs, v) => UpvalueEnabled(s, cs, v); UpvalueSkipped(s, b, cs, v);
    case SetRoots(globals, running) => RootsEnabled(s, globals, running); RootsSkipped(s, b, globals, running);
    case RegisterFinalizer(o) => RegisterEnabled(s, o); RegisterSkipped(s, b, o);
    case RunFinalizer => FinalizerSkipped(s, b);
    case FixString => FixEnabled(s); FixSkipped(s, b);
    case ShareUpvalue(c, d) => ShareSkipped(s, b, s.sharing + {(c, d), (d, c)});
  }

  lemma SkippedLive(s: State, b: set<Ref>)
    requires SkippedMarking(s, b)
    ensures LiveClosed(s)
  {
    SkippedBase(s, b);
  }

  lemma InvStep(s: State, a: Action)
    requires Inv(s) && Enabled(s, a) && (Loses(s, a) ==> HarmlessLoss(s))
    ensures Defined(s, a) && SafeState(Apply(s, a))
  {
    ApplyInv(s, a);
    if Loses(s, a) { var b := LossQuiet(s); }
  }

  /** Every action but a harmful loss is defined and leads to such a state again. */
  lemma SafeStep(s: State, a: Action)
    requires SafeState(s) && Enabled(s, a) && (Loses(s, a) ==> HarmlessLoss(s))
    ensures Defined(s, a) && SafeState(Apply(s, a))
  {
    if Inv(s) {
      InvStep(s, a);
    } else if b :| QuietLoss(s, b) {
      QuietStep(s, b, a);
    } else {
      var b :| SkippedMarking(s, b);
      SkippedStep(s, b, a);
    }
  }

  // ---------- nothing reachable is freed ----------

  lemma QuietKeeps(s: State, b: set<Ref>, a: Action, x: Ref)
    requires QuietLoss(s, b) && Enabled(s, a) && x in s.heap
    ensures Defined(s, a) && x in Apply(s, a).heap
  {
    if a != Collect {
      ActionQuiet(s, b, a);
      assert !Dead(s, x);
      ActionKeeps(s, a, x);
    } else if s.gcstate == Pause {
      LostReady(s);
    } else {
      CollectLost(s);
    }
  }

  /** While `b` is skipped, only the sweep that ends the marking frees objects. */
  lemma SkippedKeeps(s: State, b: set<Ref>, a: Action, x: Ref)
    requires SkippedMarking(s, b) && Enabled(s, a) && Reachable(s, x) && Alive(s, x)
    ensures Defined(s, a) && x in Apply(s, a).heap
  {
    SkippedStep(s, b, a);
    if a == Collect {
      CollectKeeps(s, b, x);
    } else if a == StartFullGc {
      FullGcKeeps(s, b, x);
    } else {
      ActionKeeps(s, a, x);
    }
  }

  lemma FullGcKeeps(s: State, b: set<Ref>, x: Ref)
    requires SkippedMarking(s, b) && Reachable(s, x)
    ensures NoDup(s.allgc) && AllIn(s, s.allgc) && x in EnterSweep(s).heap
  {
    SkippedBase(s, b);
    ReachableAlive(s, x);
    EnterSweepIntact(s, x);
  }

  lemma CollectKeeps(s: State, b: set<Ref>, x: Ref)
    requires SkippedMarking(s, b) && Reachable(s, x) && x in s.heap
    ensures StepReady(s) && x in SingleStep(s).heap
  {
    if s.gcstate == Atomic {
      AtomicKeeps(s, b, x);
    } else {
      PropagateReady(s, b);
      PropagateMarkGray(s);
    }
  }

  lemma AtomicKeeps(s: State, b: set<Ref>, x: Ref)
    requires SkippedMarking(s, b) && s.gcstate == Atomic && Reachable(s, x)
    ensures StepReady(s) && x in SingleStep(s).heap
  {
    AtomicSkippedBase(s, b);
    var f := AtomicStep(PropagateAll(s));
    FlipGraph(s);
    SameGraphReach(s, f, x);
    ReachableAlive(f, x);
    EnterSweepIntact(f, x);
  }

  /** No action frees what the program can reach, and none follows a pointer to freed memory. */
  lemma NothingReachableLost(s: State, a: Action, x: Ref)
    requires SafeState(s) && Enabled(s, a) && Reachable(s, x)
    ensures Defined(s, a) && x in s.heap && x in Apply(s, a).heap
  {
    SafeLive(s);
    ReachableAlive(s, x);
    if Inv(s) {
      NothingReachableFreed(s, a, x);
    } else if b :| QuietLoss(s, b) {
      QuietKeeps(s, b, a, x);
    } else {
      var b :| SkippedMarking(s, b);
      SkippedKeeps(s, b, a, x);
    }
  }

  // ---------- runs ----------

  /** Each loss of the cursor in the run is harmless. */
  ghost predicate LosesHarmlessly(s: State, actions: seq<Action>)
    requires Runnable(s, actions)
    decreases |actions|
  {
    actions == []
    || (LosesHarmlessly(s, Init(actions))
        && (Loses(Run(s, Init(actions)), Last(actions)) ==> HarmlessLoss(Run(s, Init(actions)))))
  }

  lemma {:induction false} KeepingIsHarmless(s: State, actions: seq<Action>)
    requires Runnable(s, actions) && KeepsCursor(s, actions)
    ensures LosesHarmlessly(s, actions)
    decreases |actions|
  {
    if actions != [] { KeepingIsHarmless(s, Init(actions)); }
  }

  lemma {:induction false} SafeRun(s: State, actions: seq<Action>)
    requires SafeState(s) && Runnable(s, actions) && LosesHarmlessly(s, actions)
    ensures SafeState(Run(s, actions))
    decreases |actions|
  {
    if actions != [] {
      SafeRun(s, Init(actions));
      SafeStep(Run(s, Init(actions)), Last(actions));
    }
  }

  /** Some run of luaC_step and luaC_fullgc leads from `s`, with finalizers at that pace, to a state in
      which something reachable has been freed, without a harmful loss on the way. */
  ghost predicate CanGoWrong(s: State, p: Pace) {
    exists actions ::
      Runnable(s, actions) && Paced(s, p, actions) && LosesHarmlessly(s, actions) && Unsafe(Run(s, actions))
  }

  /** No run at all does, whatever the pace. */
  lemma SafeStaysRight(s: State)
    requires SafeState(s)
    ensures forall actions :: Runnable(s, actions) && LosesHarmlessly(s, actions) ==> !Unsafe(Run(s, actions))
    ensures forall p :: !CanGoWrong(s, p)
  {
    forall actions | Runnable(s, actions) && LosesHarmlessly(s, actions) ensures !Unsafe(Run(s, actions)) {
      SafeRun(s, actions);
      SafeReachable(Run(s, actions));
    }
  }

  /** A loss of the cursor can cost an object exactly if it is not harmless. */
  lemma LossExact(s: State, p: Pace)
    requires Inv(s) && LosesCursor(s) && PaceOk(s, p, RunFinalizer)
    ensures s.tobefnz[0] in s.heap && s.running in s.heap
    ensures CanGoWrong(CallFinalizer(s), PaceAfter(s, p, RunFinalizer)) <==> !HarmlessLoss(s)
  {
    RunningIn(s);
    var q := PaceAfter(s, p, RunFinalizer);
    if HarmlessLoss(s) {
      var b := LossQuiet(s);
      SafeStaysRight(CallFinalizer(s));
    } else {
      HarmfulCosts(s, q);
      var t :| Leads(Start(CallFinalizer(s), q), t) && Unsafe(t);
      LeadsWrong(Start(CallFinalizer(s), q), t);
    }
  }

  lemma LeadsWrong(s0: Start, t: State)
    requires Leads(s0, t) && Unsafe(t)
    ensures CanGoWrong(s0.state, s0.pace)
  {
    var p :| LeadsWith(s0, t, p);
    var actions :| LeadsBy(s0, actions, t, p);
    KeepingIsHarmless(s0.state, actions);
  }

  /** The pace after `k` actions of a run. */
  ghost function PaceAt(s: State, p: Pace, actions: seq<Action>, k: nat): Pace
    requires Runnable(s, actions) && k <= |actions|
  {
    RunPrefix(s, actions, k);
    PaceOver(s, p, actions[..k])
  }

  /** The exact condition for the safety of a run: nothing can go wrong after any part of it if and only
      if each of its losses is harmless. */
  lemma RunSafeExactly(s: State, p: Pace, actions: seq<Action>)
    requires Inv(s) && Runnable(s, actions) && Paced(s, p, actions)
    ensures (forall k :: 0 <= k <= |actions| ==> !CanGoWrong(StateAfter(s, actions, k), PaceAt(s, p, actions, k)))
            <==> LosesHarmlessly(s, actions)
  {
    if LosesHarmlessly(s, actions) {
      forall k | 0 <= k <= |actions| ensures !CanGoWrong(StateAfter(s, actions, k), PaceAt(s, p, actions, k)) {
        HarmlessPrefix(s, actions, k);
        SafeRun(s, actions[..k]);
        SafeStaysRight(StateAfter(s, actions, k));
      }
    } else {
      var k := WrongAfter(s, p, actions);
    }
  }

  lemma {:induction false} HarmlessPrefix(s: State, actions: seq<Action>, k: nat)
    requires Runnable(s, actions) && LosesHarmlessly(s, actions) && k <= |actions|
    ensures Runnable(s, actions[..k]) && LosesHarmlessly(s, actions[..k])
    decreases |actions|
  {
    if k == |actions| {
      assert actions[..k] == actions;
    } else {
      HarmlessPrefix(s, Init(actions), k);
      assert Init(actions)[..k] == actions[..k];
    }
  }

  /** Safety of all runs whose losses are harmless: after any number of actions, whatever the program can
      reach is allocated, no action frees it, and no action follows a pointer to freed memory. */
  lemma HarmlessRunSafety(s: State, actions: seq<Action>, k: nat, x: Ref, a: Action)
    requires Inv(s) && Runnable(s, actions) && LosesHarmlessly(s, actions) && k <= |actions|
    requires Reachable(StateAfter(s, actions, k), x) && Enabled(StateAfter(s, actions, k), a)
    ensures x in StateAfter(s, actions, k).heap
    ensures Defined(StateAfter(s, actions, k), a) && x in Apply(StateAfter(s, actions, k), a).heap
  {
    HarmlessPrefix(s, actions, k);
    SafeRun(s, actions[..k]);
    NothingReachableLost(StateAfter(s, actions, k), a, x);
  }

  lemma SamePart(s: State, p: Pace, actions: seq<Action>, k: nat)
    requires Runnable(s, actions) && k < |actions|
    ensures StateAfter(s, Init(actions), k) == StateAfter(s, actions, k)
    ensures PaceAt(s, p, Init(actions), k) == PaceAt(s, p, actions, k)
  {
    assert Init(actions)[..k] == actions[..k];
  }

  lemma {:induction false} WrongAfter(s: State, p: Pace, actions: seq<Action>) returns (k: nat)
    requires Inv(s) && Runnable(s, actions) && Paced(s, p, actions) && !LosesHarmlessly(s, actions)
    ensures k <= |actions| && CanGoWrong(StateAfter(s, actions, k), PaceAt(s, p, actions, k))
    decreases |actions|
  {
    if !LosesHarmlessly(s, Init(actions)) {
      k := WrongAfter(s, p, Init(actions));
      SamePart(s, p, actions, k);
    } else {
      k := |actions|;
      WrongAtEnd(s, p, actions);
    }
  }

  lemma WrongAtEnd(s: State, p: Pace, actions: seq<Action>)
    requires Inv(s) && Runnable(s, actions) && Paced(s, p, actions) && actions != []
    requires LosesHarmlessly(s, Init(actions)) && !LosesHarmlessly(s, actions)
    ensures CanGoWrong(StateAfter(s, actions, |actions|), PaceAt(s, p, actions, |actions|))
  {
    assert actions[..|actions|] == actions;
    WrongNow(s, p, actions);
  }

  lemma WrongNow(s: State, p: Pace, actions: seq<Action>)
    requires Inv(s) && Runnable(s, actions) && Paced(s, p, actions) && actions != []
    requires LosesHarmlessly(s, Init(actions)) && !LosesHarmlessly(s, actions)
    ensures CanGoWrong(Run(s, actions), PaceOver(s, p, actions))
  {
    SafeRun(s, Init(actions));
    WrongStep(Run(s, Init(actions)), PaceOver(s, p, Init(actions)), Last(actions));
  }

  lemma WrongStep(s: State, p: Pace, a: Action)
    requires SafeState(s) && Defined(s, a) && Loses(s, a) && !HarmlessLoss(s) && PaceOk(s, p, a)
    ensures CanGoWrong(Apply(s, a), PaceAfter(s, p, a))
  {
    LosesInv(s);
    LossExact(s, p);
  }
}
