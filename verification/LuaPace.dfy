/** When finalizers are called.  luaC_step (lgc.c:1123-1143) makes some steps and then a batch of at most
    `gcfinnum` calls; the atomic step sets `gcfinnum` to 1 and every complete batch doubles it.  A batch
    ends early when a finalizer raises an error.  luaC_fullgc (lgc.c:1156-1172) makes no batches: it calls
    finalizers in GCScallfin only.  The program acts in between, and inside finalizers. */
module LuaPace {
  import opened LuaHeap
  import opened LuaCollector
  import opened LuaFinalize
  import opened LuaSafety

  /** `left` calls may still be made by the batch that is under way or due; `stepping` tells that it is
      due, after `steps` steps, and `full` that luaC_fullgc is running, which makes none.  luaC_step makes
      at least `rate` steps: how many the debt asks for is not part of this model. */
  datatype Pace = Pace(gcfinnum: nat, left: nat, stepping: bool, full: bool, steps: nat, rate: nat)

  /** The counter is an unsigned int. */
  const UINT_RANGE: nat := 0x1_0000_0000

  predicate PaceOk(s: State, p: Pace, a: Action) {
    match a
    case Collect => true
    case RunFinalizer => p.left > 0 && (p.stepping ==> p.steps >= p.rate)
    case _ => !p.stepping || s.gcstate == Pause || (!p.full && s.tobefnz == [] && p.steps >= p.rate)
  }

  /** The pace after action `a` in state `s`.  A step in GCScallfin makes the calls of its batch itself,
      one with each `Collect`; no other batch comes before the next cycle.  luaC_step ends in the pause,
      and its batch is empty when no finalizer is due. */
  function PaceAfter(s: State, p: Pace, a: Action): Pace {
    match a
    case Collect => PaceAfterStep(s, p)
    case StartFullGc => p.(left := 0, stepping := true, full := true, steps := 0)
    case RunFinalizer => PaceAfterCall(s, p)
    case _ =>
      if p.stepping then
        var n := if s.gcstate == Pause then p.gcfinnum else 0;
        p.(gcfinnum := n, left := 0, stepping := false, steps := 0)
      else p
  }

  function PaceAfterStep(s: State, p: Pace): Pace {
    if s.gcstate == CallFin && s.tobefnz != [] && !s.emergency then p.(left := 0, stepping := false)
    else if s.gcstate == CallFin then p.(left := 0, stepping := true, full := false, steps := p.steps + 1)
    else
      var n := if s.gcstate == Atomic then 1 else p.gcfinnum;
      p.(gcfinnum := n, left := if p.full then 0 else n, stepping := true,
         steps := if s.gcstate == Pause then 1 else p.steps + 1)
  }

  function PaceAfterCall(s: State, p: Pace): Pace {
    if |s.tobefnz| <= 1 then p.(gcfinnum := 0, left := 0, stepping := false, steps := 0)
    else if p.left <= 1 then p.(gcfinnum := p.gcfinnum * 2 % UINT_RANGE, left := 0, stepping := false, steps := 0)
    else p.(left := p.left - 1, stepping := false, steps := 0)
  }

  /** The actions of the run come when luaC_step and luaC_fullgc let them. */
  ghost predicate Paced(s: State, p: Pace, actions: seq<Action>)
    requires Runnable(s, actions)
    decreases |actions|
  {
    actions == []
    || (Paced(s, p, Init(actions)) && PaceOk(Run(s, Init(actions)), PaceOver(s, p, Init(actions)), Last(actions)))
  }

  ghost function PaceOver(s: State, p: Pace, actions: seq<Action>): Pace
    requires Runnable(s, actions)
    decreases |actions|
  {
    if actions == [] then p else PaceAfter(Run(s, Init(actions)), PaceOver(s, p, Init(actions)), Last(actions))
  }

  /** The counter when Lua starts (lua_newstate, lstate.c:328). */
  function FirstPace(rate: nat): Pace {
    Pace(0, 0, false, false, 0, rate)
  }

  // ---------- where runs lead ----------

  datatype Start = Start(state: State, pace: Pace)

  ghost predicate LeadsBy(s0: Start, actions: seq<Action>, s: State, p: Pace) {
    && Runnable(s0.state, actions) && KeepsCursor(s0.state, actions) && Paced(s0.state, s0.pace, actions)
    && Run(s0.state, actions) == s && PaceOver(s0.state, s0.pace, actions) == p
  }

  /** A run that does not lose the cursor leads from `s0` to `s` and the pace `p`. */
  ghost predicate LeadsWith(s0: Start, s: State, p: Pace) {
    exists actions :: LeadsBy(s0, actions, s, p)
  }

  ghost predicate Leads(s0: Start, s: State) {
    exists p :: LeadsWith(s0, s, p)
  }

  lemma LeadsSome(s0: Start, s: State, p: Pace)
    requires LeadsWith(s0, s, p)
    ensures Leads(s0, s)
  {
  }

  lemma LeadsHere(s0: Start)
    ensures LeadsWith(s0, s0.state, s0.pace) && Leads(s0, s0.state)
  {
    assert LeadsBy(s0, [], s0.state, s0.pace);
    LeadsSome(s0, s0.state, s0.pace);
  }

  lemma RunMore(s: State, actions: seq<Action>, a: Action)
    requires Runnable(s, actions) && Enabled(Run(s, actions), a) && Defined(Run(s, actions), a)
    ensures Runnable(s, actions + [a]) && Run(s, actions + [a]) == Apply(Run(s, actions), a)
    ensures KeepsCursor(s, actions) && !Loses(Run(s, actions), a) ==> KeepsCursor(s, actions + [a])
  {
    assert Init(actions + [a]) == actions && Last(actions + [a]) == a;
  }

  lemma PaceMore(s: State, p: Pace, actions: seq<Action>, a: Action)
    requires Runnable(s, actions) && Runnable(s, actions + [a])
    requires Paced(s, p, actions) && PaceOk(Run(s, actions), PaceOver(s, p, actions), a)
    ensures Paced(s, p, actions + [a])
    ensures PaceOver(s, p, actions + [a]) == PaceAfter(Run(s, actions), PaceOver(s, p, actions), a)
  {
    assert Init(actions + [a]) == actions && Last(actions + [a]) == a;
  }

  lemma LeadsWithOn(s0: Start, s: State, p: Pace, a: Action)
    requires LeadsWith(s0, s, p) && Enabled(s, a) && Defined(s, a) && !Loses(s, a) && PaceOk(s, p, a)
    ensures LeadsWith(s0, Apply(s, a), PaceAfter(s, p, a)) && Leads(s0, Apply(s, a))
  {
    var actions :| LeadsBy(s0, actions, s, p);
    RunMore(s0.state, actions, a);
    PaceMore(s0.state, s0.pace, actions, a);
    assert LeadsBy(s0, actions + [a], Apply(s, a), PaceAfter(s, p, a));
    LeadsSome(s0, Apply(s, a), PaceAfter(s, p, a));
  }

  /** The action can be taken at any pace. */
  predicate AnyPace(s: State, a: Action) {
    a.Collect? || (!a.RunFinalizer? && s.gcstate == Pause)
  }

  lemma LeadsOn(s0: Start, s: State, a: Action)
    requires Leads(s0, s) && Enabled(s, a) && Defined(s, a) && !Loses(s, a) && AnyPace(s, a)
    ensures Leads(s0, Apply(s, a))
  {
    var p :| LeadsWith(s0, s, p);
    LeadsWithOn(s0, s, p, a);
  }

  // ---------- runs of luaC_step ----------

  ghost predicate StepsWith(s0: Start, s: State, p: Pace) {
    LeadsWith(s0, s, p) && !p.full && p.rate == s0.pace.rate
  }

  /** A run of luaC_step alone leads to `s`, and `gcfinnum` is `g` then. */
  ghost predicate StepsAt(s0: Start, s: State, g: nat) {
    exists p :: StepsWith(s0, s, p) && p.gcfinnum == g
  }

  ghost predicate StepsTo(s0: Start, s: State) {
    exists p :: StepsWith(s0, s, p)
  }

  /** A batch is due after `n` steps. */
  ghost predicate StepsDue(s0: Start, s: State, g: nat, n: nat) {
    exists p :: StepsWith(s0, s, p) && p.gcfinnum == g && p.left == g && p.steps >= n
  }

  /** The batch may make `left` more calls. */
  ghost predicate StepsIn(s0: Start, s: State, g: nat, left: nat) {
    exists p :: StepsWith(s0, s, p) && p.gcfinnum == g && p.left == left && (p.stepping ==> p.steps >= p.rate)
  }

  lemma StepsHere(s0: Start)
    requires !s0.pace.full
    ensures StepsTo(s0, s0.state)
  {
    LeadsHere(s0);
    assert StepsWith(s0, s0.state, s0.pace);
  }

  lemma StepsWithOn(s0: Start, s: State, p: Pace, a: Action)
    requires StepsWith(s0, s, p) && Enabled(s, a) && Defined(s, a) && !Loses(s, a) && PaceOk(s, p, a) && !a.StartFullGc?
    ensures StepsWith(s0, Apply(s, a), PaceAfter(s, p, a))
  {
    LeadsWithOn(s0, s, p, a);
  }

  lemma StepsOn(s0: Start, s: State, a: Action)
    requires StepsTo(s0, s) && Enabled(s, a) && Defined(s, a) && !Loses(s, a) && AnyPace(s, a) && !a.StartFullGc?
    ensures StepsTo(s0, Apply(s, a))
  {
    var p :| StepsWith(s0, s, p);
    StepsWithOn(s0, s, p, a);
  }

  /** The atomic step sets the counter. */
  lemma StepsAtomic(s0: Start, s: State)
    requires StepsTo(s0, s) && StepReady(s) && s.gcstate == Atomic
    ensures StepsAt(s0, SingleStep(s), 1)
  {
    var p :| StepsWith(s0, s, p);
    StepsWithOn(s0, s, p, Collect);
  }

  lemma StepsAtOn(s0: Start, s: State, g: nat)
    requires StepsAt(s0, s, g) && StepReady(s) && s.gcstate != Atomic && s.gcstate != CallFin
    ensures StepsAt(s0, SingleStep(s), g) && StepsDue(s0, SingleStep(s), g, 1)
  {
    var p :| StepsWith(s0, s, p) && p.gcfinnum == g;
    StepsWithOn(s0, s, p, Collect);
  }

  lemma StepsDueOn(s0: Start, s: State, g: nat, n: nat)
    requires StepsDue(s0, s, g, n) && StepReady(s) && s.gcstate != Atomic && s.gcstate != CallFin && s.gcstate != Pause
    ensures StepsDue(s0, SingleStep(s), g, n + 1)
  {
    var p :| StepsWith(s0, s, p) && p.gcfinnum == g && p.left == g && p.steps >= n;
    StepsWithOn(s0, s, p, Collect);
  }

  lemma DueIn(s0: Start, s: State, g: nat, n: nat)
    requires StepsDue(s0, s, g, n) && n >= s0.pace.rate
    ensures StepsIn(s0, s, g, g)
  {
  }

  /** One more call, which may complete the batch. */
  lemma StepsCall(s0: Start, s: State, g: nat, left: nat)
    requires StepsIn(s0, s, g, left) && left > 0 && |s.tobefnz| > 1
    requires Defined(s, RunFinalizer) && !LosesCursor(s)
    ensures left > 1 ==> StepsIn(s0, CallFinalizer(s), g, left - 1)
    ensures left == 1 ==> StepsAt(s0, CallFinalizer(s), g * 2 % UINT_RANGE)
  {
    var p :| StepsWith(s0, s, p) && p.gcfinnum == g && p.left == left && (p.stepping ==> p.steps >= p.rate);
    StepsWithOn(s0, s, p, RunFinalizer);
  }

  // ---------- parts of runs ----------

  lemma {:induction false} PacedPrefix(s: State, p: Pace, actions: seq<Action>, k: nat)
    requires Runnable(s, actions) && Paced(s, p, actions) && k <= |actions|
    ensures Runnable(s, actions[..k]) && Paced(s, p, actions[..k])
    decreases |actions|
  {
    if k == |actions| {
      assert actions[..k] == actions;
    } else {
      PacedPrefix(s, p, Init(actions), k);
      assert Init(actions)[..k] == actions[..k];
    }
  }

  lemma {:induction false} PacedConcat(s: State, p: Pace, a: seq<Action>, b: seq<Action>)
    requires Runnable(s, a) && Runnable(Run(s, a), b) && Paced(s, p, a) && Paced(Run(s, a), PaceOver(s, p, a), b)
    ensures Runnable(s, a + b) && Run(s, a + b) == Run(Run(s, a), b) && Paced(s, p, a + b)
    ensures PaceOver(s, p, a + b) == PaceOver(Run(s, a), PaceOver(s, p, a), b)
    decreases |b|
  {
    if b == [] {
      assert a + b == a;
    } else {
      PacedConcat(s, p, a, Init(b));
      assert Init(a + b) == a + Init(b) && Last(a + b) == Last(b);
    }
  }
}
