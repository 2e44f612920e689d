/** Why luaK_jump may hand the jumps pending at a new jump on to its list (lcode.c:130-143):
    compared with a generator that lets them lead to the new jump, every finished jump leads
    to a place that the other generator's jump reaches through unconditional jumps only. */
module JumpThreading {
  import opened JumpLists
  import opened JumpCoder

  datatype Op =
    | EmitOp
    | LooseOp
    | JumpOp
    | ConcatOp(l1: int, l2: int)
    | HereOp(l: int)
    | PatchOp(l: int, dest: int)
    | TestsOp(l: int, values: set<int>, vtarget: int, dtarget: int)  // patchlistaux in exp2reg

  predicate OpOk(a: Plan, op: Op) {
    match op
    case ConcatOp(l1, l2) => IsList(a, l1) && IsList(a, l2) && (l1 != l2 || l1 == NO_JUMP)
    case HereOp(l) => IsList(a, l)
    case PatchOp(l, dest) => IsList(a, l) && 0 <= dest <= a.pc
    case TestsOp(l, _, _, _) => IsList(a, l)
    case _ => true
  }

  function Step(a: Plan, op: Op): Plan
    requires OpOk(a, op)
  {
    match op
    case EmitOp => PlanEmit(a)
    case LooseOp => PlanEmitLoose(a)
    case JumpOp => PlanJump(a)
    case ConcatOp(l1, l2) => PlanConcat(a, l1, l2)
    case HereOp(l) => PlanPatchToHere(a, l)
    case PatchOp(l, dest) => PlanPatchList(a, l, dest)
    case TestsOp(l, values, vtarget, dtarget) => PlanPatchTests(a, l, values, vtarget, dtarget)
  }

  /** The generator without the optimisation. */
  function NaiveStep(a: Plan, op: Op): Plan
    requires OpOk(a, op)
  {
    if op == JumpOp then PlanEmitLoose(a) else Step(a, op)
  }

  /** Both generators side by side, and the positions of the OP_JMP instructions. */
  datatype Both = Both(threaded: Plan, naive: Plan, jmps: set<int>)

  const Start := Both(Plan(0, map[], [], map[]), Plan(0, map[], [], map[]), {})

  /** Nothing was threaded on to the list: it holds the same jumps in both generators.  This is so of the
      lists of tests in expressions, since condjump emits the test first, and with it the pending jumps
      are finished. */
  predicate Unthreaded(b: Both, l: int)
    requires IsList(b.threaded, l) && IsList(b.naive, l)
  {
    forall x :: x in ElemsOf(b.threaded, l) ==> x in ElemsOf(b.naive, l)
  }

  ghost predicate BothOk(b: Both, op: Op) {
    OpOk(b.threaded, op) && OpOk(b.naive, op) && (op.TestsOp? ==> Unthreaded(b, op.l))
  }

  ghost function BothStep(b: Both, op: Op): Both
    requires BothOk(b, op)
  {
    Both(Step(b.threaded, op), NaiveStep(b.naive, op), if op == JumpOp then b.jmps + {b.threaded.pc} else b.jmps)
  }

  // ---------- plans in order ----------

  ghost predicate Below(a: Plan) {
    && (forall l :: l in a.lists ==> 0 <= l < a.pc)
    && (forall l, x :: l in a.lists && x in a.lists[l] ==> x < a.pc)
    && (forall x :: x in a.pending ==> x < a.pc)
    && (forall x :: x in a.target ==> x < a.pc)
  }

  ghost predicate PlanOk(a: Plan) {
    Disjoint(a) && Below(a)
  }

  lemma EmitOk(a: Plan)
    requires PlanOk(a)
    ensures PlanOk(PlanEmit(a)) && PlanOk(PlanEmitLoose(a))
  {
  }

  lemma JumpOk(a: Plan)
    requires PlanOk(a)
    ensures PlanOk(PlanJump(a))
  {
  }

  lemma PatchOk(a: Plan, l: int, dest: int)
    requires PlanOk(a) && IsList(a, l)
    ensures PlanOk(PlanPatchToHere(a, l)) && PlanOk(PlanPatchList(a, l, dest))
  {
  }

  lemma TestsOk(a: Plan, l: int, values: set<int>, vtarget: int, dtarget: int)
    requires PlanOk(a) && IsList(a, l)
    ensures PlanOk(PlanPatchTests(a, l, values, vtarget, dtarget))
  {
  }

  lemma StepOk(a: Plan, op: Op)
    requires PlanOk(a) && OpOk(a, op)
    ensures PlanOk(Step(a, op)) && PlanOk(NaiveStep(a, op))
  {
    match op
    case ConcatOp(l1, l2) => ConcatOk(a, l1, l2);
    case HereOp(l) => PatchOk(a, l, 0);
    case PatchOp(l, dest) => PatchOk(a, l, dest);
    case TestsOp(l, values, vtarget, dtarget) => TestsOk(a, l, values, vtarget, dtarget);
    case JumpOp => JumpOk(a); EmitOk(a);
    case _ => EmitOk(a);
  }

  lemma ConcatOk(a: Plan, l1: int, l2: int)
    requires PlanOk(a) && IsList(a, l1) && IsList(a, l2) && (l1 != l2 || l1 == NO_JUMP)
    ensures PlanOk(PlanConcat(a, l1, l2))
  {
    if l1 != NO_JUMP && l2 != NO_JUMP {
      ConcatDisjoint(a, l1, l2);
    }
  }

  // ---------- the simulation ----------

  /** The finished jump `x` leads to the unconditional jump `y`. */
  ghost predicate Hop(n: Plan, jmps: set<int>, x: int, y: int) {
    x in n.target && n.target[x] == y && y in jmps
  }

  function Last(p: seq<int>): int
    requires p != []
  {
    p[|p| - 1]
  }

  /** `p` leads from `x` through finished jumps to unconditional jumps. */
  ghost predicate Leads(n: Plan, jmps: set<int>, p: seq<int>, x: int)
    decreases |p|
  {
    p != [] && p[0] == x && (|p| == 1 || (Hop(n, jmps, x, p[1]) && Leads(n, jmps, p[1..], p[1])))
  }

  /** Following naive jumps from `x` leads to `dest`, through unconditional jumps only. */
  ghost predicate Arrives(n: Plan, jmps: set<int>, x: int, dest: int) {
    exists p :: Leads(n, jmps, p, x) && Last(p) in n.target && n.target[Last(p)] == dest
  }

  /** Following naive jumps from `x` leads to one of the unfinished jumps `es`. */
  ghost predicate Waits(n: Plan, jmps: set<int>, x: int, es: seq<int>) {
    exists p :: Leads(n, jmps, p, x) && Last(p) in es
  }

  ghost predicate Sim(b: Both) {
    && PlanOk(b.threaded) && PlanOk(b.naive)
    && b.naive.pc == b.threaded.pc
    && b.naive.lists.Keys == b.threaded.lists.Keys
    && (forall x :: x in b.threaded.target ==> Arrives(b.naive, b.jmps, x, b.threaded.target[x]))
    && (forall x :: x in b.threaded.pending ==> Waits(b.naive, b.jmps, x, b.naive.pending))
    && (forall l, x :: l in b.threaded.lists && x in b.threaded.lists[l] ==>
          Waits(b.naive, b.jmps, x, b.naive.lists[l]))
  }

  /** Later plans only finish more jumps. */
  ghost predicate Extends(n: Plan, m: Plan) {
    forall x :: x in n.target ==> x in m.target && m.target[x] == n.target[x]
  }

  lemma {:induction false} LeadsExtends(n: Plan, m: Plan, jmps: set<int>, jmps': set<int>, p: seq<int>, x: int)
    requires Leads(n, jmps, p, x) && Extends(n, m) && jmps <= jmps'
    ensures Leads(m, jmps', p, x)
    decreases |p|
  {
    if |p| > 1 { LeadsExtends(n, m, jmps, jmps', p[1..], p[1]); }
  }

  lemma {:induction false} LeadsOn(n: Plan, jmps: set<int>, p: seq<int>, x: int, k: int)
    requires Leads(n, jmps, p, x) && Hop(n, jmps, Last(p), k)
    ensures Leads(n, jmps, p + [k], x)
    decreases |p|
  {
    if |p| > 1 {
      LeadsOn(n, jmps, p[1..], p[1], k);
      assert (p + [k])[1..] == p[1..] + [k];
    } else {
      assert (p + [k])[1..] == [k];
    }
  }

  lemma ArrivesExtends(n: Plan, m: Plan, jmps: set<int>, jmps': set<int>, x: int, dest: int)
    requires Arrives(n, jmps, x, dest) && Extends(n, m) && jmps <= jmps'
    ensures Arrives(m, jmps', x, dest)
  {
    var p :| Leads(n, jmps, p, x) && Last(p) in n.target && n.target[Last(p)] == dest;
    LeadsExtends(n, m, jmps, jmps', p, x);
  }

  lemma WaitsExtends(n: Plan, m: Plan, jmps: set<int>, jmps': set<int>, x: int, es: seq<int>, fs: seq<int>)
    requires Waits(n, jmps, x, es) && Extends(n, m) && jmps <= jmps' && forall y :: y in es ==> y in fs
    ensures Waits(m, jmps', x, fs)
  {
    var p :| Leads(n, jmps, p, x) && Last(p) in es;
    LeadsExtends(n, m, jmps, jmps', p, x);
  }

  /** When the jumps `es` are finished, whatever waited for them arrives. */
  lemma WaitsArrives(n: Plan, m: Plan, jmps: set<int>, jmps': set<int>, x: int, es: seq<int>, dest: int)
    requires Waits(n, jmps, x, es) && Extends(n, m) && jmps <= jmps'
    requires forall y :: y in es ==> y in m.target && m.target[y] == dest
    ensures Arrives(m, jmps', x, dest)
  {
    var p :| Leads(n, jmps, p, x) && Last(p) in es;
    LeadsExtends(n, m, jmps, jmps', p, x);
  }

  /** When the jumps `es` are made to lead to a new unconditional jump, whatever waited for them
      waits for that jump. */
  lemma WaitsThreads(n: Plan, m: Plan, jmps: set<int>, x: int, es: seq<int>, k: int)
    requires Waits(n, jmps, x, es) && Extends(n, m)
    requires forall y :: y in es ==> y in m.target && m.target[y] == k
    ensures Waits(m, jmps + {k}, x, [k])
  {
    var p :| Leads(n, jmps, p, x) && Last(p) in es;
    LeadsExtends(n, m, jmps, jmps + {k}, p, x);
    LeadsOn(m, jmps + {k}, p, x, k);
    var q := p + [k];
    assert Last(q) == k;
  }

  lemma WaitsSelf(n: Plan, jmps: set<int>, x: int, es: seq<int>)
    requires x in es
    ensures Waits(n, jmps, x, es)
  {
    assert Leads(n, jmps, [x], x);
    assert Last([x]) in es;
  }

  lemma StepExtends(n: Plan, op: Op)
    requires PlanOk(n) && OpOk(n, op)
    ensures Extends(n, NaiveStep(n, op))
  {
  }

  /** One operation keeps the simulation. */
  lemma StepSim(b: Both, op: Op)
    requires Sim(b) && BothOk(b, op)
    ensures Sim(BothStep(b, op))
  {
    StepOk(b.threaded, op);
    StepOk(b.naive, op);
    StepExtends(b.naive, op);
    match op
    case EmitOp => EmitSim(b, op);
    case LooseOp => EmitSim(b, op);
    case JumpOp => JumpSim(b);
    case ConcatOp(_, _) => ConcatSim(b, op);
    case HereOp(_) => HereSim(b, op);
    case PatchOp(_, _) => PatchSim(b, op);
    case TestsOp(_, _, _, _) => TestsSim(b, op);
  }

  lemma EmitSim(b: Both, op: Op)
    requires Sim(b) && BothOk(b, op) && (op == EmitOp || op == LooseOp)
    requires PlanOk(Step(b.threaded, op)) && PlanOk(NaiveStep(b.naive, op)) && Extends(b.naive, NaiveStep(b.naive, op))
    ensures Sim(BothStep(b, op))
  {
    var c := BothStep(b, op);
    forall x | x in c.threaded.target ensures Arrives(c.naive, c.jmps, x, c.threaded.target[x]) {
      if x in b.threaded.pending {
        WaitsArrives(b.naive, c.naive, b.jmps, c.jmps, x, b.naive.pending, b.naive.pc);
      } else {
        ArrivesExtends(b.naive, c.naive, b.jmps, c.jmps, x, b.threaded.target[x]);
      }
    }
    forall l, x | l in c.threaded.lists && x in c.threaded.lists[l]
      ensures Waits(c.naive, c.jmps, x, c.naive.lists[l])
    {
      if op == LooseOp && l == b.threaded.pc {
        WaitsSelf(c.naive, c.jmps, x, c.naive.lists[l]);
      } else {
        WaitsExtends(b.naive, c.naive, b.jmps, c.jmps, x, b.naive.lists[l], c.naive.lists[l]);
      }
    }
  }

  lemma JumpSim(b: Both)
    requires Sim(b) && BothOk(b, JumpOp)
    requires PlanOk(Step(b.threaded, JumpOp)) && PlanOk(NaiveStep(b.naive, JumpOp))
    requires Extends(b.naive, NaiveStep(b.naive, JumpOp))
    ensures Sim(BothStep(b, JumpOp))
  {
    var c := BothStep(b, JumpOp);
    var k := b.threaded.pc;
    forall x | x in c.threaded.target ensures Arrives(c.naive, c.jmps, x, c.threaded.target[x]) {
      ArrivesExtends(b.naive, c.naive, b.jmps, c.jmps, x, b.threaded.target[x]);
    }
    forall l, x | l in c.threaded.lists && x in c.threaded.lists[l]
      ensures Waits(c.naive, c.jmps, x, c.naive.lists[l])
    {
      if l != k {
        WaitsExtends(b.naive, c.naive, b.jmps, c.jmps, x, b.naive.lists[l], c.naive.lists[l]);
      } else if x == k {
        WaitsSelf(c.naive, c.jmps, x, c.naive.lists[l]);
      } else {
        assert x in b.threaded.pending;
        WaitsThreads(b.naive, c.naive, b.jmps, x, b.naive.pending, k);
      }
    }
  }

  lemma ConcatSim(b: Both, op: Op)
    requires Sim(b) && BothOk(b, op) && op.ConcatOp?
    requires PlanOk(Step(b.threaded, op)) && PlanOk(NaiveStep(b.naive, op)) && Extends(b.naive, NaiveStep(b.naive, op))
    ensures Sim(BothStep(b, op))
  {
    var c := BothStep(b, op);
    forall x | x in c.threaded.target ensures Arrives(c.naive, c.jmps, x, c.threaded.target[x]) {
      ArrivesExtends(b.naive, c.naive, b.jmps, c.jmps, x, b.threaded.target[x]);
    }
    forall x | x in c.threaded.pending ensures Waits(c.naive, c.jmps, x, c.naive.pending) {
      WaitsExtends(b.naive, c.naive, b.jmps, c.jmps, x, b.naive.pending, c.naive.pending);
    }
    forall l, x | l in c.threaded.lists && x in c.threaded.lists[l]
      ensures Waits(c.naive, c.jmps, x, c.naive.lists[l])
    {
      var m := if x in b.threaded.lists[l] then l else op.l2;
      WaitsExtends(b.naive, c.naive, b.jmps, c.jmps, x, b.naive.lists[m], c.naive.lists[l]);
    }
  }

  lemma HereSim(b: Both, op: Op)
    requires Sim(b) && BothOk(b, op) && op.HereOp?
    requires PlanOk(Step(b.threaded, op)) && PlanOk(NaiveStep(b.naive, op)) && Extends(b.naive, NaiveStep(b.naive, op))
    ensures Sim(BothStep(b, op))
  {
    HereSimAt(b, BothStep(b, op), op.l);
  }

  lemma HereSimAt(b: Both, c: Both, l: int)
    requires Sim(b) && IsList(b.threaded, l) && IsList(b.naive, l)
    requires c == Both(PlanPatchToHere(b.threaded, l), PlanPatchToHere(b.naive, l), b.jmps)
    requires PlanOk(c.threaded) && PlanOk(c.naive) && Extends(b.naive, c.naive)
    ensures Sim(c)
  {
    forall x | x in c.threaded.target ensures Arrives(c.naive, c.jmps, x, c.threaded.target[x]) {
      ArrivesExtends(b.naive, c.naive, b.jmps, c.jmps, x, b.threaded.target[x]);
    }
    forall x | x in c.threaded.pending ensures Waits(c.naive, c.jmps, x, c.naive.pending) {
      WaitsExtends(b.naive, c.naive, b.jmps, c.jmps, x,
                   if x in b.threaded.pending then b.naive.pending else ElemsOf(b.naive, l), c.naive.pending);
    }
    forall m, x | m in c.threaded.lists && x in c.threaded.lists[m]
      ensures Waits(c.naive, c.jmps, x, c.naive.lists[m])
    {
      WaitsExtends(b.naive, c.naive, b.jmps, c.jmps, x, b.naive.lists[m], c.naive.lists[m]);
    }
  }

  lemma PatchSim(b: Both, op: Op)
    requires Sim(b) && BothOk(b, op) && op.PatchOp?
    requires PlanOk(Step(b.threaded, op)) && PlanOk(NaiveStep(b.naive, op)) && Extends(b.naive, NaiveStep(b.naive, op))
    ensures Sim(BothStep(b, op))
  {
    var c := BothStep(b, op);
    if op.dest == b.threaded.pc {
      HereSimAt(b, c, op.l);
    } else {
      forall x | x in c.threaded.target ensures Arrives(c.naive, c.jmps, x, c.threaded.target[x]) {
        if x in ElemsOf(b.threaded, op.l) {
          WaitsArrives(b.naive, c.naive, b.jmps, c.jmps, x, ElemsOf(b.naive, op.l), op.dest);
        } else {
          ArrivesExtends(b.naive, c.naive, b.jmps, c.jmps, x, b.threaded.target[x]);
        }
      }
      forall x | x in c.threaded.pending ensures Waits(c.naive, c.jmps, x, c.naive.pending) {
        WaitsExtends(b.naive, c.naive, b.jmps, c.jmps, x, b.naive.pending, c.naive.pending);
      }
      forall m, x | m in c.threaded.lists && x in c.threaded.lists[m]
        ensures Waits(c.naive, c.jmps, x, c.naive.lists[m])
      {
        WaitsExtends(b.naive, c.naive, b.jmps, c.jmps, x, b.naive.lists[m], c.naive.lists[m]);
      }
    }
  }

  lemma TestsSim(b: Both, op: Op)
    requires Sim(b) && BothOk(b, op) && op.TestsOp?
    requires PlanOk(Step(b.threaded, op)) && PlanOk(NaiveStep(b.naive, op)) && Extends(b.naive, NaiveStep(b.naive, op))
    ensures Sim(BothStep(b, op))
  {
    var c := BothStep(b, op);
    forall x | x in c.threaded.target ensures Arrives(c.naive, c.jmps, x, c.threaded.target[x]) {
      if x in ElemsOf(b.threaded, op.l) {
        assert c.naive.target[x] == c.threaded.target[x];
        assert Leads(c.naive, c.jmps, [x], x) && Last([x]) == x;
      } else {
        ArrivesExtends(b.naive, c.naive, b.jmps, c.jmps, x, b.threaded.target[x]);
      }
    }
    forall x | x in c.threaded.pending ensures Waits(c.naive, c.jmps, x, c.naive.pending) {
      WaitsExtends(b.naive, c.naive, b.jmps, c.jmps, x, b.naive.pending, c.naive.pending);
    }
    forall m, x | m in c.threaded.lists && x in c.threaded.lists[m]
      ensures Waits(c.naive, c.jmps, x, c.naive.lists[m])
    {
      WaitsExtends(b.naive, c.naive, b.jmps, c.jmps, x, b.naive.lists[m], c.naive.lists[m]);
    }
  }

  // ---------- whole runs ----------

  /** `ops` can be carried out one after the other from the empty function, ending in `b`. */
  ghost predicate Generates(ops: seq<Op>, b: Both) {
    if ops == [] then b == Start
    else
      var last := ops[|ops| - 1];
      exists a :: Generates(ops[..|ops| - 1], a) && BothOk(a, last) && b == BothStep(a, last)
  }

  /** After any sequence of operations, each finished jump of the real generator leads where the
      naive one arrives, and the jumps of a list wait for jumps of the same naive list. */
  lemma {:induction false} RunSim(ops: seq<Op>, b: Both)
    requires Generates(ops, b)
    ensures Sim(b)
  {
    if ops != [] {
      var last := ops[|ops| - 1];
      var a :| Generates(ops[..|ops| - 1], a) && BothOk(a, last) && b == BothStep(a, last);
      RunSim(ops[..|ops| - 1], a);
      StepSim(a, last);
    }
  }

  /** Threading preserves meaning: wherever a finished jump of the generated code leads, control
      that takes the naive jump gets to the same place through unconditional jumps only. */
  lemma ThreadingPreservesMeaning(ops: seq<Op>, b: Both, code: Code, jpc: int, x: int)
    requires Generates(ops, b) && Follows(code, jpc, b.threaded) && x in b.threaded.target
    ensures IsJump(code, x) && Arrives(b.naive, b.jmps, x, Destination(code, x))
  {
    RunSim(ops, b);
  }

  // ---------- no jump is left over ----------

  predicate IsInstruction(op: Op) {
    op == EmitOp || op == LooseOp || op == JumpOp
  }

  predicate IsJumpOp(op: Op) {
    op == JumpOp || op == LooseOp
  }

  /** The length of the code that the operations generate. */
  function Emitted(ops: seq<Op>): nat {
    if ops == [] then 0 else Emitted(ops[..|ops| - 1]) + (if IsInstruction(ops[|ops| - 1]) then 1 else 0)
  }

  /** The positions of its jumps. */
  function JumpsOf(ops: seq<Op>): set<int> {
    if ops == [] then {}
    else
      var last, before := ops[|ops| - 1], ops[..|ops| - 1];
      JumpsOf(before) + (if IsJumpOp(last) then {Emitted(before)} else {})
  }

  /** Every jump is finished, pending, or in a list; what is, is a jump. */
  ghost predicate Accounts(a: Plan, jumps: set<int>) {
    forall x :: x in jumps <==> x in a.target || x in a.pending || InSomeList(a, x)
  }

  lemma StepAccounts(a: Plan, op: Op, jumps: set<int>)
    requires PlanOk(a) && OpOk(a, op) && Accounts(a, jumps)
    ensures Accounts(Step(a, op), if IsJumpOp(op) then jumps + {a.pc} else jumps)
    ensures Step(a, op).pc == a.pc + if IsInstruction(op) then 1 else 0
  {
    var b := Step(a, op);
    forall x
      ensures x in jumps || (IsJumpOp(op) && x == a.pc) <==> x in b.target || x in b.pending || InSomeList(b, x)
    {
      if x in jumps || (IsJumpOp(op) && x == a.pc) { StepKeepsJump(a, op, x); }
      if x in b.target || x in b.pending || InSomeList(b, x) { StepMakesJump(a, op, x); }
    }
  }

  lemma StepKeepsJump(a: Plan, op: Op, x: int)
    requires PlanOk(a) && OpOk(a, op)
    requires x in a.target || x in a.pending || InSomeList(a, x) || (IsJumpOp(op) && x == a.pc)
    ensures var b := Step(a, op); x in b.target || x in b.pending || InSomeList(b, x)
  {
    var b := Step(a, op);
    if l :| l in a.lists && x in a.lists[l] {
      StepKeeps(a, op, l, x);
    } else if op == JumpOp && x in a.pending {
      assert x in b.lists[a.pc];
    } else if IsJumpOp(op) && x == a.pc {
      assert x in b.lists[a.pc];
    }
  }

  lemma StepMakesJump(a: Plan, op: Op, x: int)
    requires PlanOk(a) && OpOk(a, op)
    requires var b := Step(a, op); x in b.target || x in b.pending || InSomeList(b, x)
    ensures x in a.target || x in a.pending || InSomeList(a, x) || (IsJumpOp(op) && x == a.pc)
  {
    var b := Step(a, op);
    if l :| l in b.lists && x in b.lists[l] {
      if op.ConcatOp? && l == op.l1 && op.l2 != NO_JUMP {
        assert x in a.lists[op.l1] || x in a.lists[op.l2];
      } else if !(IsJumpOp(op) && l == a.pc) {
        assert l in a.lists && x in a.lists[l];
      }
    }
  }

  lemma StepKeeps(a: Plan, op: Op, l: int, x: int)
    requires PlanOk(a) && OpOk(a, op) && l in a.lists && x in a.lists[l]
    ensures var b := Step(a, op); InSomeList(b, x) || x in b.pending || x in b.target
  {
    var b := Step(a, op);
    if op.ConcatOp? && l == op.l2 && op.l1 != NO_JUMP {
      assert x in b.lists[op.l1];
    } else if l in b.lists {
      assert x in b.lists[l];
    }
  }

  lemma {:induction false} RunAccounts(ops: seq<Op>, b: Both)
    requires Generates(ops, b)
    ensures b.threaded.pc == Emitted(ops) && Accounts(b.threaded, JumpsOf(ops))
  {
    if ops != [] {
      var last := ops[|ops| - 1];
      var a :| Generates(ops[..|ops| - 1], a) && BothOk(a, last) && b == BothStep(a, last);
      RunAccounts(ops[..|ops| - 1], a);
      RunPlanOk(ops[..|ops| - 1], a);
      StepAccounts(a.threaded, last, JumpsOf(ops[..|ops| - 1]));
    }
  }

  lemma RunPlanOk(ops: seq<Op>, b: Both)
    requires Generates(ops, b)
    ensures PlanOk(b.threaded)
  {
    RunSim(ops, b);
  }

  /** When a run ends with an instruction that is no jump and the parser has given up all its lists, the
      jumps of the code are exactly those that were generated, each leads into the code, and to where
      control arrives that takes the naive jump. */
  lemma NoJumpLeftOver(ops: seq<Op>, b: Both, code: Code, jpc: int, x: int)
    requires Generates(ops, b) && Follows(code, jpc, b.threaded)
    requires ops != [] && ops[|ops| - 1] == EmitOp && b.threaded.lists == map[]
    ensures |code| == Emitted(ops) && (IsJump(code, x) <==> x in JumpsOf(ops))
    ensures x in JumpsOf(ops) ==>
              0 <= Destination(code, x) <= |code| && Arrives(b.naive, b.jmps, x, Destination(code, x))
  {
    RunAccounts(ops, b);
    assert b.threaded.pending == [];
    if IsJump(code, x) { ThreadingPreservesMeaning(ops, b, code, jpc, x); }
  }

  // ---------- where each jump leads, read off the operations ----------

  /** What has become of one jump: it is in the list of `l`, it leads to the next instruction, whichever
      that will be, or it has got its destination. */
  datatype Fate = Unborn | Listed(l: int) | AtNext | LeadsTo(dest: int)

  /** The fate of the jump at `x` after the operation `op`, when the code has `pc` instructions before it.
      With threading a new unconditional jump takes those that lead to the next instruction into its list. */
  function Then(f: Fate, op: Op, pc: int, x: int, threading: bool): Fate {
    match f
    case Unborn => if IsJumpOp(op) && pc == x then Listed(x) else Unborn
    case Listed(l) => (
      match op
      case ConcatOp(l1, l2) => if l == l2 && l1 != NO_JUMP then Listed(l1) else f
      case HereOp(m) => if l == m then AtNext else f
      case PatchOp(m, dest) => if l != m then f else if dest == pc then AtNext else LeadsTo(dest)
      case TestsOp(m, values, vtarget, dtarget) =>
        if l != m then f else LeadsTo(if x in values then vtarget else dtarget)
      case _ => f)
    case AtNext => if threading && op == JumpOp then Listed(pc) else if IsInstruction(op) then LeadsTo(pc) else AtNext
    case LeadsTo(_) => f
  }

  function FateOf(ops: seq<Op>, x: int, threading: bool): Fate {
    if ops == [] then Unborn
    else Then(FateOf(ops[..|ops| - 1], x, threading), ops[|ops| - 1], Emitted(ops[..|ops| - 1]), x, threading)
  }

  /** The plan says the same of the jump. */
  ghost predicate Shows(a: Plan, x: int, f: Fate) {
    match f
    case Unborn => x !in a.target && x !in a.pending && !InSomeList(a, x)
    case Listed(l) => x !in a.target && x !in a.pending && l in a.lists && x in a.lists[l]
    case AtNext => x !in a.target && x in a.pending && !InSomeList(a, x)
    case LeadsTo(dest) => x in a.target && a.target[x] == dest && x !in a.pending && !InSomeList(a, x)
  }

  lemma StepShows(a: Plan, op: Op, x: int, f: Fate)
    requires PlanOk(a) && OpOk(a, op) && Shows(a, x, f)
    ensures Shows(Step(a, op), x, Then(f, op, a.pc, x, true))
    ensures Shows(NaiveStep(a, op), x, Then(f, op, a.pc, x, false))
  {
    if IsInstruction(op) { EmitShows(a, op, x, f); } else { ListShows(a, op, x, f); }
  }

  lemma EmitShows(a: Plan, op: Op, x: int, f: Fate)
    requires PlanOk(a) && Shows(a, x, f) && IsInstruction(op)
    ensures Shows(Step(a, op), x, Then(f, op, a.pc, x, true))
    ensures Shows(NaiveStep(a, op), x, Then(f, op, a.pc, x, false))
  {
    match op
    case EmitOp =>
    case LooseOp =>
    case JumpOp =>
  }

  lemma ListShows(a: Plan, op: Op, x: int, f: Fate)
    requires PlanOk(a) && OpOk(a, op) && Shows(a, x, f) && !IsInstruction(op)
    ensures Shows(Step(a, op), x, Then(f, op, a.pc, x, true))
    ensures Shows(Step(a, op), x, Then(f, op, a.pc, x, false))
  {
    match op
    case ConcatOp(_, _) =>
    case HereOp(_) =>
    case PatchOp(_, _) =>
    case TestsOp(_, _, _, _) =>
  }

  lemma {:induction false} RunShows(ops: seq<Op>, b: Both, x: int)
    requires Generates(ops, b)
    ensures Shows(b.threaded, x, FateOf(ops, x, true)) && Shows(b.naive, x, FateOf(ops, x, false))
  {
    if ops != [] {
      var before, last := ops[..|ops| - 1], ops[|ops| - 1];
      var a :| Generates(before, a) && BothOk(a, last) && b == BothStep(a, last);
      RunShows(before, a, x);
      RunSim(before, a);
      RunAccounts(before, a);
      StepShows(a.threaded, last, x, FateOf(before, x, true));
      StepShows(a.naive, last, x, FateOf(before, x, false));
    }
  }

  /** Where each jump of the generated code leads can be read off the operations: to where the operation
      that finished its list sent it, or to the instruction emitted after it had been told to lead to the
      next one.  Until then it is in the list that the operations have put it in.  The naive generator is
      fixed in the same way. */
  lemma JumpsLeadAsTold(ops: seq<Op>, b: Both, code: Code, jpc: int, x: int)
    requires Generates(ops, b) && Follows(code, jpc, b.threaded)
    ensures IsJump(code, x) <==> FateOf(ops, x, true) != Unborn
    ensures match FateOf(ops, x, true)
            case Unborn => true
            case Listed(l) => exists es :: JumpList(code, l, es) && x in es
            case AtNext => exists es :: JumpList(code, jpc, es) && x in es
            case LeadsTo(dest) => Destination(code, x) == dest
    ensures x in b.naive.target <==> FateOf(ops, x, false).LeadsTo?
    ensures x in b.naive.target ==> b.naive.target[x] == FateOf(ops, x, false).dest
  {
    RunShows(ops, b, x);
    match FateOf(ops, x, true)
    case Listed(l) =>
      assert JumpList(code, l, b.threaded.lists[l]);
      ListFacts(code, l, b.threaded.lists[l]);
    case AtNext =>
      assert JumpList(code, jpc, b.threaded.pending);
      ListFacts(code, jpc, b.threaded.pending);
    case _ =>
  }
}
