/** The code generator's operations on jump lists (lcode.c), in place on the instruction
    vector, against a plan that says which jump belongs to which list and which finished jump
    leads where. */
module JumpCoder {
  import opened JumpLists

  // ---------- the plan ----------

  /** `lists` are the lists held by the parser, by their heads; `pending` the jumps to the next
      instruction; `target` the destinations of the finished jumps. */
  datatype Plan = Plan(pc: nat, lists: map<int, seq<int>>, pending: seq<int>, target: map<int, int>)

  function Resolve(t: map<int, int>, es: seq<int>, dest: int): (r: map<int, int>) {
    t + map x | x in es :: dest
  }

  predicate IsList(a: Plan, l: int) {
    l == NO_JUMP || l in a.lists
  }

  function ElemsOf(a: Plan, l: int): seq<int>
    requires IsList(a, l)
  {
    if l == NO_JUMP then [] else a.lists[l]
  }

  /** The parser gives the list up. */
  function Forget(a: Plan, l: int): Plan {
    if l == NO_JUMP then a else a.(lists := a.lists - {l})
  }

  /** An instruction that is no jump: pending jumps lead to it. */
  function PlanEmit(a: Plan): Plan {
    Plan(a.pc + 1, a.lists, [], Resolve(a.target, a.pending, a.pc))
  }

  /** A jump emitted for its own sake (OP_FORPREP, OP_FORLOOP): pending jumps lead to it. */
  function PlanEmitLoose(a: Plan): Plan {
    PlanEmit(a).(lists := a.lists[a.pc := [a.pc]])
  }

  /** luaK_jump: pending jumps join the list of the new one. */
  function PlanJump(a: Plan): Plan {
    Plan(a.pc + 1, a.lists[a.pc := [a.pc] + a.pending], [], a.target)
  }

  function PlanConcat(a: Plan, l1: int, l2: int): Plan
    requires IsList(a, l1) && IsList(a, l2)
  {
    if l2 == NO_JUMP || l1 == NO_JUMP then a
    else Forget(a, l2).(lists := (a.lists - {l2})[l1 := a.lists[l1] + a.lists[l2]])
  }

  function PlanPatchToHere(a: Plan, l: int): Plan
    requires IsList(a, l)
  {
    Forget(a, l).(pending := a.pending + ElemsOf(a, l))
  }

  function PlanPatchList(a: Plan, l: int, dest: int): Plan
    requires IsList(a, l)
  {
    if dest == a.pc then PlanPatchToHere(a, l)
    else Forget(a, l).(target := Resolve(a.target, ElemsOf(a, l), dest))
  }

  /** Where the jumps `es` lead when those in `values` produce a value. */
  function ResolveTests(t: map<int, int>, es: seq<int>, values: set<int>, vtarget: int, dtarget: int)
    : (r: map<int, int>)
  {
    t + map x | x in es :: if x in values then vtarget else dtarget
  }

  /** patchlistaux with two targets, as exp2reg uses it. */
  function PlanPatchTests(a: Plan, l: int, values: set<int>, vtarget: int, dtarget: int): Plan
    requires IsList(a, l)
  {
    Forget(a, l).(target := ResolveTests(a.target, ElemsOf(a, l), values, vtarget, dtarget))
  }

  // ---------- the instructions follow the plan ----------

  predicate InSomeList(a: Plan, x: int) {
    exists l :: l in a.lists && x in a.lists[l]
  }

  /** Lists held by the parser are non-empty, disjoint, and hold only unfinished jumps. */
  ghost predicate Disjoint(a: Plan) {
    && (forall l :: l in a.lists ==> a.lists[l] != [])
    && (forall l, x :: l in a.lists && x in a.lists[l] ==> x !in a.pending && x !in a.target)
    && (forall l, m, x :: l in a.lists && m in a.lists && l != m && x in a.lists[l] ==> x !in a.lists[m])
    && (forall x :: x in a.pending ==> x !in a.target)
  }

  /** Finished jumps lead to their destinations, which are in the code or just behind it. */
  ghost predicate Lead(code: Code, t: map<int, int>) {
    forall x :: x in t ==> IsJump(code, x) && Destination(code, x) == t[x] && 0 <= t[x] <= |code|
  }

  ghost predicate Follows(code: Code, jpc: int, a: Plan) {
    && a.pc == |code|
    && Disjoint(a)
    && JumpList(code, jpc, a.pending)
    && (forall l :: l in a.lists ==> JumpList(code, l, a.lists[l]))
    && Lead(code, a.target)
    && (forall x :: IsJump(code, x) ==> x in a.target || x in a.pending || InSomeList(a, x))
  }

  /** Growing the code, and rewriting what is no jump, disturbs neither lists nor targets. */
  lemma FollowsFrame(code: Code, code': Code, jpc: int, es: seq<int>)
    requires JumpList(code, jpc, es) && |code| <= |code'|
    requires forall x :: IsJump(code, x) ==> code'[x] == code[x]
    ensures JumpList(code', jpc, es)
  {
    ListFacts(code, jpc, es);
    ListFrame(code, code', jpc, es);
  }

  /** Patching a list that nobody else holds leaves all other lists alone. */
  lemma PatchFollows(code: Code, l: int, es: seq<int>, vtarget: int, reg: int, dtarget: int, m: int, fs: seq<int>)
    requires JumpList(code, l, es) && JumpList(code, m, fs) && forall x :: x in fs ==> x !in es
    ensures (forall x :: x in es ==> IsJump(code, x))
    ensures JumpList(PatchAll(code, es, vtarget, reg, dtarget), m, fs)
  {
    ListFacts(code, l, es);
    ListDistinct(code, l, es);
    PatchAllFacts(code, es, vtarget, reg, dtarget);
    ListFacts(code, m, fs);
    ListFrame(code, PatchAll(code, es, vtarget, reg, dtarget), m, fs);
  }

  /** The jumps of the list whose test produces a value. */
  function Values(code: Code, es: seq<int>): set<int>
    requires forall x :: x in es ==> IsJump(code, x)
  {
    set x | x in es && HasValue(code, x)
  }

  /** The destinations are positions, the next one included; there is a default one unless every jump
      produces a value. */
  predicate Targets(code: Code, es: seq<int>, vtarget: int, dtarget: int)
    requires forall x :: x in es ==> IsJump(code, x)
  {
    0 <= vtarget <= |code| && (0 <= dtarget <= |code| || forall x :: x in es ==> HasValue(code, x))
  }

  /** Finishing the jumps `es`, which no list of `b` holds. */
  lemma TestsFollow(code: Code, jpc: int, a: Plan, l: int, es: seq<int>, vtarget: int, reg: int, dtarget: int,
      jpc': int, b: Plan)
    requires Follows(code, jpc, a) && JumpList(code, l, es)
    requires forall x :: x in es ==> IsJump(code, x) && x !in a.target
    requires Targets(code, es, vtarget, dtarget)
    requires b == a.(lists := b.lists, pending := b.pending,
                     target := ResolveTests(a.target, es, Values(code, es), vtarget, dtarget))
    requires Disjoint(b) && JumpList(code, jpc', b.pending)
             && (forall m :: m in b.lists ==> JumpList(code, m, b.lists[m]))
    requires forall x :: x in a.pending || InSomeList(a, x) ==> x in es || x in b.pending || InSomeList(b, x)
    ensures Follows(PatchAll(code, es, vtarget, reg, dtarget), jpc', b)
  {
    var c := PatchAll(code, es, vtarget, reg, dtarget);
    ListDistinct(code, l, es);
    TestsTargets(code, a.target, es, vtarget, reg, dtarget);
    assert forall x :: x in es ==> x in b.target;
    PatchFollows(code, l, es, vtarget, reg, dtarget, jpc', b.pending);
    forall m | m in b.lists ensures JumpList(c, m, b.lists[m]) {
      PatchFollows(code, l, es, vtarget, reg, dtarget, m, b.lists[m]);
    }
  }

  lemma TestsTargets(code: Code, t: map<int, int>, es: seq<int>, vtarget: int, reg: int, dtarget: int)
    requires Lead(code, t) && (forall x :: x in es ==> IsJump(code, x) && x !in t)
    requires forall i, j :: 0 <= i < j < |es| ==> es[i] != es[j]
    requires Targets(code, es, vtarget, dtarget)
    ensures Lead(PatchAll(code, es, vtarget, reg, dtarget), ResolveTests(t, es, Values(code, es), vtarget, dtarget))
  {
    PatchAllFacts(code, es, vtarget, reg, dtarget);
  }

  /** The same with one destination for all. */
  lemma ResolveFollows(code: Code, jpc: int, a: Plan, l: int, es: seq<int>, dest: int, jpc': int, b: Plan)
    requires Follows(code, jpc, a) && JumpList(code, l, es) && 0 <= dest <= |code|
    requires b == a.(lists := b.lists, pending := b.pending, target := Resolve(a.target, es, dest))
    requires forall x :: x in es ==> x !in a.target
    requires Disjoint(b) && JumpList(code, jpc', b.pending)
             && (forall m :: m in b.lists ==> JumpList(code, m, b.lists[m]))
    requires forall x :: x in a.pending || InSomeList(a, x) ==> x in es || x in b.pending || InSomeList(b, x)
    ensures forall x :: x in es ==> IsJump(code, x)
    ensures Follows(PatchAll(code, es, dest, NO_REG, dest), jpc', b)
  {
    ListFacts(code, l, es);
    OneTarget(a.target, es, Values(code, es), dest);
    TestsFollow(code, jpc, a, l, es, dest, NO_REG, dest, jpc', b);
  }

  lemma OneTarget(t: map<int, int>, es: seq<int>, values: set<int>, dest: int)
    ensures ResolveTests(t, es, values, dest, dest) == Resolve(t, es, dest)
  {
    assert (map x | x in es :: if x in values then dest else dest) == (map x | x in es :: dest);
  }

  /** All of `es` are jumps that lead to `dest`. */
  predicate AllLeadTo(code: Code, es: seq<int>, dest: int) {
    forall x :: x in es ==> 0 <= x < |code| && code[x].AsBx? && x + 1 + code[x].sbx == dest
  }

  /** The instructions are the same but for offsets of jumps. */
  predicate OnlyOffsets(before: Code, code: Code) {
    && |before| <= |code|
    && forall x :: 0 <= x < |before| ==>
         code[x] == if before[x].ABC? then before[x] else AsBx(before[x].op, before[x].a, Offset(code[x]))
  }

  function Offset(i: Instruction): int {
    if i.AsBx? then i.sbx else 0
  }

  /** Heads determine their lists, so that what holds of two lists holds of all lists with their heads. */
  lemma Joined(before: Code, code: Code, l1: int, es1: seq<int>, l2: int, es2: seq<int>, l: int)
    requires JumpList(before, l1, es1) && JumpList(before, l2, es2) && JumpList(code, l, es1 + es2)
    ensures forall es, fs :: JumpList(before, l1, es) && JumpList(before, l2, fs) ==> JumpList(code, l, es + fs)
  {
    OnlyList(before, l1, es1);
    OnlyList(before, l2, es2);
  }

  lemma PatchedLead(before: Code, code: Code, es: seq<int>, dest: int)
    requires Patched(before, code, es, dest, NO_REG, dest)
    ensures AllLeadTo(code, es, dest)
  {
    forall x | x in es ensures 0 <= x < |code| && code[x].AsBx? && x + 1 + code[x].sbx == dest {
      assert PatchedAt(before, code, es, x, dest, NO_REG, dest);
    }
  }

  class FuncState {
    var code: Code
    var jpc: int
    var lasttarget: int
    ghost var plan: Plan

    ghost predicate Valid()
      reads this
    {
      Follows(code, jpc, plan)
    }

    constructor ()
      ensures Valid() && code == [] && plan == Plan(0, map[], [], map[])
    {
      code, jpc, lasttarget := [], NO_JUMP, 0;
      plan := Plan(0, map[], [], map[]);
    }

    /** fixjump (lcode.c:103-110) without its error: the length of the code keeps offsets in range. */
    method FixJump(pc: int, dest: int)
      requires IsJump(code, pc) && -MAXARG_SBX <= dest - (pc + 1) <= MAXARG_SBX
      modifies this`code
      ensures code == JumpLists.FixJump(old(code), pc, dest)
    {
      var offset := dest - (pc + 1);
      code := code[pc := code[pc].(sbx := offset)];
    }

    /** The loop of luaK_concat (lcode.c:121-124): the last element of a list. */
    method FindLast(l: int, ghost es: seq<int>) returns (list: int)
      requires JumpList(code, l, es) && es != []
      ensures list == es[|es| - 1]
    {
      list := l;
      ghost var i := 0;
      ListFacts(code, l, es);
      var next := GetJump(code, list);
      assert es[0..] == es;
      while next != NO_JUMP
        invariant 0 <= i < |es| && JumpList(code, list, es[i..])
        invariant IsJump(code, list) && next == GetJump(code, list)
        decreases |es| - i
      {
        assert es[i..][1..] == es[i + 1..];
        list := next;
        i := i + 1;
        next := GetJump(code, list);
      }
      assert es[i..][1..] == es[i + 1..];
    }

    /** patchlistaux (lcode.c:224-234). */
    method PatchListAux(l: int, vtarget: int, reg: int, dtarget: int, ghost es: seq<int>)
      requires JumpList(code, l, es) && (forall x :: x in es ==> IsJump(code, x))
      requires Targets(code, es, vtarget, dtarget) && |code| <= MAXARG_SBX
      modifies this`code
      ensures forall x :: x in es ==> IsJump(old(code), x)
      ensures code == PatchAll(old(code), es, vtarget, reg, dtarget)
      ensures Patched(old(code), code, es, vtarget, reg, dtarget)
    {
      ListFacts(code, l, es);
      ListDistinct(code, l, es);
      PatchAllExact(code, es, vtarget, reg, dtarget);
      var list := l;
      ghost var rest := es;
      while list != NO_JUMP
        invariant JumpList(code, list, rest) && |code| == |old(code)|
        invariant forall x :: x in rest ==> IsJump(code, x)
        invariant Targets(code, rest, vtarget, dtarget)
        invariant PatchAll(code, rest, vtarget, reg, dtarget) == PatchAll(old(code), es, vtarget, reg, dtarget)
        decreases |rest|
      {
        var next := GetJump(code, list);
        PatchOneFacts(code, list, vtarget, reg, dtarget);
        PatchRest(code, list, rest, vtarget, reg, dtarget);
        var value := PatchTestReg(list, reg);
        FixJump(list, if value then vtarget else dtarget);
        list := next;
        rest := rest[1..];
      }
    }

    /** patchtestreg (lcode.c:195-207). */
    method PatchTestReg(node: int, reg: int) returns (value: bool)
      requires IsJump(code, node)
      modifies this`code
      ensures value == HasValue(old(code), node) && code == JumpLists.PatchTestReg(old(code), node, reg)
      ensures |code| == |old(code)| && IsJump(code, node)
      ensures value <==> node > 0 && IsTestSet(old(code)[node - 1])
      ensures value ==> code[node - 1] == (var i := old(code)[node - 1];
                if reg == NO_REG || reg == i.b then ABC(Test, i.b, 0, i.c) else ABC(TestSet, reg, i.b, i.c))
      ensures forall x :: 0 <= x < |code| && !(value && x == node - 1) ==> code[x] == old(code)[x]
    {
      var i := if node >= 1 && IsTest(code[node - 1]) then node - 1 else node;
      if !(code[i].ABC? && code[i].op == TestSet) {
        return false;
      }
      var b, c := code[i].b, code[i].c;
      if reg != NO_REG && reg != b {
        code := code[i := ABC(TestSet, reg, b, c)];
      } else {
        code := code[i := ABC(Test, b, 0, c)];
      }
      value := true;
    }

    /** dischargejpc (lcode.c:242-245): the pending jumps lead to the next instruction. */
    method DischargeJpc()
      requires Valid() && |code| <= MAXARG_SBX
      modifies this`code, this`jpc, this`plan
      ensures Valid() && jpc == NO_JUMP && |code| == |old(code)|
      ensures plan == old(plan).(pending := [], target := Resolve(old(plan).target, old(plan).pending, |old(code)|))
      ensures forall es :: JumpList(old(code), old(jpc), es) ==>
                Patched(old(code), code, es, |code|, NO_REG, |code|)
    {
      ghost var a := plan;
      ListFacts(code, jpc, a.pending);
      ListDistinct(code, jpc, a.pending);
      OnlyList(code, jpc, a.pending);
      PatchListAux(jpc, |code|, NO_REG, |code|, a.pending);
      plan := a.(pending := [], target := Resolve(a.target, a.pending, |code|));
      ResolveFollows(old(code), jpc, a, jpc, a.pending, |code|, NO_JUMP, plan);
      jpc := NO_JUMP;
    }

    /** luaK_code (lcode.c:293-305) for an instruction that is no jump. */
    method Emit(i: Instruction) returns (pos: int)
      requires Valid() && |code| <= MAXARG_SBX && i.ABC?
      modifies this`code, this`jpc, this`plan
      ensures Valid() && pos == |old(code)| && |code| == pos + 1 && code[pos] == i
      ensures plan == PlanEmit(old(plan)) && jpc == NO_JUMP
      ensures forall es :: JumpList(old(code), old(jpc), es) ==>
                Patched(old(code), code[..pos], es, pos, NO_REG, pos)
    {
      DischargeJpc();
      ghost var before := code;
      code := code + [i];
      pos := |code| - 1;
      assert code[..pos] == before;
      ghost var a := plan;
      plan := a.(pc := a.pc + 1);
      AppendFollows(before, jpc, a, i);
    }

    /** luaK_codeAsBx with no destination yet, for OP_FORPREP and OP_FORLOOP. */
    method EmitLoose(op: OpCode, arg: int) returns (pos: int)
      requires Valid() && |code| <= MAXARG_SBX
      modifies this`code, this`jpc, this`plan
      ensures Valid() && pos == |old(code)| && |code| == pos + 1 && code[pos] == AsBx(op, arg, NO_JUMP)
      ensures plan == PlanEmitLoose(old(plan)) && jpc == NO_JUMP && JumpList(code, pos, [pos])
      ensures forall es :: JumpList(old(code), old(jpc), es) ==>
                Patched(old(code), code[..pos], es, pos, NO_REG, pos)
    {
      DischargeJpc();
      ghost var before := code;
      code := code + [AsBx(op, arg, NO_JUMP)];
      pos := |code| - 1;
      assert code[..pos] == before;
      ghost var a := plan;
      plan := a.(pc := a.pc + 1, lists := a.lists[pos := [pos]]);
      AppendJumpFollows(before, jpc, a, AsBx(op, arg, NO_JUMP));
    }

    /** The last branch of luaK_concat (lcode.c:119-126): the end of one list is linked to the head of another. */
    method Link(l1: int, l2: int)
      requires Valid() && l1 in plan.lists && l2 in plan.lists && l1 != l2 && |code| <= MAXARG_SBX
      modifies this`code, this`plan
      ensures Valid() && plan == PlanConcat(old(plan), l1, l2) && |code| == |old(code)|
      ensures JumpList(code, l1, old(plan).lists[l1] + old(plan).lists[l2]) && OnlyOffsets(old(code), code)
    {
      ghost var a := plan;
      var last := FindLast(l1, a.lists[l1]);
      ListFacts(code, l1, a.lists[l1]);
      ListFacts(code, l2, a.lists[l2]);
      FixJump(last, l2);
      plan := PlanConcat(a, l1, l2);
      ConcatFollows(old(code), jpc, a, l1, l2);
    }

    /** luaK_concat (lcode.c:116-127): returns the new value of `*l1`. */
    method Concat(l1: int, l2: int) returns (l: int)
      requires Valid() && IsList(plan, l1) && IsList(plan, l2) && (l1 != l2 || l1 == NO_JUMP) && |code| <= MAXARG_SBX
      modifies this`code, this`plan
      ensures Valid() && plan == PlanConcat(old(plan), l1, l2) && |code| == |old(code)|
      ensures l == if l1 == NO_JUMP then l2 else l1
      ensures forall es, fs :: JumpList(old(code), l1, es) && JumpList(old(code), l2, fs) ==> JumpList(code, l, es + fs)
      ensures OnlyOffsets(old(code), code)
    {
      ghost var es1, es2 := ElemsOf(plan, l1), ElemsOf(plan, l2);
      if l2 == NO_JUMP {
        l := l1;
        assert es1 + es2 == es1;
      } else if l1 == NO_JUMP {
        l := l2;
        assert es1 + es2 == es2;
      } else {
        Link(l1, l2);
        l := l1;
      }
      Joined(old(code), code, l1, es1, l2, es2, l);
    }

    /** luaK_jump (lcode.c:136-143): the jumps pending here join the list of the new jump. */
    method Jump() returns (j: int)
      requires Valid() && |code| < MAXARG_SBX
      modifies this`code, this`jpc, this`plan
      ensures Valid() && j == |old(code)| && |code| == j + 1 && plan == PlanJump(old(plan)) && jpc == NO_JUMP
      ensures forall es :: JumpList(old(code), old(jpc), es) ==> JumpList(code, j, [j] + es)
      ensures OnlyOffsets(old(code), code) && code[j].op == Jmp && code[j].a == 0
    {
      ghost var a := plan;
      OnlyList(code, jpc, a.pending);
      var saved := jpc;
      jpc := NO_JUMP;
      j := |code|;
      code := code + [AsBx(Jmp, 0, NO_JUMP)];
      ListFacts(old(code), saved, a.pending);
      if saved != NO_JUMP {
        ListFrame(old(code), code, saved, a.pending);
        ListJoin(code, j, [j], saved, a.pending);
        FixJump(j, saved);
      }
      plan := PlanJump(a);
      JumpFollows(old(code), saved, a, code);
    }

    /** luaK_patchtohere (lcode.c:252-255). */
    method PatchToHere(l: int)
      requires Valid() && IsList(plan, l) && |code| <= MAXARG_SBX
      modifies this`code, this`jpc, this`lasttarget, this`plan
      ensures Valid() && plan == PlanPatchToHere(old(plan), l) && |code| == |old(code)|
      ensures lasttarget == |code| && OnlyOffsets(old(code), code)
      ensures forall es, fs :: JumpList(old(code), old(jpc), es) && JumpList(old(code), l, fs) ==>
                JumpList(code, jpc, es + fs)
    {
      ghost var a := plan;
      OnlyList(code, jpc, a.pending);
      OnlyList(code, l, ElemsOf(a, l));
      ghost var c := code;
      ghost var here := jpc;
      lasttarget := |code|;
      ListFacts(code, jpc, a.pending);
      if l != NO_JUMP {
        ListFacts(code, l, a.lists[l]);
        if jpc == NO_JUMP {
          jpc := l;
        } else {
          var last := FindLast(jpc, a.pending);
          FixJump(last, l);
        }
      }
      plan := PlanPatchToHere(a, l);
      HereFollows(c, here, a, l, code, jpc);
    }

    /** luaK_patchlist (lcode.c:263-270); `dest` is not ahead of the code, as lcode.c asserts. */
    method PatchList(l: int, dest: int)
      requires Valid() && IsList(plan, l) && 0 <= dest <= |code| <= MAXARG_SBX
      modifies this`code, this`jpc, this`lasttarget, this`plan
      ensures Valid() && plan == PlanPatchList(old(plan), l, dest) && |code| == |old(code)|
      ensures dest < |code| ==> forall es :: JumpList(old(code), l, es) ==>
                AllLeadTo(code, es, dest) && Patched(old(code), code, es, dest, NO_REG, dest)
      ensures dest == |code| ==> OnlyOffsets(old(code), code)
      ensures lasttarget == if dest == |code| then dest else old(lasttarget)
      ensures dest == |code| ==> forall es, fs :: JumpList(old(code), old(jpc), es) && JumpList(old(code), l, fs) ==>
                JumpList(code, jpc, es + fs)
    {
      if dest == |code| {
        PatchToHere(l);
      } else {
        ghost var a := plan;
        OnlyList(code, l, ElemsOf(a, l));
        ListFacts(code, l, ElemsOf(a, l));
        ListDistinct(code, l, ElemsOf(a, l));
        PatchListAux(l, dest, NO_REG, dest, ElemsOf(a, l));
        PatchedLead(old(code), code, ElemsOf(a, l), dest);
        plan := PlanPatchList(a, l, dest);
        ForgetSome(a, l);
        ResolveFollows(old(code), jpc, a, l, ElemsOf(a, l), dest, jpc, plan);
      }
    }

    /** The calls of patchlistaux in exp2reg (lcode.c:690-691): tests that produce a value put it into
        `reg` and lead to `vtarget`, other jumps lead to `dtarget`. */
    method PatchTests(l: int, vtarget: int, reg: int, dtarget: int)
      requires Valid() && IsList(plan, l) && |code| <= MAXARG_SBX
      requires (forall x :: x in ElemsOf(plan, l) ==> IsJump(code, x))
               && Targets(code, ElemsOf(plan, l), vtarget, dtarget)
      modifies this`code, this`plan
      ensures Valid() && |code| == |old(code)|
      ensures plan == PlanPatchTests(old(plan), l, Values(old(code), ElemsOf(old(plan), l)), vtarget, dtarget)
      ensures forall es :: JumpList(old(code), l, es) ==> Patched(old(code), code, es, vtarget, reg, dtarget)
    {
      ghost var a := plan;
      ghost var es := ElemsOf(a, l);
      OnlyList(code, l, es);
      ListDistinct(code, l, es);
      PatchAllFacts(code, es, vtarget, reg, dtarget);
      PatchListAux(l, vtarget, reg, dtarget, es);
      plan := PlanPatchTests(a, l, Values(old(code), es), vtarget, dtarget);
      ForgetSome(a, l);
      TestsFollow(old(code), jpc, a, l, es, vtarget, reg, dtarget, jpc, plan);
    }
  }

  /** The rest of a list is still there when its head has been patched. */
  lemma PatchRest(code: Code, l: int, es: seq<int>, vtarget: int, reg: int, dtarget: int)
    requires JumpList(code, l, es) && es != []
    ensures IsJump(code, l)
    ensures var c := PatchOne(code, l, vtarget, reg, dtarget);
      JumpList(c, GetJump(code, l), es[1..]) && forall x :: x in es[1..] ==> IsJump(c, x)
  {
    PatchOneFacts(code, l, vtarget, reg, dtarget);
    ListFacts(code, GetJump(code, l), es[1..]);
    ListFrame(code, PatchOne(code, l, vtarget, reg, dtarget), GetJump(code, l), es[1..]);
  }

  lemma ForgetSome(a: Plan, l: int)
    requires IsList(a, l)
    ensures forall x :: InSomeList(a, x) ==> x in ElemsOf(a, l) || InSomeList(Forget(a, l), x)
  {
    forall x | InSomeList(a, x) ensures x in ElemsOf(a, l) || InSomeList(Forget(a, l), x) {
      var m :| m in a.lists && x in a.lists[m];
      if m != l { assert m in Forget(a, l).lists && x in Forget(a, l).lists[m]; }
    }
  }

  lemma AppendFollows(code: Code, jpc: int, a: Plan, i: Instruction)
    requires Follows(code, jpc, a) && i.ABC?
    ensures Follows(code + [i], jpc, a.(pc := a.pc + 1))
  {
    var b := a.(pc := a.pc + 1);
    FollowsFrame(code, code + [i], jpc, a.pending);
    forall l | l in a.lists ensures JumpList(code + [i], l, a.lists[l]) {
      FollowsFrame(code, code + [i], l, a.lists[l]);
    }
    forall x | IsJump(code + [i], x) ensures x in a.target || x in a.pending || InSomeList(b, x) {
      assert IsJump(code, x);
      assert InSomeList(a, x) ==> InSomeList(b, x);
    }
  }

  lemma ListsInside(code: Code, jpc: int, a: Plan, x: int)
    requires Follows(code, jpc, a)
    ensures x in a.pending ==> 0 <= x < |code|
    ensures forall l :: l in a.lists && x in a.lists[l] ==> 0 <= x < |code|
    ensures x in a.lists ==> 0 <= x < |code|
    ensures x in a.target ==> 0 <= x < |code|
  {
    ListFacts(code, jpc, a.pending);
    forall l | l in a.lists ensures (x in a.lists[l] ==> 0 <= x < |code|) && 0 <= l < |code| {
      ListFacts(code, l, a.lists[l]);
    }
  }

  lemma AppendJumpFollows(code: Code, jpc: int, a: Plan, i: Instruction)
    requires Follows(code, jpc, a) && i.AsBx? && i.sbx == NO_JUMP
    ensures Follows(code + [i], jpc, a.(pc := a.pc + 1, lists := a.lists[a.pc := [a.pc]]))
  {
    var c := code + [i];
    var b := a.(pc := a.pc + 1, lists := a.lists[a.pc := [a.pc]]);
    ListsInside(code, jpc, a, a.pc);
    FollowsFrame(code, c, jpc, a.pending);
    forall l | l in b.lists ensures JumpList(c, l, b.lists[l]) {
      if l != a.pc { FollowsFrame(code, c, l, a.lists[l]); }
    }
    forall x | IsJump(c, x) ensures x in b.target || x in b.pending || InSomeList(b, x) {
      if x == a.pc {
        assert b.lists[x] == [x];
      } else {
        assert IsJump(code, x);
        GrownLists(a, b, x);
      }
    }
  }

  lemma GrownLists(a: Plan, b: Plan, x: int)
    requires InSomeList(a, x) ==> exists l :: l in a.lists && x in a.lists[l]
    requires forall l :: l in a.lists ==> l in b.lists && b.lists[l] == a.lists[l]
    ensures InSomeList(a, x) ==> InSomeList(b, x)
  {
    if InSomeList(a, x) {
      var l :| l in a.lists && x in a.lists[l];
      assert l in b.lists;
    }
  }

  /** Linking the end of one owned list to another list leaves third lists and targets alone. */
  lemma LinkFrame(code: Code, jpc: int, a: Plan, last: int, l2: int)
    requires Follows(code, jpc, a) && IsJump(code, last) && last !in a.target
    ensures var c := FixJump(code, last, l2);
      && |c| == |code| && (forall x :: IsJump(c, x) <==> IsJump(code, x))
      && (forall x :: x in a.target ==> IsJump(c, x) && Destination(c, x) == a.target[x])
      && (last !in a.pending ==> JumpList(c, jpc, a.pending))
      && (forall l :: l in a.lists && last !in a.lists[l] ==> JumpList(c, l, a.lists[l]))
  {
    var c := FixJump(code, last, l2);
    if last !in a.pending { ListFrame(code, c, jpc, a.pending); }
    forall l | l in a.lists && last !in a.lists[l] ensures JumpList(c, l, a.lists[l]) {
      ListFrame(code, c, l, a.lists[l]);
    }
  }

  lemma ConcatFollows(code: Code, jpc: int, a: Plan, l1: int, l2: int)
    requires Follows(code, jpc, a) && l1 in a.lists && l2 in a.lists && l1 != l2
    ensures IsJump(code, a.lists[l1][|a.lists[l1]| - 1])
    ensures Follows(FixJump(code, a.lists[l1][|a.lists[l1]| - 1], l2), jpc, PlanConcat(a, l1, l2))
  {
    var b := PlanConcat(a, l1, l2);
    ListFacts(code, l1, a.lists[l1]);
    ListFacts(code, l2, a.lists[l2]);
    var last := a.lists[l1][|a.lists[l1]| - 1];
    assert last in a.lists[l1];
    ListJoin(code, l1, a.lists[l1], l2, a.lists[l2]);
    LinkFrame(code, jpc, a, last, l2);
    ConcatOwners(a, l1, l2);
    ConcatDisjoint(a, l1, l2);
  }

  lemma ConcatDisjoint(a: Plan, l1: int, l2: int)
    requires Disjoint(a) && l1 in a.lists && l2 in a.lists && l1 != l2
    ensures Disjoint(PlanConcat(a, l1, l2))
  {
    var b := PlanConcat(a, l1, l2);
    forall l, x | l in b.lists && x in b.lists[l]
      ensures l != l1 ==> x in a.lists[l]
      ensures l == l1 ==> x in a.lists[l1] || x in a.lists[l2]
    {
    }
  }

  lemma ConcatOwners(a: Plan, l1: int, l2: int)
    requires l1 in a.lists && l2 in a.lists && l1 != l2 && l1 != NO_JUMP && l2 != NO_JUMP
    ensures forall x :: InSomeList(a, x) ==> InSomeList(PlanConcat(a, l1, l2), x)
  {
    var b := PlanConcat(a, l1, l2);
    forall x | InSomeList(a, x) ensures InSomeList(b, x) {
      var l :| l in a.lists && x in a.lists[l];
      var k := if l == l2 then l1 else l;
      assert k in b.lists && x in b.lists[k];
    }
  }

  lemma JumpFollows(code: Code, jpc: int, a: Plan, c: Code)
    requires Follows(code, jpc, a) && |c| == |code| + 1 && c[..|code|] == code && c[|code|].AsBx?
    requires JumpList(c, a.pc, [a.pc] + a.pending)
    ensures Follows(c, NO_JUMP, PlanJump(a))
  {
    var b := PlanJump(a);
    ListsInside(code, jpc, a, a.pc);
    assert forall x :: 0 <= x < |code| ==> c[x] == c[..|code|][x];
    forall l | l in b.lists ensures JumpList(c, l, b.lists[l]) {
      if l != a.pc { FollowsFrame(code, c, l, a.lists[l]); }
    }
    JumpDisjoint(a);
    JumpOwners(code, jpc, a, c);
  }

  lemma JumpDisjoint(a: Plan)
    requires Disjoint(a) && a.pc !in a.lists && a.pc !in a.target
    requires forall l :: l in a.lists ==> a.pc !in a.lists[l]
    ensures Disjoint(PlanJump(a))
  {
  }

  lemma JumpOwners(code: Code, jpc: int, a: Plan, c: Code)
    requires Follows(code, jpc, a) && |c| == |code| + 1 && c[..|code|] == code
    requires a.pc !in a.lists
    ensures forall x :: IsJump(c, x) ==> x in a.target || InSomeList(PlanJump(a), x)
  {
    var b := PlanJump(a);
    forall x | IsJump(c, x) ensures x in a.target || InSomeList(b, x) {
      if x < |code| {
        assert c[x] == c[..|code|][x];
        assert IsJump(code, x);
        GrownLists(a, b, x);
      }
      if x == a.pc || x in a.pending { assert x in b.lists[a.pc]; }
    }
  }

  lemma HereFollows(code: Code, here: int, a: Plan, l: int, c: Code, jpc: int)
    requires Follows(code, here, a) && IsList(a, l)
    requires a.pending == [] <==> here == NO_JUMP
    requires l == NO_JUMP ==> c == code && jpc == here
    requires l != NO_JUMP && here == NO_JUMP ==> c == code && jpc == l
    requires l != NO_JUMP && here != NO_JUMP ==>
      IsJump(code, a.pending[|a.pending| - 1]) && c == FixJump(code, a.pending[|a.pending| - 1], l) && jpc == here
    ensures Follows(c, jpc, PlanPatchToHere(a, l))
  {
    var b := PlanPatchToHere(a, l);
    ForgetSome(a, l);
    assert forall x :: InSomeList(a, x) ==> x in b.pending || InSomeList(b, x) by {
      assert forall x :: InSomeList(Forget(a, l), x) ==> InSomeList(b, x) by { SameOwners(Forget(a, l), b); }
    }
    if l == NO_JUMP {
      ListsInside(code, here, a, NO_JUMP);
      assert b.lists == a.lists && b.pending == a.pending;
    } else if here == NO_JUMP {
      assert b.pending == a.lists[l];
    } else {
      var last := a.pending[|a.pending| - 1];
      assert last in a.pending;
      ListJoin(code, here, a.pending, l, a.lists[l]);
      LinkFrame(code, here, a, last, l);
    }
  }

  lemma SameOwners(a: Plan, b: Plan)
    requires a.lists == b.lists
    ensures forall x :: InSomeList(a, x) ==> InSomeList(b, x)
  {
    forall x | InSomeList(a, x) ensures InSomeList(b, x) {
      var l :| l in a.lists && x in a.lists[l];
      assert l in b.lists && x in b.lists[l];
    }
  }
}
