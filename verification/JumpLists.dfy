/** Jump lists of the Lua code generator (lcode.c:90-143, 179-305): lists of jumps with a
    common, still unknown destination, threaded through the offset fields of the jumps
    themselves.  This module has the instructions, the lists and their basic laws. */
module JumpLists {

  /** `NO_JUMP`: the empty list, and the offset that ends a list. */
  const NO_JUMP := -1

  /** Largest offset of a jump, MAXARG_sBx (lopcodes.h:61-65). */
  const MAXARG_SBX: int := 131071

  /** `NO_REG`: no register to put a value into (lopcodes.h:151, MAXARG_A). */
  const NO_REG := 255

  datatype OpCode = Jmp | ForPrep | ForLoop | TestSet | Test | Compare | OtherOp(n: nat)

  datatype Instruction =
    | ABC(op: OpCode, a: int, b: int, c: int)
    | AsBx(op: OpCode, a: int, sbx: int)

  type Code = seq<Instruction>

  /** testTMode: the instruction is a test, and the next one is the jump it controls. */
  predicate IsTest(i: Instruction) {
    i.ABC? && (i.op == TestSet || i.op == Test || i.op == Compare)
  }

  /** `pc` holds an instruction with a jump offset. */
  predicate IsJump(code: Code, pc: int) {
    0 <= pc < |code| && code[pc].AsBx?
  }

  /** getjump (lcode.c:90-96). */
  function GetJump(code: Code, pc: int): int
    requires IsJump(code, pc)
  {
    if code[pc].sbx == NO_JUMP then NO_JUMP else pc + 1 + code[pc].sbx
  }

  /** Where the finished jump at `pc` leads. */
  function Destination(code: Code, pc: int): int
    requires IsJump(code, pc)
  {
    pc + 1 + code[pc].sbx
  }

  /** fixjump (lcode.c:103-110). */
  function FixJump(code: Code, pc: int, dest: int): Code
    requires IsJump(code, pc)
  {
    code[pc := code[pc].(sbx := dest - (pc + 1))]
  }

  /** `l` is the head of a list with the elements `es`: no element twice, the last one ends it. */
  ghost predicate JumpList(code: Code, l: int, es: seq<int>)
    decreases |es|
  {
    if es == [] then l == NO_JUMP
    else l == es[0] && IsJump(code, l) && es[0] !in es[1..] && JumpList(code, GetJump(code, l), es[1..])
  }

  lemma {:induction false} ListFacts(code: Code, l: int, es: seq<int>)
    requires JumpList(code, l, es)
    ensures forall x :: x in es ==> IsJump(code, x)
    ensures es == [] <==> l == NO_JUMP
    ensures es != [] ==> GetJump(code, es[|es| - 1]) == NO_JUMP && l in es
    decreases |es|
  {
    if es != [] {
      ListFacts(code, GetJump(code, l), es[1..]);
      assert es[|es| - 1] == if |es| == 1 then es[0] else es[1..][|es| - 2];
      assert forall x :: x in es <==> x == es[0] || x in es[1..];
    }
  }

  /** A head determines its list. */
  lemma {:induction false} ListUnique(code: Code, l: int, es: seq<int>, fs: seq<int>)
    requires JumpList(code, l, es) && JumpList(code, l, fs)
    ensures es == fs
    decreases |es|
  {
    if es != [] && fs != [] {
      ListUnique(code, GetJump(code, l), es[1..], fs[1..]);
      assert es == [es[0]] + es[1..] && fs == [fs[0]] + fs[1..];
    }
  }

  lemma OnlyList(code: Code, l: int, es: seq<int>)
    requires JumpList(code, l, es)
    ensures forall fs :: JumpList(code, l, fs) ==> fs == es
  {
    forall fs | JumpList(code, l, fs) ensures fs == es { ListUnique(code, l, es, fs); }
  }

  /** Lists do not see changes outside their elements. */
  lemma {:induction false} ListFrame(code: Code, code': Code, l: int, es: seq<int>)
    requires JumpList(code, l, es) && |code| <= |code'|
    requires forall x :: x in es && 0 <= x < |code| ==> code'[x] == code[x]
    ensures JumpList(code', l, es)
    decreases |es|
  {
    if es != [] {
      assert forall x :: x in es[1..] ==> x in es;
      ListFrame(code, code', GetJump(code, l), es[1..]);
    }
  }

  /** Linking the last element of one list to the head of another joins them. */
  lemma {:induction false} ListJoin(code: Code, l1: int, es1: seq<int>, l2: int, es2: seq<int>)
    requires JumpList(code, l1, es1) && JumpList(code, l2, es2) && es1 != [] && es2 != []
    requires forall x :: x in es1 ==> x !in es2
    ensures IsJump(code, es1[|es1| - 1]) && JumpList(FixJump(code, es1[|es1| - 1], l2), l1, es1 + es2)
    decreases |es1|
  {
    ListFacts(code, l1, es1);
    ListFacts(code, l2, es2);
    var last := es1[|es1| - 1];
    assert last in es1;
    var code' := FixJump(code, last, l2);
    assert (es1 + es2)[1..] == es1[1..] + es2;
    if |es1| == 1 {
      JoinOne(code, l1, l2, es2);
      assert es1 == [l1];
    } else {
      assert last == es1[1..][|es1| - 2] && last in es1[1..];
      ListJoin(code, GetJump(code, l1), es1[1..], l2, es2);
      assert GetJump(code', l1) == GetJump(code, l1);
    }
  }

  lemma JoinOne(code: Code, l1: int, l2: int, es2: seq<int>)
    requires IsJump(code, l1) && JumpList(code, l2, es2) && es2 != [] && l1 !in es2 && l2 in es2
    ensures JumpList(FixJump(code, l1, l2), l1, [l1] + es2)
  {
    var code' := FixJump(code, l1, l2);
    ListFrame(code, code', l2, es2);
    assert IsJump(code, l2) && GetJump(code', l1) == l2;
    assert ([l1] + es2)[1..] == es2;
  }

  // ---------- patching ----------

  /** getjumpcontrol (lcode.c:179-185): the test that controls the jump at `pc`, or the jump. */
  function Control(code: Code, pc: int): int
    requires IsJump(code, pc)
  {
    if pc >= 1 && IsTest(code[pc - 1]) then pc - 1 else pc
  }

  /** patchtestreg (lcode.c:195-207). */
  predicate HasValue(code: Code, node: int)
    requires IsJump(code, node)
  {
    code[Control(code, node)].ABC? && code[Control(code, node)].op == TestSet
  }

  function PatchTestReg(code: Code, node: int, reg: int): Code
    requires IsJump(code, node)
  {
    var i := Control(code, node);
    if !HasValue(code, node) then code
    else if reg != NO_REG && reg != code[i].b then code[i := ABC(TestSet, reg, code[i].b, code[i].c)]
    else code[i := ABC(Test, code[i].b, 0, code[i].c)]
  }

  /** One round of patchlistaux. */
  function PatchOne(code: Code, node: int, vtarget: int, reg: int, dtarget: int): Code
    requires IsJump(code, node)
  {
    FixJump(PatchTestReg(code, node, reg), node, if HasValue(code, node) then vtarget else dtarget)
  }

  /** Tests stay tests, jumps stay jumps, and no jump but `node` gets another offset. */
  lemma PatchOneFacts(code: Code, node: int, vtarget: int, reg: int, dtarget: int)
    requires IsJump(code, node)
    ensures var c := PatchOne(code, node, vtarget, reg, dtarget);
      && |c| == |code|
      && (forall x :: IsJump(code, x) <==> IsJump(c, x))
      && (forall x :: IsJump(code, x) && x != node ==> c[x] == code[x])
      && (forall x :: IsJump(code, x) && x != node ==> (HasValue(c, x) <==> HasValue(code, x)))
      && Destination(c, node) == if HasValue(code, node) then vtarget else dtarget
  {
  }

  /** patchlistaux (lcode.c:224-234) on the elements of a list. */
  function PatchAll(code: Code, es: seq<int>, vtarget: int, reg: int, dtarget: int): (c: Code)
    requires forall x :: x in es ==> IsJump(code, x)
    ensures |c| == |code| && forall x :: IsJump(code, x) <==> IsJump(c, x)
    decreases |es|
  {
    if es == [] then code
    else
      PatchOneFacts(code, es[0], vtarget, reg, dtarget);
      PatchAll(PatchOne(code, es[0], vtarget, reg, dtarget), es[1..], vtarget, reg, dtarget)
  }

  /** Every element of the list leads to its target afterwards; other jumps are untouched. */
  lemma {:induction false} PatchAllFacts(code: Code, es: seq<int>, vtarget: int, reg: int, dtarget: int)
    requires forall x :: x in es ==> IsJump(code, x)
    requires forall i, j :: 0 <= i < j < |es| ==> es[i] != es[j]
    ensures var c := PatchAll(code, es, vtarget, reg, dtarget);
      && (forall x :: IsJump(code, x) && x !in es ==> c[x] == code[x] && (HasValue(c, x) <==> HasValue(code, x)))
      && (forall x :: x in es ==> Destination(c, x) == if HasValue(code, x) then vtarget else dtarget)
    decreases |es|
  {
    if es != [] {
      var c1 := PatchOne(code, es[0], vtarget, reg, dtarget);
      PatchOneFacts(code, es[0], vtarget, reg, dtarget);
      PatchAllFacts(c1, es[1..], vtarget, reg, dtarget);
      assert es[0] !in es[1..];
      var c := PatchAll(code, es, vtarget, reg, dtarget);
      forall x | x in es ensures Destination(c, x) == if HasValue(code, x) then vtarget else dtarget {
        if x == es[0] {
          assert c[x] == c1[x];
        } else {
          assert x in es[1..];
        }
      }
    }
  }

  predicate IsTestSet(i: Instruction) {
    i.ABC? && i.op == TestSet
  }

  /** What patchlistaux makes of the instruction at `x`: a jump of `es` gets the offset to its target, which is
      `vtarget` for a jump behind a TESTSET.  That TESTSET gets `reg`, or becomes a TEST when there is no
      register or it holds the value already.  All else is as before. */
  predicate PatchedAt(before: Code, code: Code, es: seq<int>, x: int, vtarget: int, reg: int, dtarget: int)
    requires 0 <= x < |before| == |code|
  {
    var i := before[x];
    if x in es then
      var target := if x > 0 && IsTestSet(before[x - 1]) then vtarget else dtarget;
      i.AsBx? && code[x] == AsBx(i.op, i.a, target - (x + 1))
    else if IsTestSet(i) && x + 1 in es then
      code[x] == if reg == NO_REG || reg == i.b then ABC(Test, i.b, 0, i.c) else ABC(TestSet, reg, i.b, i.c)
    else code[x] == i
  }

  predicate Patched(before: Code, code: Code, es: seq<int>, vtarget: int, reg: int, dtarget: int) {
    && |code| == |before| && (forall x :: x in es ==> 0 <= x < |before|)
    && (forall x :: 0 <= x < |before| ==> PatchedAt(before, code, es, x, vtarget, reg, dtarget))
  }

  lemma PatchOneExact(code: Code, node: int, vtarget: int, reg: int, dtarget: int)
    requires IsJump(code, node)
    ensures Patched(code, PatchOne(code, node, vtarget, reg, dtarget), [node], vtarget, reg, dtarget)
  {
  }

  /** Patching one jump after another is patching them all. */
  lemma PatchedTwice(before: Code, between: Code, code: Code, es: seq<int>, x: int,
                     vtarget: int, reg: int, dtarget: int)
    requires es != [] && es[0] !in es[1..] && 0 <= x < |before| && forall y :: y in es ==> IsJump(before, y)
    requires Patched(before, between, [es[0]], vtarget, reg, dtarget)
    requires Patched(between, code, es[1..], vtarget, reg, dtarget)
    ensures PatchedAt(before, code, es, x, vtarget, reg, dtarget)
  {
    assert forall y :: y in es <==> y == es[0] || y in es[1..];
    assert PatchedAt(before, between, [es[0]], x, vtarget, reg, dtarget);
    assert PatchedAt(between, code, es[1..], x, vtarget, reg, dtarget);
    if x > 0 { assert PatchedAt(before, between, [es[0]], x - 1, vtarget, reg, dtarget); }
  }

  lemma {:induction false} PatchAllExact(code: Code, es: seq<int>, vtarget: int, reg: int, dtarget: int)
    requires forall x :: x in es ==> IsJump(code, x)
    requires forall i, j :: 0 <= i < j < |es| ==> es[i] != es[j]
    ensures Patched(code, PatchAll(code, es, vtarget, reg, dtarget), es, vtarget, reg, dtarget)
    decreases |es|
  {
    if es != [] {
      var c1 := PatchOne(code, es[0], vtarget, reg, dtarget);
      PatchOneFacts(code, es[0], vtarget, reg, dtarget);
      PatchOneExact(code, es[0], vtarget, reg, dtarget);
      PatchAllExact(c1, es[1..], vtarget, reg, dtarget);
      var c := PatchAll(code, es, vtarget, reg, dtarget);
      forall x | 0 <= x < |code| ensures PatchedAt(code, c, es, x, vtarget, reg, dtarget) {
        PatchedTwice(code, c1, c, es, x, vtarget, reg, dtarget);
      }
    }
  }

  lemma {:induction false} ListDistinct(code: Code, l: int, es: seq<int>)
    requires JumpList(code, l, es)
    ensures forall i, j :: 0 <= i < j < |es| ==> es[i] != es[j]
    decreases |es|
  {
    if es != [] {
      ListDistinct(code, GetJump(code, l), es[1..]);
      forall i, j | 0 <= i < j < |es| ensures es[i] != es[j] {
        if i == 0 { assert es[1..][j - 1] in es[1..]; } else { assert es[1..][i - 1] != es[1..][j - 1]; }
      }
    }
  }
}
