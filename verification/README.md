# Verified models of SimpleAI and its bundled Lua

A Dafny 4.11 project that models the stateful cores of SimpleAI (a behaviour-tree AI library with a
remote debugger) and of the Lua 5.3 it ships, and proves what they are for. `dafny verify
dfyconfig.toml` checks all of it.

Where the source updates an object in place, a class does so with the source's fields and loops, and
its methods are proved to compute functions on a snapshot of those fields; the main results are
lemmas about these functions over all inputs, all runs or all reachable states.

| modules | what they are about | main results |
|---|---|---|
| LuaHeap, LuaTricolour, LuaCollector, LuaCycle, LuaAtomic, LuaSweep, LuaMutator, LuaFinalize, LuaSafety | the incremental mark and sweep collector, step by step, interleaved with the program | in every run in which no finalizer call takes the sweep cursor along, no reachable object is freed; the tri-colour invariant; every object is on exactly one list; exactly when the cursor is lost |
| LuaLostCursor, LuaCut, LuaKept, LuaQuietLoss, LuaSkippedObject, LuaPace, LuaHarmfulLoss, LuaExposedObject, LuaDoomedObject, LuaLossWitness, LuaLoss | runs that lose the sweep cursor, with finalizers called in batches | safety is false of the code: for any number of steps between batches, and any list of objects long enough for it, a run from the initial state after which a reachable object has been freed; the exact condition under which a run is safe, whatever follows any part of it |
| LuaFullGc, LuaComplete, LuaDueFinalizers | the full collection | it terminates and leaves exactly what can be reached; the finalizers that are due are called once each and in order, or none of them in an emergency |
| LuaEffects | what each call of the program does to the heap | the references, colours and lists that a store, a finalizer registration or an upvalue assignment changes, and that finalizers run in reverse order of registration |
| LuaGlobalState, LuaMarkBits | the same collector in place, and the bytes `marked` | each method computes the step function; each bit trick, and the sweep loop that uses them, is the colour operation |
| LuaEphemeron | tables with weak keys in the atomic phase | exactly the least closed set is marked, from the roots to the clearing of keys; the loop terminates; exactly the entries whose key is not in it are emptied |
| LuaReferences | luaL_ref and luaL_unref | the table refines a reference allocator over any run |
| JumpLists, JumpCoder, JumpThreading | lists of unfinished jumps threaded through the code | lists stay acyclic and disjoint; threading jumps to jumps preserves where control ends; where each jump leads is read off the operations |
| SequenceTree, SequenceItems | sequence nodes that resume where they left off | a tree of sequences goes through one list of conditions and tasks, whichever conditions hold, and refines one flat list of tasks |
| WireBytes, WireMessages, WireRoundTrip, WireStream, WireLayout | the debugger's messages | round trip exactly for the messages that fit; every byte of the format, lowest first |
| WireFraming, WireLink, WireDelivery | frames, partial sends, arbitrary chunks | end-to-end FIFO delivery: exactly what was handed over is handled once all bytes have arrived |
| ConditionParser, ConditionGrammar, ConditionStrings | the condition parser | it inverts the documented grammar; for every string whatever, which tree or which error it gives |
| ThreadScheduler | the catch-up loop of the timer thread | for every run, timer and time, how often it was called for that time |
| ThreadPool, Zone | workers, executeParallel, the schedules of a zone | FIFO starts, exactly-once execution, exactly when the destructor can hang, and the exact groups after the schedules |
| GroupMgr, AggroMgr | a two-way index, and a lazily sorted list | they agree with a set of pairs and with a map over any run; exactly when the comparison of the list sorts it, and when two updates are one |

## Where the code and its documentation differ

The models follow the code.

- `src/libs/lua/lgc.c:787-797`: udata2finalize puts its object back on `allgc` without looking at the
  sweep cursor, which luaC_checkfinalizer takes care of. `LuaFinalize.LosesCursorExactly` says for
  which states the cursor is lost, `LuaLossWitness.CursorCanBeLost` reaches one: the batches of
  finalizers double and come up with the sweep. What is left of `tobefnz` then keeps its marks through
  the next cycle, which does not look inside it, and what only it refers to is freed
  (`LuaLossWitness.UnsafeRun`). `LuaLoss.RunSafeExactly` gives the exact condition for the safety of a
  run. A barrier can then fire in the pause, where the assertion at
  `src/libs/lua/lgc.c:161` does not hold; the model
  does what the code does without assertions.
- `src/libs/lua/lgc.h:53-59` speaks of white objects that point to black ones where the invariant,
  stated at lines 19 and 20, is about black objects that point to white ones.
- `src/ai/server/IProtocolMessage.h`: the class comment says big endian; the numbers are little endian.
- `src/ai/server/AICharacterDetailsMessage.h:31-36`: the count of children has 16 bits, the index of
  the reading loop has 8. `WireMessages.EndlessLoop` says what happens above 255.
- `src/ai/group/GroupMgr.h:80-84` says that a group with one member left is destroyed; line 216
  destroys it when it is empty.
- `src/ai/common/ThreadPool.h:105-110`: the stop flag is set and the workers are notified without the
  lock, so a worker can miss both. `ThreadPool.CanHangIff` says exactly when.
- `src/ai/aggro/AggroMgr.h:48-56`: EntrySorter is no strict weak order for all lists
  (`AggroMgr.CanFailWeakOrder`).  It sorts as meant exactly if no two different aggro values less than
  1e-7 apart have their ids the other way round (`AggroMgr.SortsAsMeantIff`); the results about sorting
  ask for that (`AggroMgr.InOrder`).
- `src/ai/tree/Sequence.h:23-52`: flattening a tree changes its statuses when a task may answer
  UNKNOWN; `SequenceTree.StatusesAgreeIff` says exactly for which trees it never does.
- `src/ai/aggro/Entry.h:94-99`: a RATIO reduction depends on how the time is cut into updates
  (`AggroMgr.RatioSplitsIff`).
- `src/ai/zone/Zone.h:382-389`: destroying an AI leaves it in its groups
  (`Zone.DestroyedKeepsGroups`), as `src/ai/group/GroupMgr.h:20` warns.

## Model

| member | source | states |
|---|---|---|
| `LuaSafety.RunSafety` | src/libs/lua/lgc.c:979-1094 | in every run of collector steps, allocations, barriered stores, upvalue stores, root changes, finalizer registrations and calls in which no finalizer call takes the sweep cursor along: after any number of actions what the program can reach is allocated, no action frees it, and no action follows a pointer to freed memory |
| `LuaSafety.NothingReachableFreed` | src/libs/lua/lgc.c:734-751 | the one-action form: from any state that meets the invariant, no enabled action, finalizer calls included, frees a reachable object |
| `LuaSafety.CollectIntact` | src/libs/lua/lgc.c:1042-1094 | a collector step frees no reachable object, and outside the phase that calls finalizers it leaves the kind and the references of every reachable object as they are |
| `LuaSafety.ApplyInv` | src/libs/lua/lgc.c:155-216 | every enabled action of program and collector is defined, and it keeps the invariant of all phases if and only if it is not a finalizer call that takes the sweep cursor along |
| `LuaLoss.RunSafeExactly` | src/libs/lua/lgc.c:787-849 | the exact condition, for every run of luaC_step and luaC_fullgc with finalizers in batches of `gcfinnum`: nothing can go wrong after any part of the run if and only if each finalizer call that took the cursor along was harmless (`LuaQuietLoss.HarmlessLoss`): it left black userdata only unswept on `tobefnz`, each with references to itself, the main thread, fixed strings and what registered objects keep alive along references that the program cannot drop; and if it left several, these are kept alive in the same way |
| `LuaLoss.LossExact` | src/libs/lua/lgc.c:787-849 | the same for one such call, at any pace: some run of luaC_step and luaC_fullgc leads from it to a state in which a reachable object has been freed if and only if it was not harmless |
| `LuaLoss.HarmlessRunSafety` | src/libs/lua/lgc.c:787-825 | in every run whose losses of the cursor are harmless, whenever finalizers are called, nothing reachable is freed and no pointer to freed memory is followed |
| `LuaLoss.NothingReachableLost` | src/libs/lua/lgc.c:1042-1094 | the one-action form, also for the rest of the cycle after a harmless loss and the marking of the next |
| `LuaDoomedObject.HarmfulCosts` | src/libs/lua/lgc.c:787-797 | from every other loss a run, without a second loss, leads to a state in which a path from the main thread ends in an object that has been freed. The program stores only into what it holds: it takes hold of all it can get, gives an object left on `tobefnz` the only reference to another one, and drops the rest; the next cycle does not look inside the object left |
| `LuaLossWitness.CursorCanBeLost` | src/libs/lua/lgc.c:1123-1143 | however many steps `m` luaC_step makes between two batches of finalizers: if 2^k > 85mk, then with any number of more than 85mk dropped tables that have finalizers a run from the initial state leads, in at most k rounds of m sweep steps and a batch of 1, 2, 4, ... calls, to a harmful loss of the cursor |
| `LuaLossWitness.UnsafeRun` | src/libs/lua/lgc.c:787-849 | under the same conditions a run from the initial state, with finalizers called as luaC_step calls them, after which a reachable object has been freed |
| `LuaLossWitness.RoundsNeeded` | src/libs/lua/lgc.c:1132-1136 | 10 rounds are enough for one step a round, that is 851 objects, and 13 for the five that the loop of luaC_step makes at least while it sweeps, that is 5526; 32 rounds, after which the counter would wrap around, for any number up to a million and a half |
| `LuaLossWitness.Rounds` | src/libs/lua/lgc.c:841-849 | from round j on, with `gcfinnum` 2^j: after at most k rounds a batch comes to the object that the cursor is in, before the sweep comes to the end of the list; a round is m sweep steps and one batch, whose calls double from round to round |
| `LuaKept.FencedKept` | src/libs/lua/lgc.c:877-892 | what registered objects keep alive along references that the program cannot drop is kept by every action that is fenced, that is, drops none of them |
| `LuaKept.ActionFenced` | src/libs/lua/lgc.c:155-191 | every action of the program is: it drops references only of objects it holds or a due finalizer will hand it, and of closures that share an upvalue with such; never those of a prototype or to one |
| `LuaExposedObject.Expose` | src/libs/lua/lgc.c:155-164 | after a harmful loss the program can make a stale object point to another one that is white, and that it cannot be made to keep |
| `LuaExposedObject.EmptiedReduced` | src/libs/lua/lgc.c:185-191 | when the program has dropped all it can, any reference left, other than of stale objects and of the main thread, was one that it could not drop before either |
| `LuaQuietLoss.ActionQuiet` | src/libs/lua/lgc.c:155-164 | after a harmless loss no action of the program makes it harmful before the next cycle: what is still left unswept keeps references to what is kept only |
| `LuaSkippedObject.StoreSkipped` | src/libs/lua/lgc.h:118-124 | while the next cycle skips the objects left behind, every store keeps what they refer to marked or kept alive by registered objects |
| `LuaSkippedObject.AtomicSkipped` | src/libs/lua/lgc.c:979-1023 | the atomic step of that cycle reaches what is kept alive, and brings the full invariant back |
| `LuaLostCursor.CollectLost` | src/libs/lua/lgc.c:1026-1039 | the lost cursor: the sweep goes on in `allgc`, frees nothing and recolours nothing but the main thread |
| `LuaLostCursor.ActionLost` | src/libs/lua/lgc.c:155-216 | until the next cycle no action of the program kills an object or makes one stale |
| `LuaCut.AtomicStepCut` | src/libs/lua/lgc.c:979-1023 | the atomic step commutes with cutting off the references of objects that are marked and in no gray list: it never follows them |
| `LuaCut.MarkObjectCut` | src/libs/lua/lgc.c:235-283 | so does marking one object |
| `LuaSafety.CollectInv` | src/libs/lua/lgc.c:1042-1094 | every step is defined (no dangling reference is followed) and keeps the invariant, whatever the phase |
| `LuaSafety.InitialInv` | src/libs/lua/lgc.h:14-25 | the state in which Lua starts meets the invariant |
| `LuaSafety.MainInvariant` | src/libs/lua/lgc.h:14-25 | while marking, a black object points to no white one; a gray object other than a fixed string is on exactly one gray list, once |
| `LuaSafety.OnOneList` | src/libs/lua/lgc.c:194-216 | every object but the main thread is on exactly one of `allgc`, `finobj`, `tobefnz`, `fixedgc`, once, and FINALIZEDBIT is set exactly on the middle two |
| `LuaSafety.SweepOrder` | src/libs/lua/lgc.c:734-763 | while sweeping, the cursor is in the swept list, everything before it has the current white, and what is still to be freed is on `allgc` ahead of the cursor and unreachable |
| `LuaSafety.ReachableAlive` | src/libs/lua/lgc.h:94-96 | no reachable object has the other white |
| `LuaCycle.RestartInv` | src/libs/lua/lgc.c:337-344 | the start of a cycle establishes the marking invariant from a heap that is all white |
| `LuaCycle.PropagateInv` | src/libs/lua/lgc.c:559-600 | one propagation step keeps the invariant and, once nothing is gray, hands over to the atomic phase |
| `LuaTricolour.PropagateMarkInv` | src/libs/lua/lgc.c:559-600 | what the step turns black points to nothing white; threads go to `grayagain` instead |
| `LuaTricolour.MarkObjectInv` | src/libs/lua/lgc.c:235-283 | marking one object, with its chain of userdata and metatables, leaves every newly black object covered |
| `LuaAtomic.AtomicMarksInv` | src/libs/lua/lgc.c:979-1009 | after the marking of the atomic phase, weak tables and remarkupvals left aside, nothing marked points to anything white, and roots, `tobefnz` and the running thread are marked |
| `LuaAtomic.AtomicFlips` | src/libs/lua/lgc.c:1020-1022 | after the flip everything alive refers to what is alive only, and dead objects are on `allgc` only |
| `LuaCollector.FilterOrder` | src/libs/lua/lgc.c:877-892 | both the objects that separatetobefnz takes off `finobj` and those it leaves keep their order |
| `LuaSweep.EnterSweepInv` | src/libs/lua/lgc.c:956-961 | entersweep may start whenever only `allgc` holds dead objects, and sets the cursor inside the list |
| `LuaSweep.SweepStepInv` | src/libs/lua/lgc.c:1026-1039 | a bounded sweep step keeps the sweep invariant and the order of the list, and a finished list hands over to the next phase |
| `LuaSweep.SwpEndInv` | src/libs/lua/lgc.c:1076-1081 | after all sweeps and the recolouring of the main thread every object but the fixed strings is white again |
| `LuaMutator.StoreInv` | src/libs/lua/lgc.h:118-124 | a store with the forward or the backward barrier keeps the invariant in every phase |
| `LuaMutator.BarrierPhases` | src/libs/lua/lgc.c:155-164 | the assertion in luaC_barrier_ holds: a barrier fires only while marking or sweeping |
| `LuaMutator.NewObjectInv` | src/libs/lua/lgc.c:208-216 | allocation keeps the invariant in every phase, also in front of a sweep cursor |
| `LuaFinalize.CheckFinalizerInv` | src/libs/lua/lgc.c:899-918 | registering a finalizer keeps the invariant in every phase, and the sweep cursor is not left in the moved object |
| `LuaFinalize.CallFinalizerInv` | src/libs/lua/lgc.c:787-797 | returning an object to `allgc` for its finalizer keeps the invariant unless the cursor is lost |
| `LuaFinalize.LosesCursorExactly` | src/libs/lua/lgc.c:787-797 | the cursor stays in the swept list if and only if not (`tobefnz` is being swept and the cursor is in its first object); udata2finalize, unlike luaC_checkfinalizer, does not move the cursor |
| `LuaFinalize.FixInv` | src/libs/lua/lgc.c:194-201 | luaC_fix keeps the invariant |
| `LuaFinalize.StoreUpvalueInv` | src/libs/lua/lgc.c:185-191 | an assignment to a closed upvalue that several closures share keeps the invariant |
| `LuaEffects.StoreEffect` | src/libs/lua/lgc.h:118-124 | what a store does in every phase: the object gets the given references and nothing else changes but colours; without a black owner of a white object none does; with one the backward barrier turns the owner gray and links it into `grayagain`, the forward one marks the object while marking and whitens the owner while sweeping; while marking no black owner is left with the white object |
| `LuaEffects.CheckFinalizerEffect` | src/libs/lua/lgc.c:899-918 | an object that gets a finalizer leaves `allgc` for the head of `finobj` with FINALIZEDBIT set, unless it has one already; no other object changes its list or its references, and none is freed unless the sweep stands in the object and passes on |
| `LuaEffects.NewObjectEffect` | src/libs/lua/lgc.c:208-216 | a new object has the current white and no finalizer, is first on `allgc` and on the stack of the running thread, and nothing else changes |
| `LuaEffects.FixEffect` | src/libs/lua/lgc.c:194-201 | a fixed string leaves the head of `allgc` for the head of `fixedgc` and is not white any more; nothing else changes |
| `LuaEffects.UpvalueEffect` | src/libs/lua/lgc.c:185-191 | assigning a closed upvalue changes the references of the closures that share it and nothing else but colours; while marking, the value is marked whatever the colour of the closures |
| `LuaComplete.FullGcExact` | src/libs/lua/lgc.c:1156-1172 | from any phase, a full collection that calls no finalizer (an emergency collection, or one in which nothing waits for its finalizer and every registered object is strongly reachable) ends in the pause with exactly the objects reachable at entry and the fixed strings; survivors keep their references and all but the fixed strings are white |
| `LuaDueFinalizers.FullGcFinalizers` | src/libs/lua/lgc.c:1156-1172 | a full collection from any phase, whatever finalizers are due: it keeps exactly what could be reached and the fixed strings, with their references; the registered objects that the program could not get hold of any more are found, in the order of `finobj`, the others stay registered in that order. With `isemergency` false nothing waits afterwards: those that waited and then those found are handed to the running thread, each exactly once and in that order, are no longer finalized and are back on `allgc`. With `isemergency` true none is handed over, and those found wait behind the old ones. The flag is off again |
| `LuaEffects.LastRegisteredFirst` | src/libs/lua/lgc.c:899-918 | finalizers are called in the reverse of the order in which they were registered: of two objects that the program can get hold of no more, a full collection hands over the one registered last first |
| `LuaComplete.CycleExact` | src/libs/lua/lgc.c:1042-1094 | one cycle from the pause that calls no finalizer leaves exactly what is reachable and the fixed strings |
| `LuaComplete.PreliminarySweepFreesNothing` | src/libs/lua/lgc.c:1148-1164 | the sweep that a full collection starts out of a marking phase frees nothing, whatever finalizers it calls |
| `LuaFullGc.StepProgress` | src/libs/lua/lgc.c:1101-1105 | a measure drops with every step outside the pause, so luaC_runtilstate terminates; only the phase of the finalizers leads to the pause |
| `LuaFullGc.StepGraph` | src/libs/lua/lgc.c:1042-1094 | a step that calls no finalizer changes neither the roots nor the references of what survives |
| `LuaFullGc.StepFinalizers` | src/libs/lua/lgc.c:877-892 | if nothing waits for its finalizer and all registered objects are strongly reachable, no step takes one for garbage, so none is called |
| `LuaGlobalState.GlobalState.constructor` | src/libs/lua/lgc.h:14-25 | a new state is the initial state and meets the invariant |
| `LuaGlobalState.GlobalState.MarkObject` | src/libs/lua/lgc.c:83-86 | in place: marks an object unless it is marked |
| `LuaGlobalState.GlobalState.ReallyMarkObject` | src/libs/lua/lgc.c:235-283 | in place: strings black, userdata visited at once with their metatable and user value, everything else pushed on `gray` |
| `LuaGlobalState.GlobalState.PropagateMark` | src/libs/lua/lgc.c:559-600 | in place: takes the first gray object, blackens it (a thread goes back to gray and to `grayagain`) and marks what it refers to; tables with weak parts, which stay gray, are not modelled here |
| `LuaGlobalState.GlobalState.PropagateAll` | src/libs/lua/lgc.c:603-605 | the loop of propagateall, which terminates |
| `LuaGlobalState.GlobalState.RestartCollection` | src/libs/lua/lgc.c:337-344 | in place: empties the gray lists and marks the root set |
| `LuaGlobalState.GlobalState.SeparateToBeFnz` | src/libs/lua/lgc.c:877-892 | the unmarked objects of `finobj` move, in order, to the end of `tobefnz` |
| `LuaGlobalState.GlobalState.Atomic` | src/libs/lua/lgc.c:979-1023 | in place: the atomic phase in the order of the source, without weak tables, remarkupvals and the caches |
| `LuaGlobalState.GlobalState.SweepList` | src/libs/lua/lgc.c:734-751 | the loop of sweeplist: at most `count` objects, dead ones freed and unlinked, others recoloured, and where to continue |
| `LuaGlobalState.GlobalState.SweepStep` | src/libs/lua/lgc.c:1026-1039 | at most GCSWEEPMAX objects, then the next phase |
| `LuaGlobalState.GlobalState.EnterSweep` | src/libs/lua/lgc.c:956-961 | starts the sweep of `allgc` with one object |
| `LuaGlobalState.GlobalState.CallFinalizer` | src/libs/lua/lgc.c:787-797 | moves the first object of `tobefnz` to the head of `allgc` without FINALIZEDBIT; a sweep recolours it; it is pushed on the running stack; the call itself is further actions of the program |
| `LuaGlobalState.GlobalState.SingleStep` | src/libs/lua/lgc.c:1042-1094 | every branch of singlestep computes the step function, also with a lost cursor; one step of GCScallfin calls one finalizer where the source calls `gcfinnum` |
| `LuaGlobalState.GlobalState.RunUntil` | src/libs/lua/lgc.c:1101-1105 | the loop terminates in a wanted phase and is the iteration of the step function |
| `LuaGlobalState.GlobalState.FullGc` | src/libs/lua/lgc.c:1156-1172 | in place: the emergency flag while it runs, a sweep that whitens the marks of an interrupted cycle, a whole cycle, and the finalizers that are due; what that does to the heap and to the finalizers is LuaDueFinalizers.FullGcFinalizers and LuaComplete.FullGcExact |
| `LuaGlobalState.GlobalState.NewObject` | src/libs/lua/lgc.c:208-216 | in place: a white object at the head of `allgc`; keeps the invariant |
| `LuaGlobalState.GlobalState.Store` | src/libs/lua/lgc.h:118-124 | in place: the store and the barrier that its colours ask for; keeps the invariant |
| `LuaGlobalState.GlobalState.Barrier` | src/libs/lua/lgc.c:155-164 | marks the stored object while marking, whitens the owner while sweeping |
| `LuaGlobalState.GlobalState.BarrierBack` | src/libs/lua/lgc.c:171-176 | turns the owner gray and links it into `grayagain` |
| `LuaGlobalState.GlobalState.SweepToLive` | src/libs/lua/lgc.c:757-763 | the loop terminates and moves the cursor on |
| `LuaGlobalState.GlobalState.CheckFinalizer` | src/libs/lua/lgc.c:899-918 | recolours and moves the cursor when sweeping, then unlinks from `allgc`, links into `finobj`, sets FINALIZEDBIT |
| `LuaMarkBits.IsDead` | src/libs/lua/lgc.h:94-96 | the xor formula of isdeadm is true for exactly the objects in the other white |
| `LuaMarkBits.MakeWhite` | src/libs/lua/lgc.c:746 | clearing the colour bits and or-ing the current white gives the current white and keeps FINALIZEDBIT |
| `LuaMarkBits.IsGrayMark` | src/libs/lua/lgc.h:87-90 | no colour bit set means gray |
| `LuaMarkBits.MarkedHeap.SweepList` | src/libs/lua/lgc.c:734-751 | the loop of sweeplist on the bytes is, on the heap they stand for, the sweep that the collector modules use |
| `LuaMarkBits.MarkedHeap.Whiten` | src/libs/lua/lgc.c:66-68 | on the heap that the bytes stand for, makewhite gives the object the current white and changes nothing else |
| `LuaMarkBits.MarkedHeap.WhiteToGray` | src/libs/lua/lgc.c:70 | white2gray turns a white object gray and keeps FINALIZEDBIT |
| `LuaMarkBits.MarkedHeap.GrayToBlack` | src/libs/lua/lgc.h:99 | gray2black turns it black |
| `LuaMarkBits.MarkedHeap.BlackToGray` | src/libs/lua/lgc.c:71 | black2gray turns it gray |
| `LuaMarkBits.MarkedHeap.Finalize` | src/libs/lua/lgc.c:793 | setting or clearing FINALIZEDBIT leaves the colour alone |
| `LuaMarkBits.MarkedHeap.Flip` | src/libs/lua/lgc.c:1020 | xor with the white bits gives the other white |
| `LuaEphemeron.LeastClosed` | src/libs/lua/lgc.c:394-430 | marking ends with the least set that contains what was marked and is closed under strong references and the ephemeron rule (a marked table and a key that is not white keep the value) |
| `LuaEphemeron.NoMarkedKeyWithWhiteValue` | src/libs/lua/lgc.c:608-623 | when convergeephemerons is done no marked ephemeron table has an entry with a marked key and a white value |
| `LuaEphemeron.FewerWhites` | src/libs/lua/lgc.c:608-623 | a round that marks something leaves fewer white objects, which is why the loop terminates |
| `LuaEphemeron.ConvergeInv` | src/libs/lua/lgc.c:608-623 | the loop ends with every table quiet and nothing gray |
| `LuaEphemeron.NothingWhiteLeft` | src/libs/lua/lgc.c:1014-1015 | clearing empties exactly the entries of marked tables whose key is not marked and leaves every other entry, table and object as it was; afterwards no marked object refers to a white one, and nothing was marked by it |
| `LuaEphemeron.AtomicExact` | src/libs/lua/lgc.c:979-1015 | the marking of the atomic phase composed, tables with weak values left out, from a heap in which nothing is marked: roots, convergence, unreached objects with finalizers, convergence, clearing. Exactly the least closed set that holds the roots and the objects to be finalized is marked; exactly the entries of marked tables whose key is not in it are emptied; and what is marked refers to nothing else |
| `LuaEphemeron.StrongExact` | src/libs/lua/lgc.c:979-999 | before finalizers are considered exactly the least closed set that holds the roots is marked, tables with weak values left out |
| `LuaEphemeron.Collector.TraverseEphemeron` | src/libs/lua/lgc.c:394-430 | in place: marks array part and values of entries with marked keys, removes empty entries, links the table into the list it belongs to |
| `LuaEphemeron.Collector.ConvergeEphemerons` | src/libs/lua/lgc.c:608-623 | the do-while loop over the ephemeron list, in place |
| `LuaEphemeron.Collector.ClearTables` | src/libs/lua/lgc.c:639-650 | in place: empties the entries with dead keys in every table of the list |
| `LuaEphemeron.Collector.Atomic` | src/libs/lua/lgc.c:979-1015 | in place, in the order of the source, without tables with weak values |
| `LuaEphemeron.Collector.MarkDue` | src/libs/lua/lgc.c:877-892 | the unmarked registered objects, behind those that wait already, are marked |
| `JumpThreading.ThreadingPreservesMeaning` | src/libs/lua/lcode.c:130-143 | over any sequence of operations: a finished jump leads where control that takes the same jump of a generator without jump threading arrives by unconditional jumps only |
| `JumpThreading.RunSim` | src/libs/lua/lcode.c:293-305 | over any sequence of operations the generator with the pending list simulates the one without; unfinished jumps of a list wait for the same naive list |
| `JumpThreading.NoJumpLeftOver` | src/libs/lua/lcode.c:242-245 | over any sequence of operations that ends with a plain instruction and all lists given up: the jumps of the code are exactly those that were generated, at the positions at which they were, and each leads into the code, to where control arrives that takes the jump of the generator without threading |
| `JumpThreading.JumpsLeadAsTold` | src/libs/lua/lcode.c:130-305 | over any sequence of operations, where each jump of the generated code leads is read off the operations: to the `dest` of the patchlist that finished its list, to the target of exp2reg for its kind of test, or to the instruction emitted after it had been told to lead to the next one; until then it is in the list in which the operations have put it. The generator without threading is fixed by the same reading, with the one difference that a pending jump leads to a new jump |
| `JumpCoder.FuncState.constructor` | src/libs/lua/lcode.c:293-305 | empty code with no lists |
| `JumpCoder.FuncState.Jump` | src/libs/lua/lcode.c:136-143 | emits a jump whose list is itself followed by the jumps pending here; all lists stay acyclic and disjoint |
| `JumpCoder.FuncState.Concat` | src/libs/lua/lcode.c:116-127 | the loop to the last element and the link: the joined list is the first followed by the second; other lists, targets and instructions are untouched, and only offsets change |
| `JumpCoder.FuncState.PatchToHere` | src/libs/lua/lcode.c:252-255 | the list joins the pending jumps and the position becomes a jump target |
| `JumpCoder.FuncState.PatchList` | src/libs/lua/lcode.c:263-270 | for `dest` in the code, every jump of the old list leads to `dest`, the TESTSETs before them become TESTs, and every other instruction is as before; for the next instruction the list joins the pending ones and only offsets change |
| `JumpCoder.FuncState.PatchListAux` | src/libs/lua/lcode.c:224-234 | the loop that rewrites offsets while it walks the list terminates; instruction by instruction, each jump of the list gets the offset to `vtarget` if a TESTSET controls it and to `dtarget` if not, that TESTSET gets `reg` or becomes a TEST, and all else is as before |
| `JumpCoder.FuncState.PatchTests` | src/libs/lua/lcode.c:690-691 | patchlistaux with two targets, as exp2reg uses it: jumps behind a TESTSET lead to one, the others to the other, instruction by instruction |
| `JumpCoder.FuncState.PatchTestReg` | src/libs/lua/lcode.c:195-207 | the TESTSET right before the jump gets its register or, without one or when it holds the value already, becomes a TEST; all else is left alone |
| `JumpCoder.FuncState.DischargeJpc` | src/libs/lua/lcode.c:242-245 | every pending jump gets the next instruction as its destination, and no other instruction changes but the TESTSETs that become TESTs; nothing is pending any more |
| `JumpCoder.FuncState.Emit` | src/libs/lua/lcode.c:293-305 | the pending jumps lead to the new instruction, which stands behind the code |
| `JumpCoder.PatchFollows` | src/libs/lua/lcode.c:224-234 | patching one list gives its jumps their target and disturbs no other list |
| `JumpLists.PatchAllFacts` | src/libs/lua/lcode.c:224-234 | after patching, each element leads to `vtarget` if its test produces a value and to `dtarget` if not; other jumps keep their offsets |
| `JumpLists.PatchAllExact` | src/libs/lua/lcode.c:195-234 | the same instruction by instruction: offset `target - (pc + 1)` in every jump of the list, the register or the TEST in the TESTSETs that control them, and nothing else |
| `JumpLists.ListJoin` | src/libs/lua/lcode.c:116-127 | linking the end of one list to the head of a disjoint one gives their concatenation |
| `JumpLists.ListUnique` | src/libs/lua/lcode.c:90-96 | a head determines its list: the offsets of the code admit one traversal |
| `LuaReferences.ReferencesOk` | src/libs/lua/lauxlib.c:596-625 | over any run from an empty table: live and free references are disjoint and cover 1 to n, live ones give their values, a new reference is never live, and the table grows only when nothing is free |
| `LuaReferences.RunRefines` | src/libs/lua/lauxlib.c:596-625 | the table refines an allocator of live references and a stack of free ones, over any run |
| `LuaReferences.RefRefines` | src/libs/lua/lauxlib.c:596-614 | luaL_ref returns the most recently released reference, or the border plus one |
| `LuaReferences.UnrefRefines` | src/libs/lua/lauxlib.c:617-625 | luaL_unref pushes the reference on the chain of free ones, which stays acyclic |
| `LuaReferences.BorderUnique` | src/libs/lua/lauxlib.c:609-611 | when nothing is free the only border of the table is the number of live references |
| `LuaReferences.Registry.Reference` | src/libs/lua/lauxlib.c:596-614 | in place, for every border that lua_rawlen may return: the reference released last, or one more than there are live ones; it gives the value, all live references keep theirs; nil gives -1 and changes nothing |
| `LuaReferences.Registry.Release` | src/libs/lua/lauxlib.c:617-625 | in place; the reference is the next to be handed out; a negative one is ignored |
| `SequenceTree.FlatteningRefined` | src/ai/tree/Sequence.h:23-57 | for any run of ticks from any reachable progress: a tree of sequences calls the same tasks in the same order as one sequence over its task list and returns the same statuses up to UNKNOWN |
| `SequenceTree.FlatteningExact` | src/ai/tree/Sequence.h:23-57 | from the start the statuses are the same too, when no task returns UNKNOWN |
| `SequenceTree.StatusesAgreeIff` | src/ai/tree/Sequence.h:23-52 | without that assumption the statuses agree in every run if and only if the last node is a task or there is no task: a last inner sequence without tasks answers FINISHED where the flat one answers UNKNOWN |
| `SequenceTree.ExecuteAgrees` | src/ai/tree/Sequence.h:23-52 | one execution from any position is the run of the task list from that position |
| `SequenceTree.ProgressOnPath` | src/ai/tree/Sequence.h:36-49 | while a task is running, exactly the sequences around it have stored progress |
| `SequenceTree.ResetExact` | src/ai/tree/TreeNodeImpl.h:55-59 | resetState clears every sequence of the tree and nothing else |
| `SequenceItems.ExecuteExact` | src/ai/tree/Sequence.h:23-52 | one execution of any tree, in any world and from any position, goes through one list of conditions to check and tasks to call: all of it from the start, and from a running task the conditions around it, the task and what comes after it. It stops at the first condition that fails, with CANNOTEXECUTE, and at the first task that is neither FINISHED nor UNKNOWN, with its status; the entity is then at that task if it is running and nowhere otherwise. A tree whose own condition fails changes nothing |
| `SequenceItems.HeldBack` | src/ai/tree/TreeNodeImpl.h:184-187 | wherever a condition fails, the answer is CANNOTEXECUTE and no task behind it is called; if it is the condition of the tree itself the progress is unchanged, otherwise the whole tree is left idle |
| `SequenceItems.TicksExact` | src/ai/tree/Sequence.h:23-57 | any run of ticks, in any worlds and with any conditions, gives the statuses, the calls and the position that these lists say |
| `SequenceTree.Entity.GetSelectorState` | src/ai/tree/TreeNodeImpl.h:75-81 | reads the stored index, or "nothing selected" |
| `SequenceTree.Entity.SetSelectorState` | src/ai/tree/TreeNodeImpl.h:83-85 | stores the index for this node only |
| `SequenceTree.Entity.ResetNode` | src/ai/tree/TreeNodeImpl.h:55-59 | the recursive reset, in place |
| `SequenceTree.Entity.ExecuteSequence` | src/ai/tree/Sequence.h:23-52 | in place: a condition that fails gives CANNOTEXECUTE and changes nothing; otherwise the loop with its early exits, with the status, stored progress and calls of the specification |
| `SequenceTree.Entity.ExecuteNode` | src/ai/tree/TreeNodeImpl.h:184-191 | a sequence whose condition fails cannot execute: CANNOTEXECUTE, no task called, progress unchanged; a task is called once and answers for itself |
| `WireRoundTrip.RoundTrip` | src/ai/server/ProtocolMessageFactory.h:96-131 | for all 13 message types and any following bytes: decoding gives back the message and leaves those bytes if and only if the message fits (numbers in their widths, no NUL in a string, at most 255 children, counts in their fields, distinct attribute keys) |
| `WireRoundTrip.EncodeInjective` | src/ai/server/ProtocolMessageFactory.h:96-131 | two messages that fit have different bytes, whatever follows them |
| `WireRoundTrip.DecodedFits` | src/ai/server/ProtocolMessageFactory.h:96-131 | every message that can be decoded from any bytes fits |
| `WireMessages.NodeRoundTrip` | src/ai/server/AICharacterDetailsMessage.h:25-51 | trees of any depth with at most 255 children a node come back |
| `WireMessages.NodeDecoded` | src/ai/server/AICharacterDetailsMessage.h:25-38 | conversely a decoded tree never has a node with more than 255 children |
| `WireMessages.EndlessLoop` | src/ai/server/AICharacterDetailsMessage.h:31-36 | with a count above 255 the 8-bit index wraps and the loop only ends past the end of the stream |
| `WireMessages.AggroRoundTrip` | src/ai/server/AICharacterDetailsMessage.h:53-69 | the aggro list comes back if and only if it has fewer than 32768 entries |
| `WireMessages.AttributesRoundTrip` | src/ai/server/AIStateMessage.h:22-62 | attribute maps come back, given in their order of iteration |
| `WireMessages.InsertKeepsFirst` | src/ai/server/AIStateMessage.h:57-61 | of the attributes read so far, repeated keys included, exactly those are kept that came first under their key: reading one more keeps it so |
| `WireMessages.WorldStateRoundTrip` | src/ai/server/AIStateMessage.h:22-62 | one entity state comes back |
| `WireMessages.NodeStaticRoundTrip` | src/ai/server/AICharacterStaticMessage.h:25-55 | one static node record comes back |
| `WireBytes.SignedBytes` | src/ai/server/IProtocolMessage.h:219-267 | a number comes back from its little-endian bytes if and only if it fits their width |
| `WireBytes.BytesSigned` | src/ai/server/IProtocolMessage.h:245-294 | every byte string is the encoding of the number it is read as |
| `WireBytes.BytesAt` | src/ai/server/IProtocolMessage.h:219-243 | the byte order: byte number i of a number is v / 256^i modulo 256, rounded down, for every i |
| `WireBytes.UnsignedAt` | src/ai/server/IProtocolMessage.h:245-294 | and reading puts byte number i at the weight 256^i |
| `WireBytes.OnWire` | src/ai/server/IProtocolMessage.h:219-243 | the two, four and eight bytes of a number, one by one, lowest first |
| `WireBytes.OffWire` | src/ai/server/IProtocolMessage.h:245-294 | what two, four and eight bytes are read as, by the weight of each; the highest bit is the sign |
| `WireBytes.TextUpToNul` | src/ai/server/IProtocolMessage.h:198-209 | a string is read up to the first NUL, and without a NUL none is |
| `WireLayout.EncodeLayout` | src/ai/server/IProtocolMessage.h:41-53 | the format of all 13 messages, told a second time as lists of fields: the number of the type, then the fields in order, each as its own bytes |
| `WireBytes.TextRoundTrip` | src/ai/server/IProtocolMessage.h:198-217 | a string comes back if and only if it holds no NUL |
| `WireStream.Stream.AddShort` | src/ai/server/IProtocolMessage.h:219-223 | pushes the two bytes v mod 256, v / 256 mod 256 |
| `WireStream.Stream.AddInt` | src/ai/server/IProtocolMessage.h:225-231 | pushes the four bytes, byte number i being v / 256^i mod 256 |
| `WireStream.Stream.AddLong` | src/ai/server/IProtocolMessage.h:233-243 | pushes the eight bytes, byte number i being v / 256^i mod 256 |
| `WireStream.Stream.AddText` | src/ai/server/IProtocolMessage.h:211-217 | pushes the characters and a NUL |
| `WireStream.Stream.TakeInt` | src/ai/server/IProtocolMessage.h:257-267 | pops four bytes and gives their sum by weights 1, 256, 256^2, 256^3, less 2^32 if the highest bit is set; fails past the end |
| `WireStream.Stream.TakeLong` | src/ai/server/IProtocolMessage.h:284-294 | the same with eight bytes |
| `WireStream.Stream.TakeText` | src/ai/server/IProtocolMessage.h:198-209 | pops everything up to the first NUL, and the NUL; without one it runs off the end |
| `WireStream.Stream.WriteNode` | src/ai/server/AICharacterDetailsMessage.h:40-51 | recursive write of a node and its children |
| `WireStream.Stream.TakeNode` | src/ai/server/AICharacterDetailsMessage.h:25-38 | recursive read with the wrapping 8-bit index |
| `WireStream.Stream.WriteAggro` | src/ai/server/AICharacterDetailsMessage.h:53-60 | loop over the aggro entries |
| `WireStream.Stream.TakeAggro` | src/ai/server/AICharacterDetailsMessage.h:62-69 | loop over the aggro entries; a negative size gives no entry |
| `WireStream.Stream.TakeStates` | src/ai/server/AIStateMessage.h:69-75 | loop over the entity states; a negative size gives none |
| `WireStream.Stream.TakeStatic` | src/ai/server/AICharacterStaticMessage.h:25-40 | loop over the static records; a negative size fails |
| `WireStream.Stream.WriteStates` | src/ai/server/AIStateMessage.h:85-91 | loop over the entity states |
| `WireStream.Stream.WriteStatics` | src/ai/server/AICharacterStaticMessage.h:42-55 | loop over the static records |
| `WireStream.Stream.WriteNames` | src/ai/server/AINamesMessage.h:33-40 | loop over the names |
| `WireStream.Stream.TakeNames` | src/ai/server/AINamesMessage.h:25-31 | loop over the names |
| `WireStream.Stream.WriteAttributes` | src/ai/server/AIStateMessage.h:46-52 | loop over the attributes in their order of iteration |
| `WireStream.Stream.TakeAttributes` | src/ai/server/AIStateMessage.h:54-62 | loop over the attributes; a repeated key keeps its first value, a negative count fails |
| `WireStream.Stream.Serialize` | src/ai/server/AICharacterDetailsMessage.h:87-92 | every message class writes its id and its fields |
| `WireStream.Stream.TakeBody` | src/ai/server/ProtocolMessageFactory.h:96-131 | every message class reads its fields |
| `WireFraming.DecodeShorter` | src/ai/server/ProtocolMessageFactory.h:96-131 | decoding consumes at least one byte, so draining a stream terminates |
| `WireFraming.Debugger.NewMessageAvailable` | src/ai/server/ProtocolMessageFactory.h:78-90 | true exactly if four bytes are there, the number they stand for is not -1, and at least that many bytes follow |
| `WireFraming.Debugger.Create` | src/ai/server/ProtocolMessageFactory.h:96-131 | drops the size and decodes; an unknown id gives no message |
| `WireFraming.Debugger.ReadTcpData` | src/debug/src/AIDebugger.cpp:271-302 | the whole receive loop over arbitrary chunks |
| `WireFraming.Debugger.ReadChunk` | src/debug/src/AIDebugger.cpp:273-300 | appends a chunk and handles every complete frame, in order |
| `WireLink.Fifo` | src/ai/server/NetworkImpl.h:133-154 | for every sequence of queued messages, partial sends and received chunks: the handled messages are a prefix of the queued ones, the connection stays open, and all bytes under way are the frames of the rest |
| `WireLink.FifoComplete` | src/debug/src/AIDebugger.cpp:271-302 | after a read the buffer is a proper prefix of the next frame, and once all bytes have arrived every message has been handled |
| `WireDelivery.Delivered` | src/ai/server/NetworkImpl.h:133-154 | for every pattern of queueing, partial sends and received chunks in which no send fails: once a send takes everything and all that is under way has been read, the debugger has handled exactly the messages that were handed over, in order, and has no byte left |
| `WireDelivery.SendExact` | src/ai/server/NetworkImpl.h:133-154 | one sendMessage: how many sends succeed, each for 1 to 16384 bytes from the front, and that it stops when all is sent, when a send takes nothing, which is no error, or when one fails, which is one |
| `WireDelivery.UpdatesHandleAll` | src/ai/server/NetworkImpl.h:204-225 | the server handles one message per update: with all bytes in its buffer, as many updates as messages are waiting handle them all |
| `WireDelivery.FailureCloses` | src/ai/server/NetworkImpl.h:197-201 | a failing send closes the connection: nothing more leaves it and nothing more is queued |
| `WireLink.UpdateHandlesNext` | src/ai/server/NetworkImpl.h:204-225 | the receive part of update handles exactly the next message when its bytes are there |
| `WireLink.DrainOnTrack` | src/debug/src/AIDebugger.cpp:281-300 | the drain loop handles exactly the complete frames and stops in front of the incomplete one |
| `WireLink.FrameAvailable` | src/ai/server/ProtocolMessageFactory.h:78-90 | a frame is available if and only if all of its bytes have arrived |
| `WireLink.StepInv` | src/ai/server/NetworkImpl.h:133-265 | queueing, sending and receiving keep the bytes in order |
| `WireLink.UnhandledDropped` | src/ai/server/NetworkImpl.h:204-225 | a message without a handler is dropped by the server, which goes on with the next frame; the debugger disconnects |
| `WireLink.Client.SendToClient` | src/ai/server/NetworkImpl.h:252-265 | appends the size and the serialized message to `out` |
| `WireLink.Client.SendMessage` | src/ai/server/NetworkImpl.h:133-154 | the loop of partial sends removes exactly what was accepted, and stops on an error |
| `ConditionGrammar.ParseRender` | src/ai/conditions/ConditionParser.h:186-223 | for every well-formed tree, every placement of braces and every text that is its rendering with spaces strewn in: parsing gives the tree if and only if the factory accepts its nodes and the root is not a Filter without filters; it never gives another tree |
| `ConditionGrammar.ParseText` | src/ai/conditions/ConditionParser.h:20 | in particular for the text as the grammar writes it |
| `ConditionGrammar.ReadsCondition` | src/ai/conditions/ConditionParser.h:116-184 | the same for any inner node, with the error otherwise |
| `ConditionGrammar.SplitChildren` | src/ai/conditions/ConditionParser.h:42-67 | splitting the text between the parentheses gives the texts of the children |
| `ConditionGrammar.FilterCopiesAgree` | src/ai/conditions/ConditionParser.h:116-160 | the copy of the filter parser inside fillInnerConditions does what fillInnerFilters does, on every string |
| `ConditionParser.SplitJoin` | src/ai/conditions/ConditionParser.h:42-67 | joining the tokens with commas gives the input back, for every string |
| `ConditionParser.SplitShorter` | src/ai/conditions/ConditionParser.h:42-67 | with more than one token each is shorter than the input, so the recursion terminates |
| `ConditionParser.InnerText` | src/ai/conditions/ConditionParser.h:95-102 | the substring between the parentheses is shorter than the input, also when the length argument wraps |
| `ConditionStrings.ParseExact` | src/ai/conditions/ConditionParser.h:186-223 | for every string whatever: the parser accepts it for a tree if and only if that is what it stands for (name, parameters, and children in the order of the tokens between the parentheses, all the way down), the factory creates every node, and it is not a Filter without parentheses |
| `ConditionStrings.RootError` | src/ai/conditions/ConditionParser.h:195-222 | and the error of every other string: a "(" without any ")" is always refused as a missing brace, a Filter without parentheses for its missing details, otherwise the first error among the children, and then the refusal of the factory |
| `ConditionStrings.FirstError` | src/ai/conditions/ConditionParser.h:72-79 | several tokens give the error of the first one that has an error |
| `ConditionStrings.ErrorOfOne` | src/ai/conditions/ConditionParser.h:95-112 | one token gives a missing brace, the error of its children, or the refusal of the factory, in this order |
| `ConditionStrings.SplitExact` | src/ai/conditions/ConditionParser.h:42-67 | a string is cut exactly at the commas before which as many braces and parentheses have been closed as opened, for every string |
| `ConditionStrings.TokenWhole` | src/ai/conditions/ConditionParser.h:72-81 | a token is not cut again |
| `ConditionStrings.NameExact` | src/ai/conditions/ConditionParser.h:81-93 | the name goes up to the first "{" or "(", or to the end |
| `ConditionStrings.ParametersExact` | src/ai/common/IParser.h:25-43 | parameters are read only if a "{" ends the name, up to the first "}" of the string; when that comes before the "{" the unsigned length wraps and they go to the end, and without a "}" there are none |
| `ConditionStrings.InnerExact` | src/ai/conditions/ConditionParser.h:95-102 | the children stand between the first "(" and the last ")"; when that comes first the unsigned length wraps and they go to the end |
| `ConditionStrings.EraseExact` | src/ai/common/String.h:29-35 | spaces disappear from any text, and nothing else |
| `ConditionParser.Parser.constructor` | src/ai/conditions/ConditionParser.h:186-223 | keeps the string without its spaces |
| `ConditionParser.Parser.SplitConditions` | src/ai/conditions/ConditionParser.h:42-67 | the character loop with its depth counter |
| `ConditionParser.Parser.ReadHead` | src/ai/common/IParser.h:25-43 | name and parameters; a "{" that ends the name without any "}" sets the error but does not stop the parser |
| `ConditionParser.Parser.FillInnerFilters` | src/ai/conditions/ConditionParser.h:69-114 | terminates on every string; pushes exactly the parsed filters, or reports the first error |
| `ConditionParser.Parser.FillInnerConditions` | src/ai/conditions/ConditionParser.h:116-184 | terminates on every string; pushes exactly the parsed conditions or filters, or reports the first error |
| `ConditionParser.Parser.GetCondition` | src/ai/conditions/ConditionParser.h:186-223 | exactly one condition, or the error |
| `ThreadScheduler.TimerExact` | src/run/ThreadScheduler.h:75-98 | for every run and every timer: its calls are exactly those due by the latest time a pass has seen since it was scheduled, each once, and what is queued is its next execution |
| `ThreadScheduler.TimerInNumbers` | src/run/ThreadScheduler.h:42-98 | the same in numbers, for every run, every timer and every time: it was called for that time exactly once if the time is `first` (and with a delay above zero `first` plus a multiple of the delay) and a pass since then has seen it, and never otherwise; it is queued, once, for the first such time that no pass has seen, if there is one |
| `ThreadScheduler.CallsExact` | src/run/ThreadScheduler.h:84-94 | a task with a delay above zero that is due has (now - execTime) / delay + 1 calls, rounded down, at execTime plus multiples of the delay |
| `ThreadScheduler.AfterExact` | src/run/ThreadScheduler.h:84-94 | what is queued of it afterwards is its first execution after `now`, at most one delay later, on the same grid |
| `ThreadScheduler.OneShotExact` | src/run/ThreadScheduler.h:37-43 | a task with no delay, or one below zero, that is due is called exactly once and leaves nothing queued; one that is not due is not called and stays |
| `ThreadScheduler.DrainStep` | src/run/ThreadScheduler.h:79-94 | one turn loses no call, makes none twice and keeps the order of scheduled times |
| `ThreadScheduler.AllPopped` | src/run/ThreadScheduler.h:79-94 | the number of calls due drops by exactly one with each turn, so the loop terminates |
| `ThreadScheduler.DrainTwice` | src/run/ThreadScheduler.h:79-94 | draining at two times is draining at the later one |
| `ThreadScheduler.Scheduler.constructor` | src/run/ThreadScheduler.h:69-74 | nothing queued |
| `ThreadScheduler.Scheduler.ScheduleAtFixedRate` | src/run/ThreadScheduler.h:132-141 | a fresh id and one more task, due after the initial delay |
| `ThreadScheduler.Scheduler.Schedule` | src/run/ThreadScheduler.h:120-122 | a one-shot: delay zero |
| `ThreadScheduler.Scheduler.PickTop` | src/run/ThreadScheduler.h:45-47 | a task with the least execution time |
| `ThreadScheduler.Scheduler.RunTop` | src/run/ThreadScheduler.h:83-93 | runs the top; with a delay above zero puts it back with the same id and delay, one delay later; otherwise drops it |
| `ThreadScheduler.Scheduler.DrainLoop` | src/run/ThreadScheduler.h:79-94 | calls in non-decreasing scheduled time, nothing due left unless stopped, and exactly the due calls |
| `ThreadScheduler.Scheduler.Pass` | src/run/ThreadScheduler.h:75-98 | one pass of the thread, also when the stop flag interrupts it |
| `ThreadPool.Fifo` | src/ai/common/ThreadPool.h:62-102 | in every interleaving: the started tasks are a prefix of the enqueued ones, and enqueued = queued + running + finished |
| `ThreadPool.ParallelExact` | src/ai/zone/Zone.h:257-270 | executeParallel returns only after its function ran exactly once for every AI of the snapshot, and it never runs for anything else |
| `ThreadPool.StoppedFinished` | src/ai/common/ThreadPool.h:105-110 | if nothing is enqueued after the stop, then once all workers have returned every task has finished |
| `ThreadPool.TaskGetsWorker` | src/ai/common/ThreadPool.h:88-102 | no wake-up for a task is lost |
| `ThreadPool.LockStarts` | src/ai/common/ThreadPool.h:67-82 | a worker that finds tasks starts the oldest one that has not started; with none it returns if the pool is stopped, and otherwise is about to wait |
| `ThreadPool.CanHangIff` | src/ai/common/ThreadPool.h:105-110 | after the notification of the destructor, some run without spurious wake-ups leads to a worker that sleeps with no notification pending if and only if a worker was between its check and its wait, because the flag is set without the lock |
| `ThreadPool.GoesToSleep` | src/ai/common/ThreadPool.h:70-73 | that worker goes to sleep when the pending notifications come while nobody waits |
| `ThreadPool.SleepsForever` | src/ai/common/ThreadPool.h:105-110 | a worker that missed it stays asleep in every further step but a spurious wake-up or an enqueue, so join does not return |
| `ThreadPool.StopCanBeMissed` | src/ai/common/ThreadPool.h:62-110 | a concrete run in which this happens |
| `GroupMgr.MembersExact` | src/ai/group/GroupMgr.h:179-246 | over any run: an AI is a member exactly if the last call about both was an add; stored groups are non-empty and their leader is a member |
| `GroupMgr.GroupsHaveMembers` | src/ai/group/GroupMgr.h:216-217 | a group is stored exactly as long as it has a member |
| `GroupMgr.LeaderStays` | src/ai/group/GroupMgr.h:216-220 | the leader changes only when it leaves |
| `GroupMgr.RemoveAllHealthy` | src/ai/group/GroupMgr.h:233-246 | afterwards the AI is a member of no group and nothing else has changed |
| `GroupMgr.SumRemove` | src/ai/group/GroupMgr.h:164-177 | the sum of positions does not depend on the order of iteration |
| `GroupMgr.AverageExact` | src/ai/group/GroupMgr.h:164-177 | the average position times the size of the group is the sum of the positions of its members, in each coordinate |
| `GroupMgr.StepKeeps` | src/ai/group/GroupMgr.h:198-231 | only an update moves a group; a group whose leader has left is led by the first of its members |
| `GroupMgr.Manager.Add` | src/ai/group/GroupMgr.h:179-196 | keeps index and sets in agreement; true exactly if the AI was not a member |
| `GroupMgr.Manager.Remove` | src/ai/group/GroupMgr.h:198-231 | keeps index and sets in agreement; true exactly if the AI was a member |
| `GroupMgr.Manager.RemoveFromAllGroups` | src/ai/group/GroupMgr.h:233-246 | the loop over the ids collected from the index |
| `GroupMgr.Manager.Update` | src/ai/group/GroupMgr.h:164-177 | every stored group gets the average position of its members, and no size is zero |
| `GroupMgr.Manager.IsInAnyGroup` | src/ai/group/GroupMgr.h:290-293 | the index answers as the sets would |
| `GroupMgr.Manager.IsInGroup` | src/ai/group/GroupMgr.h:295-304 | the index answers as the sets would |
| `GroupMgr.Manager.IsGroupLeader` | src/ai/group/GroupMgr.h:270-278 | true only for a member |
| `GroupMgr.Manager.GetGroupSize` | src/ai/group/GroupMgr.h:280-288 | zero exactly if nobody is in the group |
| `AggroMgr.UpdateExact` | src/ai/aggro/AggroMgr.h:131-140 | an update that finds the list dirty or holds a reducing entry leaves exactly the reduced entries with positive aggro, sorted; any other changes nothing; ids stay unique and a clean list is sorted |
| `AggroMgr.TimeSplits` | src/ai/aggro/AggroMgr.h:131-140 | update(a) then update(b) leaves the same list as update(a + b), dropped entries included, if and only if every entry splits |
| `AggroMgr.SplitsIff` | src/ai/aggro/Entry.h:94-107 | when an entry splits, for every kind of reduction and any times, in closed form |
| `AggroMgr.SteadySplits` | src/ai/aggro/Entry.h:101-107 | entries without a reduction or with a VALUE reduction split |
| `AggroMgr.ReducedInNumbers` | src/ai/aggro/Entry.h:76-107 | what a step leaves, in numbers: a VALUE entry loses a thousandth of its value per millisecond and counts as nothing below 0.000001; a RATIO entry loses that part of its aggro and counts as nothing below its minimum; a DISABLED one loses nothing |
| `AggroMgr.RatioSplitsIff` | src/ai/aggro/Entry.h:94-99 | a RATIO reduction that takes something in both steps splits only if nothing is left after them; otherwise the two steps leave more |
| `AggroMgr.MapExact` | src/ai/aggro/AggroMgr.h:131-193 | over any run the list is a map from ids to entries, and the entry that getHighestEntry returns is the greatest of the map |
| `AggroMgr.RunRefines` | src/ai/aggro/AggroMgr.h:131-193 | every run of add, update, defaults and getHighestEntry refines the same run on a map |
| `AggroMgr.HighestExact` | src/ai/aggro/AggroMgr.h:185-193 | the maximum by aggro, then by id |
| `AggroMgr.AddAggroExact` | src/ai/aggro/AggroMgr.h:148-172 | adds to the entry of that id or creates it, and leaves every other entry |
| `AggroMgr.CleanupExact` | src/ai/aggro/AggroMgr.h:62-86 | on a sorted list removing the first entries removes exactly those without aggro |
| `AggroMgr.SortsAsMeantIff` | src/ai/aggro/AggroMgr.h:48-56 | EntrySorter compares every two entries of a list by aggro, then id, if and only if no two of them have different aggro values less than 1e-7 apart with their ids the other way round |
| `AggroMgr.GapSortsAsMeant` | src/ai/aggro/AggroMgr.h:48-56 | in particular when different values are at least 1e-7 apart |
| `AggroMgr.SorterInNumbers` | src/ai/aggro/AggroMgr.h:48-56 | EntrySorter puts an entry first if it has no more aggro and is at least 0.0000001 behind or has the smaller id |
| `AggroMgr.AsMeantIsWeakOrder` | src/ai/aggro/AggroMgr.h:48-56 | under that condition EntrySorter is the strict weak order that std::sort asks for |
| `AggroMgr.StrictOrder` | src/ai/aggro/AggroMgr.h:48-56 | EntrySorter is always a strict partial order |
| `AggroMgr.ConfusedIsTied` | src/ai/aggro/AggroMgr.h:48-56 | two entries that EntrySorter gets wrong are equivalent to it |
| `AggroMgr.CanFailWeakOrder` | src/ai/aggro/AggroMgr.h:48-56 | three entries on which EntrySorter is no strict weak order |
| `AggroMgr.SortSorted` | src/ai/aggro/AggroMgr.h:88-94 | sorting by EntrySorter sorts, under the exact condition |
| `AggroMgr.SortedUnique` | src/ai/aggro/AggroMgr.h:88-94 | the sorted list is unique, so the algorithm behind std::sort does not matter |
| `AggroMgr.List.Add` | src/ai/aggro/AggroMgr.h:148-172 | in place; marks the list dirty |
| `AggroMgr.List.UpdateTime` | src/ai/aggro/AggroMgr.h:131-140 | the reducing loop, then sort and clean up if dirty |
| `AggroMgr.List.CleanupList` | src/ai/aggro/AggroMgr.h:62-86 | the counting loop and the erase |
| `AggroMgr.List.GetHighestEntry` | src/ai/aggro/AggroMgr.h:185-193 | sorts if dirty and returns the greatest entry, or nothing for an empty list |
| `Zone.TickExact` | src/ai/zone/Zone.h:415-439 | an AI is in the zone after the schedules exactly if its id was neither removed nor destroyed and it was there already or was the first one added under a free id |
| `Zone.GroupsExact` | src/ai/zone/Zone.h:415-439 | the groups after the schedules: an AI is a member exactly if it was one and no removal took it out of the zone |
| `Zone.RemovedLeavesGroups` | src/ai/zone/Zone.h:367-380 | in particular a removed AI is in no group |
| `Zone.DestroyedKeepsGroups` | src/ai/zone/Zone.h:382-389 | and every destroyed one has left the zone and stays in its groups |
| `Zone.ZoneObject.ApplySchedules` | src/ai/zone/Zone.h:415-439 | in place: swaps the three lists and applies them, additions first |
| `Zone.ZoneObject.DoRemove` | src/ai/zone/Zone.h:367-380 | the loop of removals, with the group manager |

## Left out

Lua collector:

- Intrusive links: the lists through `next` and `gclist` are sequences, and a pointer into a list (`sweepgc`) is "the header" or "the link inside this object"; relinking one node is a sequence operation. Objects live in one map from addresses to records, a field of the collector's class.
- Weak values, tables with both weak sides (other than as waiting lists in LuaEphemeron), open upvalues and remarkupvals, prototype caches, dead keys, the string table with its revival of dead strings, debt and pause arithmetic, stack shrinking.
- LuaEphemeron has its own heap of weak-key tables and is not joined with the collector steps; its atomic phase starts from a heap in which nothing is marked.
- LuaLoss.LossExact: upvalues are no objects of their own. When the program holds a closure that shares an upvalue with another one, an assignment may change any reference of the other one but that to its prototype; prototype caches are left out.
- LuaPace: how many steps luaC_step makes follows from the debt, which is not modelled; it makes at least a given number, any number, before each batch. A call of luaC_fullgc inside a finalizer ends the batch that the finalizer is part of.
- LuaLossWitness.CursorCanBeLost: at most 32 rounds, after which `gcfinnum` would wrap around to zero.
- LuaSafety.RunSafety: a string may be fixed only if the sweep cursor is not in it; luaC_fix is called for new strings while Lua starts.
- LuaComplete.FullGcExact: is about collections that call no finalizer.
- LuaDueFinalizers.FullGcFinalizers: a finalizer that is called does nothing but receive its object; what else it may do are further actions of the program.
- LuaGlobalState.GlobalState.Atomic: weak tables, remarkupvals and the caches are left out, as in the functions it computes.
- LuaGlobalState.GlobalState.CallFinalizer: the call itself is not made; what the finalizer does is any further run of actions.
- LuaGlobalState.GlobalState.SingleStep: one step of the phase GCScallfin calls one finalizer, where runafewfinalizers calls `gcfinnum` of them; LuaPace takes several such steps for one. The batches at the end of luaC_step are sequences of the action RunFinalizer.
- LuaEphemeron.AtomicExact: without tables with weak values.
- LuaEphemeron.StrongExact: without tables with weak values.
- LuaEphemeron.Collector.Atomic: without tables with weak values.
- LuaAtomic.AtomicMarksInv: without weak tables and remarkupvals.
- LuaGlobalState.GlobalState.PropagateMark: without tables with weak parts.
- What an object refers to is a list of addresses with an optional metatable; traversal order inside an object is that of the list.

Code generator:

- Values of expressions, jumponcond and its removal of an OP_NOT, luaK_nil, luaK_patchclose and the A field, line information.
- JumpThreading.RunSim: patchlistaux with two targets (the code at `src/libs/lua/lcode.c:690-691`) is an operation of a run for lists into which no pending jumps were threaded.
- JumpCoder.FuncState.FixJump: asks that the offset fits, so the error for code longer than MAXARG_sBx is not raised.

References:

- The Lua stack, tables as arguments (one table is fixed), and references above the range of int.

Behaviour trees:

- Other selectors, limits, the time stamps kept for the debugger, replaceChild; a task is an arbitrary function of all calls so far.

Debugger protocol:

- Sockets, select, accept and the ping timer; `send` and the chunks received are arbitrary inputs. Floats are 32-bit patterns. Strings are sequences of bytes.
- Reading past the end of the stream, undefined in the source, ends the model's read with no result.
- WireLink.Fifo: messages fit their fields and have a handler (`WireLink.UnhandledDropped` says what happens to one that has none), frames and the receive buffer stay below two gigabytes (sizes are 32-bit ints).
- WireMessages.AttributesRoundTrip: the attribute map is given as the order in which it is iterated, so equality of maps is equality of that list.

Condition parser:

- The factories are a predicate on nodes; the error texts are an enumeration.
- ConditionGrammar.ParseRender: names are non-empty and free of brackets, commas and spaces, and parameters are free of brackets and spaces, as the grammar asks.

Schedulers:

- ThreadScheduler: cancel, which removes from the heap without restoring its order; callbacks that throw; the wrap-around of timer ids. The queue is a list of which any task with the least time may be the top.
- ThreadPool: results and exceptions of tasks; spurious wake-ups are the event Wake.
- Zone: null pointers, the pointer from an AI to its zone, execute in its other forms, locking.

Groups and aggro:

- GroupMgr: visit, getPosition and getLeader, which only read; locking. The first element of a member set is any function of the set that picks a member.
- AggroMgr: floats are reals, so rounding is not captured; addAggro returns where the entry is and no reference to it, so a later change of its reduction through that reference is not modelled as an operation (lists with any mix of reductions are).

Not modelled at all: steering and geometry, filters on sets of AIs, random and priority selectors, the Lua bindings, factories, registries, the Qt windows.
