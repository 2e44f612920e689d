/** Before the next cycle the program takes hold of all that it can get, gives a stale object the only
    reference to another one that will be white, and drops everything else.  What then leads to that
    object could not be dropped before, either. */
module LuaExposedObject {
  import opened Wrappers
  import opened LuaHeap
  import opened LuaCollector
  import opened LuaMutator
  import opened LuaFinalize
  import opened LuaSafety
  import opened LuaLostCursor
  import opened LuaKept
  import opened LuaQuietLoss
  import opened LuaPace
  import opened LuaHarmfulLoss

  /** One more action before the next cycle. */
  lemma Do(s0: Start, s: State, a: Action)
    requires Leads(s0, s) && Before(s) && Enabled(s, a) && !a.Collect? && !a.RunFinalizer?
    ensures Defined(s, a) && Leads(s0, Apply(s, a)) && LostInv(Apply(s, a))
    ensures forall x :: Stale(Apply(s, a), x) ==> Stale(s, x)
  {
    ActionLost(s, a);
    NotTwice(s);
    LeadsOn(s0, s, a);
  }

  // ---------- all that can be had is a global ----------

  lemma {:induction false} Listed(k: set<Ref>) returns (l: seq<Ref>)
    ensures forall x :: x in l <==> x in k
    decreases |k|
  {
    l := [];
    if k != {} {
      var x :| x in k;
      var m := Listed(k - {x});
      l := [x] + m;
      assert forall z :: z in k <==> z == x || z in k - {x};
    }
  }

  /** The list of what the program holds in `p`. */
  ghost predicate Owns(p: State, l: seq<Ref>) {
    Before(p) && forall x :: x in l <==> x in p.heap && Held(p, x)
  }

  /** From `a` to `b` the object lost references only, none if the program could not drop it. */
  predicate Shrunk(a: Obj, b: Obj, held: bool) {
    && b.kind == a.kind && (!held || a.kind == Proto ==> SameRefsOf(a, b))
    && (a.kind == LuaClosure ==> forall w :: w in b.Out() ==> w in a.Out())
  }

  predicate Empty(o: Obj) {
    o.meta == None && o.refs == []
  }

  /** The program has gone on from `p` to `u`, and everything it held is a global now. */
  ghost predicate Owned(p: State, l: seq<Ref>, u: State) {
    Before(u) && Tied(p, l, u)
  }

  ghost predicate Tied(p: State, l: seq<Ref>, u: State) {
    && u.finobj == p.finobj && u.fixedgc == p.fixedgc && u.mainthread == p.mainthread
    && u.globals == l && u.running == p.running && u.running in l
    && (forall d, z :: d in p.heap && z in p.heap && (d, z) in p.sharing ==> (d, z) in u.sharing)
    && (forall x :: x in l ==> x in p.heap)
    && (forall x :: x in p.heap ==> x in u.heap && Shrunk(p.heap[x], u.heap[x], x in l))
    && (forall x :: x in u.heap && x !in p.heap ==> Empty(u.heap[x]))
    && (forall x :: Stale(u, x) ==> Stale(p, x))
  }

  lemma OwnedHeld(p: State, l: seq<Ref>, u: State, x: Ref)
    requires Owned(p, l, u) && x in l
    ensures Held(u, x)
  {
    assert HeldPath(u, [x], x);
  }

  lemma TakeHold(s0: Start, p: State) returns (l: seq<Ref>, u: State)
    requires Leads(s0, p) && Before(p)
    ensures Owns(p, l) && u == p.(globals := l) && Leads(s0, u) && Owned(p, l, u) && p.mainthread in l
  {
    l := Listed(set x | x in p.heap && Held(p, x));
    RunningIn(p);
    MainHeld(p);
    Do(s0, p, SetRoots(l, p.running));
    u := p.(globals := l);
    HoldTied(p, l);
  }

  lemma HoldTied(p: State, l: seq<Ref>)
    requires p.running in l && forall x :: x in l ==> x in p.heap
    ensures Tied(p, l, p.(globals := l))
  {
    assert forall x :: Stale(p.(globals := l), x) <==> Stale(p, x);
  }

  lemma MainHeld(p: State)
    ensures Held(p, p.mainthread) && Held(p, p.running)
  {
    assert HeldPath(p, [p.mainthread], p.mainthread);
    assert HeldPath(p, [p.running], p.running);
  }

  // ---------- stores and allocation ----------

  /** At this time a store changes the object alone. */
  lemma StoreAtPause(u: State, z: Ref, refs: seq<Ref>, v: Option<Ref>, back: bool)
    requires StoreReady(u, z, None, refs) && u.gcstate == Pause
    ensures var t := Store(u, z, None, refs, v, back);
      && t == u.(heap := t.heap, grayagain := t.grayagain) && t.heap.Keys == u.heap.Keys
      && t.heap[z] == u.heap[z].(meta := None, refs := refs, colour := t.heap[z].colour)
      && (forall x :: x in u.heap && x != z ==> t.heap[x] == u.heap[x])
      && (!BarrierFires(u, z, v) ==> t == SetOut(u, z, None, refs))
  {
  }

  /** The program replaces the references of something that it owns. */
  ghost predicate MayStore(p: State, l: seq<Ref>, u: State, z: Ref, refs: seq<Ref>, v: Option<Ref>) {
    && z in l && z in u.heap && u.heap[z].kind != Str && u.heap[z].kind != Proto && KeepsProtos(u, z, refs)
    && (v.Some? ==> Held(u, v.value) && u.heap[z].kind != LuaClosure)
    && forall y :: y in refs ==> y in u.heap[z].Out() || v == Some(y)
  }

  lemma DoStore(s0: Start, p: State, l: seq<Ref>, u: State, z: Ref, refs: seq<Ref>, v: Option<Ref>, back: bool)
    requires Leads(s0, u) && Owned(p, l, u) && MayStore(p, l, u, z, refs, v) && (back ==> u.heap[z].kind == Table)
    ensures StoreReady(u, z, None, refs)
    ensures Leads(s0, Store(u, z, None, refs, v, back)) && Owned(p, l, Store(u, z, None, refs, v, back))
  {
    OwnedHeld(p, l, u, z);
    assert u.heap[z].(meta := None, refs := refs).Out() == refs;
    Do(s0, u, StoreRef(z, None, refs, v, back));
    StoreAtPause(u, z, refs, v, back);
    StoreTied(p, l, u, Store(u, z, None, refs, v, back), z, refs);
  }

  lemma StoreTied(p: State, l: seq<Ref>, u: State, t: State, z: Ref, refs: seq<Ref>)
    requires Tied(p, l, u) && z in l && z in u.heap && u.heap[z].kind != Proto
    requires t == u.(heap := t.heap, grayagain := t.grayagain) && t.heap.Keys == u.heap.Keys
    requires t.heap[z] == u.heap[z].(meta := None, refs := refs, colour := t.heap[z].colour)
    requires forall x :: x in u.heap && x != z ==> t.heap[x] == u.heap[x]
    requires u.heap[z].kind == LuaClosure ==> forall y :: y in refs ==> y in u.heap[z].Out()
    requires forall x :: Stale(t, x) ==> Stale(u, x)
    ensures Tied(p, l, t)
  {
    assert t.heap[z].Out() == refs;
    forall x | x in p.heap ensures x in t.heap && Shrunk(p.heap[x], t.heap[x], x in l) {
      assert Shrunk(p.heap[x], u.heap[x], x in l);
    }
  }

  lemma {:induction false} Above(k: set<Ref>) returns (n: Ref)
    ensures forall x :: x in k ==> x < n
    decreases |k|
  {
    n := 0;
    if k != {} {
      var x :| x in k;
      var m := Above(k - {x});
      n := if m > x then m else x + 1;
      assert forall z :: z in k ==> z == x || z in k - {x};
    }
  }

  /** A new empty table. */
  function Fresh(u: State, r: Ref): State
    requires u.running in u.heap
  {
    Unshared(NewObject(u, r, Table, None, []), r)
  }

  /** The program allocates a table, which is on the stack then. */
  lemma Allocate(s0: Start, p: State, l: seq<Ref>, u: State) returns (r: Ref, t: State)
    requires Leads(s0, u) && Owned(p, l, u)
    ensures u.running in u.heap && u.heap[u.running].kind == Thread && r !in u.heap
            && t == Fresh(u, r)
    ensures Leads(s0, t) && Owned(p, l, t) && Held(t, r) && CurrentWhite(t, r)
  {
    RunningIn(u);
    r := Above(u.heap.Keys);
    Do(s0, u, New(r, Table, None, []));
    t := Fresh(u, r);
    NewTied(p, l, u, r);
    NewHeld(u, r);
  }

  lemma NewHeld(u: State, r: Ref)
    requires u.running in u.heap && r !in u.heap
    ensures var t := Fresh(u, r); Held(t, r) && CurrentWhite(t, r)
  {
    var t := Fresh(u, r);
    assert r in t.heap[t.running].refs;
    assert HeldPath(t, [t.running, r], r);
  }

  lemma NewTied(p: State, l: seq<Ref>, u: State, r: Ref)
    requires Tied(p, l, u) && u.running in u.heap && r !in u.heap && u.heap[u.running].kind == Thread
    requires forall x :: Stale(Fresh(u, r), x) ==> Stale(u, x)
    ensures Tied(p, l, Fresh(u, r))
  {
    var t := Fresh(u, r);
    forall x | x in p.heap ensures x in t.heap && Shrunk(p.heap[x], t.heap[x], x in l) {
      assert Shrunk(p.heap[x], u.heap[x], x in l);
      if x != u.running { assert t.heap[x] == u.heap[x]; }
    }
  }

  // ---------- a stale object gets a reference that only it has ----------

  /** The program cannot keep `y` alive against its will. */
  ghost predicate Loose(p: State, y: Ref) {
    y !in p.heap || !Kept(p, {}, y)
  }

  predicate StaleOwned(l: seq<Ref>, u: State, b: Ref) {
    b in l && Stale(u, b) && Finalizable(u.heap[b].kind)
  }

  /** The next cycle can miss `y`, to which the stale object `b` points. */
  ghost predicate Exposed(p: State, l: seq<Ref>, u: State, b: Ref, y: Ref) {
    && StaleOwned(l, u, b) && y in u.heap[b].Out() && Loose(p, y)
    && y in u.heap && !Stale(u, y) && y != u.mainthread && y !in u.fixedgc
  }

  /** A new object leaves the stale ones as they are. */
  lemma NewKeepsStale(p: State, l: seq<Ref>, u: State, r: Ref, b: Ref)
    requires StaleOwned(l, u, b) && r !in u.heap && u.running in u.heap && u.heap[u.running].kind == Thread
    ensures var t := Fresh(u, r); StaleOwned(l, t, b) && t.heap[b] == u.heap[b]
    ensures Lists(u) && Tied(p, l, u) ==> r !in p.heap && r != u.mainthread && r !in u.fixedgc
  {
  }

  /** A table, or a gray object: a reference to a new object does not show. */
  lemma ExposeNew(s0: Start, p: State, l: seq<Ref>, u: State, b: Ref) returns (t: State, y: Ref)
    requires Leads(s0, u) && Owned(p, l, u) && StaleOwned(l, u, b)
    requires u.heap[b].kind == Table || u.heap[b].colour.Gray?
    ensures Leads(s0, t) && Owned(p, l, t) && Exposed(p, l, t, b, y)
  {
    var v;
    y, v := Allocate(s0, p, l, u);
    NewKeepsStale(p, l, u, y, b);
    t := GiveNew(s0, p, l, v, b, y);
  }

  lemma GiveNew(s0: Start, p: State, l: seq<Ref>, v: State, b: Ref, y: Ref) returns (t: State)
    requires Leads(s0, v) && Owned(p, l, v) && StaleOwned(l, v, b)
             && (v.heap[b].kind == Table || v.heap[b].colour.Gray?)
    requires Held(v, y) && CurrentWhite(v, y) && y !in p.heap && y != v.mainthread && y !in v.fixedgc
    ensures Leads(s0, t) && Owned(p, l, t) && Exposed(p, l, t, b, y)
  {
    var back := v.heap[b].kind == Table;
    StaleMarked(v, b);
    DoStore(s0, p, l, v, b, [y], Some(y), back);
    t := Store(v, b, None, [y], Some(y), back);
    GivenExposed(p, l, v, b, y, back);
  }

  lemma GivenExposed(p: State, l: seq<Ref>, v: State, b: Ref, y: Ref, back: bool)
    requires StaleOwned(l, v, b) && CurrentWhite(v, y) && y !in p.heap && y != v.mainthread && y !in v.fixedgc
    requires StoreReady(v, b, None, [y]) && v.gcstate == Pause && !v.heap[b].colour.White?
    requires if v.heap[b].kind == Table then back else v.heap[b].colour.Gray?
    ensures Exposed(p, l, Store(v, b, None, [y], Some(y), back), b, y)
  {
    var t := Store(v, b, None, [y], Some(y), back);
    assert t.heap[b].Out() == [y];
  }

  lemma StaleMarked(s: State, x: Ref)
    requires LostInv(s) && Stale(s, x)
    ensures !s.heap[x].colour.White?
  {
    assert !Dead(s, x);
  }

  predicate BlackUserdata(o: Obj) {
    o.kind == Userdata && o.colour.Black?
  }

  /** Two black userdata: one can be made to point to the other, and that one white. */
  lemma ExposeOther(s0: Start, p: State, l: seq<Ref>, u: State, b: Ref, y: Ref) returns (t: State)
    requires Leads(s0, u) && Owned(p, l, u) && StaleOwned(l, u, b) && StaleOwned(l, u, y) && b != y
    requires BlackUserdata(u.heap[b]) && BlackUserdata(u.heap[y]) && Loose(p, y)
    ensures Leads(s0, t) && Owned(p, l, t) && Exposed(p, l, t, b, y)
  {
    OwnedHeld(p, l, u, y);
    DoStore(s0, p, l, u, b, [y], Some(y), false);
    GivenOther(l, u, b, y);
    t := Whiten(s0, p, l, SetOut(u, b, None, [y]), b, y);
  }

  lemma GivenOther(l: seq<Ref>, u: State, b: Ref, y: Ref)
    requires StaleOwned(l, u, b) && StaleOwned(l, u, y) && b != y && BlackUserdata(u.heap[y])
    requires StoreReady(u, b, None, [y])
    ensures var t := SetOut(u, b, None, [y]);
      && Store(u, b, None, [y], Some(y), false) == t && StaleOwned(l, t, b) && StaleOwned(l, t, y)
      && t.heap[b].Out() == [y] && t.heap[y] == u.heap[y]
  {
    assert SetOut(u, b, None, [y]).heap[b].Out() == [y];
  }

  lemma Whiten(s0: Start, p: State, l: seq<Ref>, u: State, b: Ref, y: Ref) returns (t: State)
    requires Leads(s0, u) && Owned(p, l, u) && StaleOwned(l, u, b) && StaleOwned(l, u, y) && b != y
    requires y in u.heap[b].Out() && BlackUserdata(u.heap[y]) && Loose(p, y)
    ensures Leads(s0, t) && Owned(p, l, t) && Exposed(p, l, t, b, y)
  {
    var r, v := Allocate(s0, p, l, u);
    NewKeepsStale(p, l, u, r, b);
    NewKeepsStale(p, l, u, r, y);
    t := WhitenWith(s0, p, l, v, b, y, r);
  }

  lemma WhitenWith(s0: Start, p: State, l: seq<Ref>, v: State, b: Ref, y: Ref, r: Ref) returns (t: State)
    requires Leads(s0, v) && Owned(p, l, v) && StaleOwned(l, v, b) && StaleOwned(l, v, y) && b != y
    requires y in v.heap[b].Out() && BlackUserdata(v.heap[y]) && Loose(p, y) && Held(v, r) && CurrentWhite(v, r)
    ensures Leads(s0, t) && Owned(p, l, t) && Exposed(p, l, t, b, y)
  {
    DoStore(s0, p, l, v, y, [r], Some(r), false);
    t := Store(v, y, None, [r], Some(r), false);
    WhiteExposed(p, l, v, b, y, r);
  }

  lemma WhiteExposed(p: State, l: seq<Ref>, v: State, b: Ref, y: Ref, r: Ref)
    requires StaleOwned(l, v, b) && StaleOwned(l, v, y) && b != y && CurrentWhite(v, r) && v.gcstate == Pause
    requires y in v.heap[b].Out() && BlackUserdata(v.heap[y]) && Loose(p, y) && StoreReady(v, y, None, [r])
    ensures Exposed(p, l, Store(v, y, None, [r], Some(r), false), b, y)
  {
    assert BarrierFires(SetOut(v, y, None, [r]), y, Some(r));
  }

  // ---------- everything else is dropped ----------

  /** The prototypes among the references of `l`. */
  function Protos(s: State, l: seq<Ref>): (r: seq<Ref>)
    ensures forall y :: y in r <==> y in l && IsProto(s, y)
  {
    if l == [] then [] else (if IsProto(s, l[0]) then [l[0]] else []) + Protos(s, l[1..])
  }

  /** Nothing that the program can drop is left in `z`. */
  predicate Bare(u: State, z: Ref) {
    z in u.heap ==>
      || z == u.mainthread || Stale(u, z) || u.heap[z].kind == Proto
      || forall w :: w in u.heap[z].Out() ==> u.heap[z].kind == LuaClosure && IsProto(u, w)
  }

  predicate BareTo(l: seq<Ref>, u: State, n: nat) {
    n <= |l| && forall i :: 0 <= i < n ==> Bare(u, l[i])
  }

  function Rest(u: State, z: Ref): seq<Ref>
    requires z in u.heap
  {
    if u.heap[z].kind == LuaClosure then Protos(u, u.heap[z].Out()) else []
  }

  lemma {:induction false} Strip(s0: Start, p: State, l: seq<Ref>, u: State, b: Ref, y: Ref, n: nat) returns (t: State)
    requires Leads(s0, u) && Owned(p, l, u) && Exposed(p, l, u, b, y) && BareTo(l, u, n)
    ensures Leads(s0, t) && Owned(p, l, t) && Exposed(p, l, t, b, y) && BareTo(l, t, |l|)
    decreases |l| - n
  {
    if n == |l| {
      t := u;
    } else {
      var v := StripNext(s0, p, l, u, b, y, n);
      t := Strip(s0, p, l, v, b, y, n + 1);
    }
  }

  lemma StripNext(s0: Start, p: State, l: seq<Ref>, u: State, b: Ref, y: Ref, n: nat) returns (t: State)
    requires Leads(s0, u) && Owned(p, l, u) && Exposed(p, l, u, b, y) && BareTo(l, u, n) && n < |l|
    ensures Leads(s0, t) && Owned(p, l, t) && Exposed(p, l, t, b, y) && BareTo(l, t, n + 1)
  {
    if Bare(u, l[n]) {
      t := u;
    } else {
      t := StripOne(s0, p, l, u, l[n]);
      StrippedBare(l, u, l[n], n);
      StrippedExposed(p, l, u, l[n], b, y);
    }
  }

  lemma StripOne(s0: Start, p: State, l: seq<Ref>, u: State, z: Ref) returns (t: State)
    requires Leads(s0, u) && Owned(p, l, u) && z in l && !Bare(u, z)
    ensures z in u.heap && t == SetOut(u, z, None, Rest(u, z)) && Leads(s0, t) && Owned(p, l, t)
  {
    NoString(u, z);
    DoStore(s0, p, l, u, z, Rest(u, z), None, false);
    t := SetOut(u, z, None, Rest(u, z));
  }

  lemma StrippedExposed(p: State, l: seq<Ref>, u: State, z: Ref, b: Ref, y: Ref)
    requires Exposed(p, l, u, b, y) && z in u.heap && !Stale(u, z)
    ensures Exposed(p, l, SetOut(u, z, None, Rest(u, z)), b, y)
  {
  }

  lemma NoString(u: State, z: Ref)
    requires LostInv(u) && !Bare(u, z)
    ensures z in u.heap && u.heap[z].kind != Str
  {
    assert !Dead(u, z);
    assert Alive(u, z) && LiveOut(u, z);
  }

  lemma StrippedBare(l: seq<Ref>, u: State, z: Ref, n: nat)
    requires z in u.heap && n < |l| && l[n] == z && BareTo(l, u, n)
    ensures BareTo(l, SetOut(u, z, None, Rest(u, z)), n + 1)
  {
    var t := SetOut(u, z, None, Rest(u, z));
    assert t.heap[z].Out() == Rest(u, z);
    assert forall y :: IsProto(t, y) <==> IsProto(u, y);
    forall i | 0 <= i < n + 1 ensures Bare(t, l[i]) {
      if l[i] != z { assert i < n && Bare(u, l[i]) && (Stale(t, l[i]) <==> Stale(u, l[i])); }
    }
  }

  // ---------- shared upvalues ----------

  /** The closures that share upvalues with what the program holds, with their prototypes only. */
  ghost function Emptied(u: State): map<Ref, seq<Ref>> {
    map z | z in u.heap && u.heap[z].kind == LuaClosure && SharesHeld(u, z) :: Protos(u, u.heap[z].refs)
  }

  /** What is left of the references of `z` the program could not drop in `p` either. */
  ghost predicate Reduced(p: State, q: State) {
    forall z, w :: z in q.heap && z != q.mainthread && !Stale(q, z) && w in q.heap[z].Out() ==> Solid(p, z, w)
  }

  lemma EmptyUpvalues(s0: Start, p: State, l: seq<Ref>, u: State, b: Ref, y: Ref) returns (t: State)
    requires Leads(s0, u) && Before(u) && Exposed(p, l, u, b, y)
    ensures t == SetUpvalues(u, Emptied(u)) && Leads(s0, t) && Before(t) && Exposed(p, l, t, b, y)
  {
    EmptiedEnabled(u);
    t := DoUpvalues(s0, u, Emptied(u));
    EmptiedExposed(p, l, u, b, y);
  }

  lemma DoUpvalues(s0: Start, u: State, cs: map<Ref, seq<Ref>>) returns (t: State)
    requires Leads(s0, u) && Before(u) && Enabled(u, StoreUpval(cs, u.mainthread))
    ensures t == SetUpvalues(u, cs) && Leads(s0, t) && Before(t)
  {
    var a := StoreUpval(cs, u.mainthread);
    Do(s0, u, a);
    t := Apply(u, a);
  }

  lemma EmptiedEnabled(u: State)
    ensures Enabled(u, StoreUpval(Emptied(u), u.mainthread))
  {
    MainHeld(u);
  }

  lemma EmptiedExposed(p: State, l: seq<Ref>, u: State, b: Ref, y: Ref)
    requires Exposed(p, l, u, b, y)
    ensures Exposed(p, l, SetUpvalues(u, Emptied(u)), b, y)
  {
  }

  lemma EmptiedReduced(p: State, l: seq<Ref>, u: State)
    requires Owns(p, l) && Owned(p, l, u) && BareTo(l, u, |l|)
    ensures Reduced(p, SetUpvalues(u, Emptied(u)))
  {
    var t := SetUpvalues(u, Emptied(u));
    forall z, w | z in t.heap && z != t.mainthread && !Stale(t, z) && w in t.heap[z].Out() ensures Solid(p, z, w) {
      assert !Stale(u, z);
      ReducedAt(p, l, u, z, w);
    }
  }

  lemma ReducedAt(p: State, l: seq<Ref>, u: State, z: Ref, w: Ref)
    requires Owns(p, l) && Owned(p, l, u) && BareTo(l, u, |l|) && z in u.heap && z != u.mainthread && !Stale(u, z)
    requires w in SetUpvalues(u, Emptied(u)).heap[z].Out()
    ensures Solid(p, z, w)
  {
    assert w in u.heap[z].Out();
    assert z in p.heap;
    assert Shrunk(p.heap[z], u.heap[z], z in l);
    if z in l {
      var i :| 0 <= i < |l| && l[i] == z;
      assert Bare(u, l[i]);
    } else if Attainable(p, z) {
      AttainableHeld(p, z);
    }
    if u.heap[z].kind == LuaClosure { ProtoBefore(p, l, u, z, w); }
    if SharesAttainable(p, z) { StillShares(p, l, u, z); }
  }

  lemma StillShares(p: State, l: seq<Ref>, u: State, z: Ref)
    requires Owns(p, l) && Owned(p, l, u) && z in p.heap && SharesAttainable(p, z)
    ensures SharesHeld(u, z)
  {
    var d :| (d, z) in p.sharing && Attainable(p, d);
    AttainableHeld(p, d);
    HeldAlive(p, d);
    OwnedHeld(p, l, u, d);
  }

  lemma AttainableHeld(p: State, z: Ref)
    requires Attainable(p, z) && p.tobefnz == []
    ensures Held(p, z)
  {
    var q :| AttainPath(p, q, z);
    assert HeldPath(p, q, z);
  }

  lemma ProtoBefore(p: State, l: seq<Ref>, u: State, z: Ref, w: Ref)
    requires Owns(p, l) && Owned(p, l, u) && z in p.heap && w in p.heap[z].Out()
    ensures IsProto(p, w) <==> IsProto(u, w)
  {
    assert !Dead(p, z);
    assert Alive(p, z) && LiveOut(p, z) && Alive(p, w);
    assert Shrunk(p.heap[w], u.heap[w], w in l);
  }

  // ---------- only the main thread is left ----------

  /** Only the main thread is in use, and it holds `b` only. */
  ghost predicate Prepared(p: State, s: State, b: Ref, y: Ref) {
    && s.finobj == p.finobj && Reduced(p, s) && Loose(p, y)
    && s.globals == [] && s.running == s.mainthread && s.mainthread in s.heap && s.heap[s.mainthread].Out() == [b]
    && Stale(s, b) && y in s.heap[b].Out()
    && y in s.heap && !Stale(s, y) && y != s.mainthread && y !in s.fixedgc
  }

  /** The program drops all roots but the main thread, and from that everything but `b`. */
  lemma DropRoots(s0: Start, p: State, l: seq<Ref>, s: State, b: Ref, y: Ref) returns (t: State)
    requires Leads(s0, s) && Before(s) && s.finobj == p.finobj && Reduced(p, s) && Exposed(p, l, s, b, y)
    requires s.globals == l
    ensures Leads(s0, t) && Before(t) && Prepared(p, t, b, y)
  {
    var u := MainOnly(s0, s, b);
    MainHeld(u);
    Do(s0, u, SetRoots([], u.mainthread));
    t := u.(globals := [], running := u.mainthread);
    MainPrepared(p, l, s, t, b, y);
  }

  lemma MainPrepared(p: State, l: seq<Ref>, s: State, t: State, b: Ref, y: Ref)
    requires s.finobj == p.finobj && Reduced(p, s) && Exposed(p, l, s, b, y) && s.mainthread in s.heap
    requires t == SetOut(s, s.mainthread, None, [b]).(globals := [], running := s.mainthread)
    ensures Prepared(p, t, b, y)
  {
    assert t.heap[s.mainthread].Out() == [b];
    assert forall x :: Stale(t, x) <==> Stale(s, x);
  }

  lemma MainOnly(s0: Start, s: State, b: Ref) returns (u: State)
    requires Leads(s0, s) && Before(s) && b in s.globals && Stale(s, b)
    ensures s.mainthread in s.heap && u == SetOut(s, s.mainthread, None, [b]) && u.heap[s.mainthread].Out() == [b]
    ensures Leads(s0, u) && Before(u) && u.heap[u.mainthread].kind == Thread
  {
    MainHeld(s);
    RunningIn(s);
    assert HeldPath(s, [b], b);
    var a := StoreRef(s.mainthread, None, [b], Some(b), false);
    Do(s0, s, a);
    u := Apply(s, a);
    assert u.heap[s.mainthread].Out() == [b];
  }

  // ---------- from the loss to there ----------

  /** One black userdata left behind, and another or something that only it may hold. */
  lemma Pick(s: State, p: State) returns (b: Ref, y: Ref)
    requires !HarmlessLoss(s) && AllIn(s, s.tobefnz) && Unfolded(s, p)
    requires forall x :: LeftBehind(s, x) ==> s.heap[x].kind == Userdata && s.heap[x].colour.Black?
    ensures LeftBehind(s, b) && b != y && Loose(p, y) && b in s.heap
    ensures LeftBehind(s, y) || (y in s.heap[b].Out() && y != s.mainthread && y !in s.fixedgc)
  {
    if x :| LeftBehind(s, x) && !Harmless(s, {}, x) {
      b := x;
      y :| y in s.heap[x].Out() && !Sheltered(s, {}, x, y);
    } else {
      b, y :| LeftBehind(s, b) && LeftBehind(s, y) && b != y && !Kept(s, {}, y);
    }
    if Kept(p, {}, y) { KeptBefore(s, p, y); }
  }

  lemma AllStranded(s: State, p: State, l: seq<Ref>, u: State)
    requires Owns(p, l) && u == p.(globals := l)
    requires forall x :: LeftBehind(s, x) ==> Stranded(p, x)
    requires forall x :: Stale(p, x) ==> LeftBehind(s, x)
    ensures forall x :: LeftBehind(s, x) ==> StaleOwned(l, u, x)
    ensures forall x :: Stale(u, x) ==> LeftBehind(s, x)
  {
    forall x | LeftBehind(s, x) ensures StaleOwned(l, u, x) {
      assert Stranded(p, x);
      AttainableHeld(p, x);
    }
    assert forall x :: Stale(u, x) <==> Stale(p, x);
  }

  /** All finalizers have been called, and the program holds what it can get. */
  lemma Collected(s: State, pace: Pace) returns (p: State, l: seq<Ref>, u: State)
    requires Inv(s) && LosesCursor(s) && Resting(pace)
    ensures s.tobefnz[0] in s.heap && s.running in s.heap && AllIn(s, s.tobefnz)
    ensures Leads(Start(CallFinalizer(s), pace), u) && Owns(p, l) && Owned(p, l, u) && p.mainthread in l
            && Unfolded(s, p)
    ensures u == p.(globals := l) && u.fixedgc == s.fixedgc && u.mainthread == s.mainthread
    ensures forall x :: LeftBehind(s, x) ==>
              StaleOwned(l, u, x) && u.heap[x] == s.heap[x].(finalized := u.heap[x].finalized)
    ensures forall x :: Stale(u, x) ==> LeftBehind(s, x)
  {
    p := Strand(s, pace);
    l, u := TakeHold(Start(CallFinalizer(s), pace), p);
    AllStranded(s, p, l, u);
  }

  /** If the loss is not harmless, the program can expose an object. */
  lemma Expose(s: State, pace: Pace) returns (p: State, l: seq<Ref>, t: State, b: Ref, y: Ref)
    requires Inv(s) && LosesCursor(s) && !HarmlessLoss(s) && Resting(pace)
    ensures s.tobefnz[0] in s.heap && s.running in s.heap
    ensures Leads(Start(CallFinalizer(s), pace), t) && Owns(p, l) && Owned(p, l, t) && Exposed(p, l, t, b, y)
    ensures p.mainthread in l
  {
    var u;
    p, l, u := Collected(s, pace);
    t, b, y := ExposeIn(Start(CallFinalizer(s), pace), s, p, l, u);
  }

  lemma ExposeIn(s0: Start, s: State, p: State, l: seq<Ref>, u: State) returns (t: State, b: Ref, y: Ref)
    requires !HarmlessLoss(s) && AllIn(s, s.tobefnz) && Unfolded(s, p) && Leads(s0, u) && Owned(p, l, u)
    requires u == p.(globals := l) && u.fixedgc == s.fixedgc && u.mainthread == s.mainthread
    requires forall x :: LeftBehind(s, x) ==>
               StaleOwned(l, u, x) && u.heap[x] == s.heap[x].(finalized := u.heap[x].finalized)
    requires forall x :: Stale(u, x) ==> LeftBehind(s, x)
    ensures Leads(s0, t) && Owned(p, l, t) && Exposed(p, l, t, b, y)
  {
    if x :| LeftBehind(s, x) && (s.heap[x].kind == Table || s.heap[x].colour.Gray?) {
      b := x;
      t, y := ExposeNew(s0, p, l, u, b);
    } else {
      LeftBlack(s, l, u);
      b, y := Pick(s, p);
      if LeftBehind(s, y) {
        t := ExposeOther(s0, p, l, u, b, y);
      } else {
        t := u;
        OutIn(u, b, y);
      }
    }
  }

  lemma OutIn(p: State, b: Ref, y: Ref)
    requires Before(p) && b in p.heap && y in p.heap[b].Out()
    ensures y in p.heap
  {
    assert !Dead(p, b);
    assert Alive(p, b) && LiveOut(p, b);
  }

  /** Black userdata only were left behind. */
  lemma LeftBlack(s: State, l: seq<Ref>, u: State)
    requires Before(u) && forall x :: LeftBehind(s, x) ==>
               x in s.heap && s.heap[x].kind != Table && !s.heap[x].colour.Gray?
    requires forall x :: LeftBehind(s, x) ==>
               StaleOwned(l, u, x) && u.heap[x] == s.heap[x].(finalized := u.heap[x].finalized)
    ensures forall x :: LeftBehind(s, x) ==> x in u.heap && BlackUserdata(u.heap[x]) && BlackUserdata(s.heap[x])
  {
    forall x | LeftBehind(s, x) ensures x in u.heap && BlackUserdata(u.heap[x]) && BlackUserdata(s.heap[x]) {
      StaleMarked(u, x);
    }
  }
}
