/** What stays alive whatever the program does: objects that a registered object leads to along
    references that the program cannot drop.  It drops references only of objects that it holds or will
    be given by a finalizer that is due; never those to a prototype, or of one. */
module LuaKept {
  import opened Wrappers
  import opened LuaHeap
  import opened LuaCollector
  import opened LuaMutator
  import opened LuaFinalize
  import opened LuaSafety

  predicate SameRefsOf(a: Obj, b: Obj) {
    b.meta == a.meta && b.refs == a.refs
  }

  predicate AttainRoot(s: State, x: Ref) {
    HeldRoot(s, x) || x in s.tobefnz
  }

  ghost predicate AttainPath(s: State, p: seq<Ref>, x: Ref) {
    |p| > 0 && AttainRoot(s, p[0]) && p[|p| - 1] == x && Chain(s.heap, p)
  }

  /** The program holds `x`, or the finalizers that are due can hand it over. */
  ghost predicate Attainable(s: State, x: Ref) {
    exists p :: AttainPath(s, p, x)
  }

  ghost predicate SharesAttainable(s: State, z: Ref) {
    exists d :: (d, z) in s.sharing && Attainable(s, d)
  }

  /** The program can make `z` stop referring to `w`: by a store into `z`, or by an assignment to an
      upvalue that the closure `z` shares. */
  ghost predicate Droppable(s: State, z: Ref, w: Ref)
    requires z in s.heap
  {
    match s.heap[z].kind
    case Proto => false
    case LuaClosure => !IsProto(s, w) && (Attainable(s, z) || (SharesAttainable(s, z) && w !in s.heap[z].MetaRefs()))
    case _ => Attainable(s, z)
  }

  ghost predicate Solid(s: State, z: Ref, w: Ref) {
    z in s.heap && w in s.heap[z].Out() && !Droppable(s, z, w)
  }

  ghost predicate KeptPath(s: State, b: set<Ref>, p: seq<Ref>, y: Ref) {
    && |p| > 0 && p[0] in s.finobj && p[|p| - 1] == y
    && forall i :: 0 <= i < |p| - 1 ==> p[i] !in b && Solid(s, p[i], p[i + 1])
  }

  /** A registered object leads to `y` along solid references, none of them from an object of `b`. */
  ghost predicate Kept(s: State, b: set<Ref>, y: Ref) {
    exists p :: KeptPath(s, b, p, y)
  }

  // ---------- what the program can attain ----------

  lemma HeldAttainable(s: State, x: Ref)
    requires Held(s, x)
    ensures Attainable(s, x)
  {
    var p :| HeldPath(s, p, x);
    assert AttainPath(s, p, x);
  }

  lemma RootAttainable(s: State, x: Ref)
    requires AttainRoot(s, x)
    ensures Attainable(s, x)
  {
    assert AttainPath(s, [x], x);
  }

  lemma AttainOn(s: State, z: Ref, w: Ref)
    requires Attainable(s, z) && z in s.heap && w in s.heap[z].Out()
    ensures Attainable(s, w)
  {
    var p :| AttainPath(s, p, z);
    var q := p + [w];
    forall i | 0 <= i < |q| - 1 ensures q[i] in s.heap && q[i + 1] in s.heap[q[i]].Out() {
      if i < |p| - 1 { assert q[i] == p[i] && q[i + 1] == p[i + 1]; }
    }
    assert AttainPath(s, q, w);
  }

  /** Known before, or new. */
  ghost predicate NoSurprise(s: State, n: set<Ref>, x: Ref) {
    Attainable(s, x) || x in n
  }

  /** From `s` to `t`, where the objects `n` are new, no object came to refer to something that the
      program could not attain. */
  ghost predicate Confined(s: State, t: State, n: set<Ref>) {
    && (forall x :: x in n ==> x !in s.heap)
    && (forall x :: AttainRoot(t, x) ==> NoSurprise(s, n, x))
    && (forall z, w :: z in t.heap && w in t.heap[z].Out() ==>
          (z in s.heap && w in s.heap[z].Out()) || NoSurprise(s, n, w))
  }

  lemma ConfinedAttain(s: State, t: State, n: set<Ref>, x: Ref)
    requires Confined(s, t, n) && Attainable(t, x)
    ensures NoSurprise(s, n, x)
  {
    var p :| AttainPath(t, p, x);
    ConfinedPath(s, t, n, p, |p| - 1);
  }

  lemma {:induction false} ConfinedPath(s: State, t: State, n: set<Ref>, p: seq<Ref>, i: nat)
    requires Confined(s, t, n) && i < |p| && AttainRoot(t, p[0]) && Chain(t.heap, p)
    ensures NoSurprise(s, n, p[i])
  {
    if i > 0 {
      ConfinedPath(s, t, n, p, i - 1);
      var z, w := p[i - 1], p[i - 1 + 1];
      assert z in t.heap && w in t.heap[z].Out();
      if z in s.heap && w in s.heap[z].Out() { AttainOn(s, z, w); }
    }
  }

  // ---------- solid references stay ----------

  /** What the program cannot drop is still there, and so is what makes it so. */
  ghost predicate Lasts(s: State, t: State, z: Ref, w: Ref)
    requires z in s.heap
  {
    && z in t.heap && t.heap[z].kind == s.heap[z].kind && w in t.heap[z].Out()
    && (IsProto(s, w) ==> IsProto(t, w))
    && (w in s.heap[z].MetaRefs() && !Attainable(s, z) ==> w in t.heap[z].MetaRefs())
  }

  /** What `z` shares it shared before with an object of `s`, or the program could attain it. */
  ghost predicate SharesLess(s: State, t: State, n: set<Ref>, z: Ref) {
    forall d :: (d, z) in t.sharing ==> Attainable(s, z) || ((d, z) in s.sharing && d !in n)
  }

  ghost predicate Fenced(s: State, t: State) {
    && (forall x :: x in s.finobj ==> x in t.finobj)
    && (forall z, w :: Solid(s, z, w) ==> Solid(t, z, w))
  }

  lemma SolidStays(s: State, t: State, n: set<Ref>, z: Ref, w: Ref)
    requires Confined(s, t, n) && Solid(s, z, w) && Lasts(s, t, z, w) && SharesLess(s, t, n, z)
    ensures Solid(t, z, w)
  {
    if Attainable(t, z) { ConfinedAttain(s, t, n, z); }
    if d :| (d, z) in t.sharing && Attainable(t, d) { ConfinedAttain(s, t, n, d); }
  }

  lemma FencedKept(s: State, t: State, b: set<Ref>, c: set<Ref>, y: Ref)
    requires Fenced(s, t) && Kept(s, b, y) && c <= b
    ensures Kept(t, c, y)
  {
    var p :| KeptPath(s, b, p, y);
    assert KeptPath(t, c, p, y);
  }

  /** Nothing but colours, marks and lists changed, and no root is new. */
  ghost predicate SameRefs(s: State, t: State) {
    && t.heap.Keys == s.heap.Keys && t.sharing == s.sharing
    && (forall x :: x in s.heap ==>
          t.heap[x] == s.heap[x].(colour := t.heap[x].colour, finalized := t.heap[x].finalized))
    && (forall x :: AttainRoot(t, x) ==> AttainRoot(s, x))
    && (forall x :: x in s.finobj ==> x in t.finobj)
  }

  lemma SameRefsFenced(s: State, t: State)
    requires SameRefs(s, t)
    ensures Fenced(s, t)
  {
    forall x | AttainRoot(t, x) ensures NoSurprise(s, {}, x) { RootAttainable(s, x); }
    forall z, w | z in t.heap && w in t.heap[z].Out() ensures z in s.heap && w in s.heap[z].Out() {
      assert t.heap[z].Out() == s.heap[z].Out();
    }
    assert Confined(s, t, {});
    forall z, w | Solid(s, z, w) ensures Solid(t, z, w) {
      assert t.heap[z].Out() == s.heap[z].Out();
      SolidStays(s, t, {}, z, w);
    }
  }

  // ---------- the actions ----------

  /** Objects of `s` other than `p` refer to what they did. */
  ghost predicate OthersSame(s: State, t: State, p: Ref) {
    && t.finobj == s.finobj
    && (forall x :: x in s.heap ==> x in t.heap && t.heap[x].kind == s.heap[x].kind)
    && (forall x :: x in s.heap && x != p ==> t.heap[x].meta == s.heap[x].meta && t.heap[x].refs == s.heap[x].refs)
  }

  lemma OthersLast(s: State, t: State, p: Ref, z: Ref, w: Ref)
    requires OthersSame(s, t, p) && Solid(s, z, w) && z != p
    ensures Lasts(s, t, z, w)
  {
    assert t.heap[z].Out() == s.heap[z].Out();
  }

  /** An object that the program holds keeps at least what it must. */
  lemma HeldLasts(s: State, t: State, p: Ref, w: Ref)
    requires OthersSame(s, t, p) && Solid(s, p, w) && Attainable(s, p) && KeepsProtos(s, p, t.heap[p].Out())
    ensures Lasts(s, t, p, w)
  {
  }

  lemma OneChanged(s: State, t: State, n: set<Ref>, p: Ref)
    requires OthersSame(s, t, p) && Confined(s, t, n) && p in s.heap && Attainable(s, p)
             && KeepsProtos(s, p, t.heap[p].Out())
    requires forall z :: z in s.heap ==> SharesLess(s, t, n, z)
    ensures Fenced(s, t)
  {
    forall z, w | Solid(s, z, w) ensures Solid(t, z, w) {
      if z == p { HeldLasts(s, t, p, w); } else { OthersLast(s, t, p, z, w); }
      SolidStays(s, t, n, z, w);
    }
  }

  lemma NewFenced(s: State, r: Ref, kind: Kind, meta: Option<Ref>, refs: seq<Ref>)
    requires Enabled(s, New(r, kind, meta, refs)) && s.running in s.heap && s.heap[s.running].kind == Thread
    ensures Fenced(s, Unshared(NewObject(s, r, kind, meta, refs), r))
  {
    RootAttainable(s, s.running);
    NewConfined(s, r, kind, meta, refs);
    NewOthers(s, r, kind, meta, refs);
    OneChanged(s, Unshared(NewObject(s, r, kind, meta, refs), r), {r}, s.running);
  }

  lemma NewOthers(s: State, r: Ref, kind: Kind, meta: Option<Ref>, refs: seq<Ref>)
    requires s.running in s.heap && r !in s.heap && s.heap[s.running].kind == Thread
    ensures var t := Unshared(NewObject(s, r, kind, meta, refs), r);
      && OthersSame(s, t, s.running) && KeepsProtos(s, s.running, t.heap[s.running].Out())
      && forall z :: z in s.heap ==> SharesLess(s, t, {r}, z)
  {
  }

  lemma NewConfined(s: State, r: Ref, kind: Kind, meta: Option<Ref>, refs: seq<Ref>)
    requires Enabled(s, New(r, kind, meta, refs)) && s.running in s.heap
    ensures Confined(s, Unshared(NewObject(s, r, kind, meta, refs), r), {r})
  {
    var t := Unshared(NewObject(s, r, kind, meta, refs), r);
    forall x | AttainRoot(t, x) ensures NoSurprise(s, {r}, x) { RootAttainable(s, x); }
    forall z, w | z in t.heap && w in t.heap[z].Out()
      ensures (z in s.heap && w in s.heap[z].Out()) || NoSurprise(s, {r}, w)
    {
      NewEdge(s, r, kind, meta, refs, z, w);
    }
  }

  lemma NewEdge(s: State, r: Ref, kind: Kind, meta: Option<Ref>, refs: seq<Ref>, z: Ref, w: Ref)
    requires Enabled(s, New(r, kind, meta, refs)) && s.running in s.heap
    requires var t := NewObject(s, r, kind, meta, refs); z in t.heap && w in t.heap[z].Out()
    ensures (z in s.heap && w in s.heap[z].Out()) || NoSurprise(s, {r}, w)
  {
    if z == r {
      assert w in Obj(kind, White(s.currentwhite), false, meta, refs).Out();
      HeldAttainable(s, w);
    } else if z == s.running {
      assert w in s.heap[z].Out() || w == r;
    }
  }

  /** A store changes the references of one object, and colours. */
  lemma StoreShape(s: State, p: Ref, meta: Option<Ref>, refs: seq<Ref>, v: Option<Ref>, back: bool)
    requires StoreReady(s, p, meta, refs)
    ensures var t := Store(s, p, meta, refs, v, back);
      && t == s.(heap := t.heap, gray := t.gray, grayagain := t.grayagain) && t.heap.Keys == s.heap.Keys
      && forall x :: x in s.heap ==> t.heap[x] == SetOut(s, p, meta, refs).heap[x].(colour := t.heap[x].colour)
  {
    var u, t := SetOut(s, p, meta, refs), Store(s, p, meta, refs, v, back);
    if BarrierFires(u, p, v) && !back && KeepInvariant(s.gcstate) {
      assert Grew(u.heap, t.heap);
      forall x | x in s.heap ensures t.heap[x] == u.heap[x].(colour := t.heap[x].colour) {
        assert Darker(u.heap[x], t.heap[x]);
      }
    }
  }

  lemma StoreFenced(s: State, p: Ref, meta: Option<Ref>, refs: seq<Ref>, v: Option<Ref>, back: bool)
    requires Enabled(s, StoreRef(p, meta, refs, v, back)) && StoreReady(s, p, meta, refs)
    ensures Fenced(s, Store(s, p, meta, refs, v, back))
  {
    StoreShape(s, p, meta, refs, v, back);
    var t := Store(s, p, meta, refs, v, back);
    var obj := s.heap[p].(meta := meta, refs := refs);
    assert t.heap[p].Out() == obj.Out();
    HeldAttainable(s, p);
    assert Confined(s, t, {}) by {
      forall x | AttainRoot(t, x) ensures NoSurprise(s, {}, x) { RootAttainable(s, x); }
      forall z, w | z in t.heap && w in t.heap[z].Out()
        ensures (z in s.heap && w in s.heap[z].Out()) || NoSurprise(s, {}, w)
      {
        if z != p {
          assert t.heap[z].Out() == s.heap[z].Out();
        } else if v == Some(w) {
          HeldAttainable(s, w);
        }
      }
    }
    OneChanged(s, t, {}, p);
  }

  lemma UpvalueShape(s: State, cs: map<Ref, seq<Ref>>, v: Ref)
    requires UpvalueReady(s, cs, v)
    ensures var t := StoreUpvalue(s, cs, v);
      && t == s.(heap := t.heap, gray := t.gray) && t.heap.Keys == s.heap.Keys
      && forall x :: x in s.heap ==> t.heap[x] == SetUpvalues(s, cs).heap[x].(colour := t.heap[x].colour)
  {
    var u, t := SetUpvalues(s, cs), StoreUpvalue(s, cs, v);
    if KeepInvariant(s.gcstate) {
      assert Grew(u.heap, t.heap);
      forall x | x in s.heap ensures t.heap[x] == u.heap[x].(colour := t.heap[x].colour) {
        assert Darker(u.heap[x], t.heap[x]);
      }
    }
  }

  lemma UpvalueFenced(s: State, cs: map<Ref, seq<Ref>>, v: Ref)
    requires Enabled(s, StoreUpval(cs, v)) && UpvalueReady(s, cs, v)
    ensures Fenced(s, StoreUpvalue(s, cs, v))
  {
    UpvalueShape(s, cs, v);
    var t := StoreUpvalue(s, cs, v);
    UpvalueConfined(s, t, cs, v);
    forall z, w | Solid(s, z, w) ensures Solid(t, z, w) {
      UpvalueLasts(s, t, cs, v, z, w);
      SolidStays(s, t, {}, z, w);
    }
  }

  lemma UpvalueConfined(s: State, t: State, cs: map<Ref, seq<Ref>>, v: Ref)
    requires Enabled(s, StoreUpval(cs, v)) && t == s.(heap := t.heap, gray := t.gray) && t.heap.Keys == s.heap.Keys
    requires forall x :: x in s.heap ==> t.heap[x] == SetUpvalues(s, cs).heap[x].(colour := t.heap[x].colour)
    ensures Confined(s, t, {})
  {
    HeldAttainable(s, v);
    forall x | AttainRoot(t, x) ensures NoSurprise(s, {}, x) { RootAttainable(s, x); }
    forall z, w | z in t.heap && w in t.heap[z].Out()
      ensures (z in s.heap && w in s.heap[z].Out()) || NoSurprise(s, {}, w)
    {
      if z in cs {
        assert w in s.heap[z].MetaRefs() || w in cs[z];
      } else {
        assert t.heap[z].Out() == s.heap[z].Out();
      }
    }
  }

  lemma UpvalueLasts(s: State, t: State, cs: map<Ref, seq<Ref>>, v: Ref, z: Ref, w: Ref)
    requires Enabled(s, StoreUpval(cs, v)) && t == s.(heap := t.heap, gray := t.gray) && t.heap.Keys == s.heap.Keys
    requires forall x :: x in s.heap ==> t.heap[x] == SetUpvalues(s, cs).heap[x].(colour := t.heap[x].colour)
    requires Solid(s, z, w)
    ensures Lasts(s, t, z, w)
  {
    if z in cs {
      assert t.heap[z].Out() == s.heap[z].MetaRefs() + cs[z];
      if Held(s, z) { HeldAttainable(s, z); }
      if d :| (d, z) in s.sharing && Held(s, d) { HeldAttainable(s, d); }
    } else {
      assert t.heap[z].Out() == s.heap[z].Out();
    }
  }

  lemma RootsFenced(s: State, globals: seq<Ref>, running: Ref)
    requires AllHeld(s, globals) && Held(s, running)
    ensures Fenced(s, s.(globals := globals, running := running))
  {
    var t := s.(globals := globals, running := running);
    assert Confined(s, t, {}) by {
      forall x | AttainRoot(t, x) ensures NoSurprise(s, {}, x) {
        if x in globals || x == running { HeldAttainable(s, x); } else { RootAttainable(s, x); }
      }
    }
    forall z, w | Solid(s, z, w) ensures Solid(t, z, w) { SolidStays(s, t, {}, z, w); }
  }

  lemma ShareFenced(s: State, c: Ref, d: Ref)
    requires Held(s, c) && Held(s, d)
    ensures Fenced(s, s.(sharing := s.sharing + {(c, d), (d, c)}))
  {
    var t := s.(sharing := s.sharing + {(c, d), (d, c)});
    HeldAttainable(s, c);
    HeldAttainable(s, d);
    assert Confined(s, t, {}) by {
      forall x | AttainRoot(t, x) ensures NoSurprise(s, {}, x) { RootAttainable(s, x); }
    }
    forall z, w | Solid(s, z, w) ensures Solid(t, z, w) {
      assert SharesLess(s, t, {}, z);
      SolidStays(s, t, {}, z, w);
    }
  }

  /** Calling a finalizer puts on the stack what was to be had anyway. */
  lemma FinalizerFenced(s: State)
    requires s.tobefnz != [] && s.tobefnz[0] in s.heap && s.running in s.heap && s.heap[s.running].kind == Thread
    ensures Fenced(s, CallFinalizer(s))
  {
    var t := CallFinalizer(s);
    var o := s.tobefnz[0];
    RootAttainable(s, s.running);
    RootAttainable(s, o);
    assert Confined(s, t, {}) by {
      forall x | AttainRoot(t, x) ensures NoSurprise(s, {}, x) { RootAttainable(s, x); }
      forall z, w | z in t.heap && w in t.heap[z].Out()
        ensures (z in s.heap && w in s.heap[z].Out()) || NoSurprise(s, {}, w)
      {
        if z == s.running {
          assert w in s.heap[z].Out() || w == o;
        } else {
          assert t.heap[z].Out() == s.heap[z].Out();
        }
      }
    }
    OneChanged(s, t, {}, s.running);
  }

  lemma FixFenced(s: State)
    requires s.allgc != [] && s.allgc[0] in s.heap
    ensures Fenced(s, Fix(s))
  {
    SameRefsFenced(s, Fix(s));
  }

  /** No action of the program frees `y` from being kept.  Registering a finalizer may move the sweep
      cursor; that frees nothing where this is used. */
  lemma ActionFenced(s: State, a: Action)
    requires Enabled(s, a) && Defined(s, a) && a != Collect && a != StartFullGc
    requires s.running in s.heap && s.heap[s.running].kind == Thread
    requires a.RegisterFinalizer? ==> SameRefs(s, Apply(s, a))
    ensures Fenced(s, Apply(s, a))
  {
    match a
    case New(r, kind, meta, refs) => NewFenced(s, r, kind, meta, refs);
    case StoreRef(p, meta, refs, v, back) => StoreFenced(s, p, meta, refs, v, back);
    case StoreUpval(cs, v) => UpvalueFenced(s, cs, v);
    case SetRoots(globals, running) => RootsFenced(s, globals, running);
    case RegisterFinalizer(o) => SameRefsFenced(s, Apply(s, a));
    case RunFinalizer => FinalizerFenced(s);
    case FixString => FixFenced(s);
    case SetEmergency(on) => SameRefsFenced(s, Apply(s, a));
    case ShareUpvalue(c, d) => ShareFenced(s, c, d);
  }
}
