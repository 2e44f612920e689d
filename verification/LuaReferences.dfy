/** References into a table (luaL_ref and luaL_unref, lauxlib.c): a free list is threaded through the
    slots of released references, with its head in slot 0. */
module LuaReferences {
  import opened Wrappers

  /** A value that is not nil; slots that hold nil are absent from the table. */
  datatype Value = Integer(n: int) | Other(id: int)

  /** The integer keys of the table. */
  type Table = map<int, Value>

  const FREELIST := 0
  const LUA_REFNIL := -1

  function RawGet(t: Table, i: int): Option<Value> {
    if i in t then Some(t[i]) else None
  }

  function RawSet(t: Table, i: int, v: Option<Value>): Table {
    if v.Some? then t[i := v.value] else t - {i}
  }

  /** lua_tointeger: 0 for what is not a number. */
  function ToInteger(v: Option<Value>): int {
    if v.Some? && v.value.Integer? then v.value.n else 0
  }

  /** A border (section 3.4.7 of the Lua 5.3 Reference Manual): what lua_rawlen may return. */
  predicate Border(t: Table, n: int) {
    n >= 0 && (n == 0 || n in t) && n + 1 !in t
  }

  datatype Referenced = Referenced(t: Table, ref: int)

  /** luaL_ref with the value on top of the stack; `length` is what lua_rawlen returns. */
  function Ref(t: Table, v: Option<Value>, length: int): Referenced {
    if v.None? then Referenced(t, LUA_REFNIL)
    else
      var ref := ToInteger(RawGet(t, FREELIST));
      if ref != 0 then
        var u := RawSet(t, FREELIST, RawGet(t, ref));
        Referenced(RawSet(u, ref, v), ref)
      else
        Referenced(RawSet(t, length + 1, v), length + 1)
  }

  /** luaL_unref. */
  function Unref(t: Table, ref: int): Table {
    if ref < 0 then t
    else RawSet(RawSet(t, ref, RawGet(t, FREELIST)), FREELIST, Some(Integer(ref)))
  }

  // ---------- the simple thing ----------

  /** An allocator: what the live references refer to, and the released ones, latest first. */
  datatype Allocator = Allocator(live: map<int, Value>, free: seq<int>) {
    function Size(): nat {
      |live| + |free|
    }

    /** The reference handed out next: the one released last, or a new one. */
    function NextRef(): int {
      if free != [] then free[0] else Size() + 1
    }

    function Allocate(v: Value): Allocator {
      Allocator(live[NextRef() := v], if free != [] then free[1..] else free)
    }

    function Release(ref: int): Allocator {
      Allocator(live - {ref}, [ref] + free)
    }
  }

  ghost predicate Distinct(s: seq<int>) {
    forall i, j :: 0 <= i < j < |s| ==> s[i] != s[j]
  }

  /** Live and released references are disjoint and together cover exactly 1 to the size. */
  ghost predicate Covers(a: Allocator) {
    && Distinct(a.free)
    && (forall r :: r in a.free ==> r !in a.live)
    && (forall r :: (r in a.live || r in a.free) <==> 1 <= r <= a.Size())
  }

  /** The slot a free reference holds: the next free one, nil at the end of the chain. */
  function Link(free: seq<int>, i: nat): Option<Value>
    requires i <= |free|
  {
    if i == |free| then None else Some(Integer(free[i]))
  }

  /** The table holds the live values, the chain of free references, and nothing else. */
  ghost predicate Represents(t: Table, a: Allocator) {
    && RawGet(t, FREELIST) == Link(a.free, 0)
    && (forall i :: 0 <= i < |a.free| ==> RawGet(t, a.free[i]) == Link(a.free, i + 1))
    && (forall r :: r in a.live ==> r in t && t[r] == a.live[r])
    && (forall r :: r in t ==> r == FREELIST || r in a.live || r in a.free)
  }

  ghost predicate Ok(t: Table, a: Allocator) {
    Covers(a) && Represents(t, a)
  }

  /** Without released references the length is exactly the number of live ones. */
  lemma BorderUnique(t: Table, a: Allocator, n: int)
    requires Ok(t, a) && a.free == [] && Border(t, n)
    ensures n == a.Size()
  {
    assert n > 0 ==> n in a.live || n in a.free;
    assert n + 1 !in a.live;
  }

  lemma LiveRoom(a: Allocator)
    requires Covers(a)
    ensures a.NextRef() >= 1 && a.NextRef() !in a.live
    ensures a.free == [] ==> a.NextRef() !in a.free
  {
    if a.free != [] { assert a.free[0] in a.free; }
  }

  lemma AllocateCovers(a: Allocator, v: Value)
    requires Covers(a)
    ensures Covers(a.Allocate(v))
    ensures a.Allocate(v).Size() == if a.free == [] then a.Size() + 1 else a.Size()
  {
    LiveRoom(a);
    var b := a.Allocate(v);
    assert b.live.Keys == a.live.Keys + {a.NextRef()};
    assert |b.live.Keys| == |a.live.Keys| + 1;
    forall r ensures (r in b.live || r in b.free) <==> 1 <= r <= b.Size() {
      assert (r in a.live || r in a.free) <==> 1 <= r <= a.Size();
      if a.free != [] { assert r in a.free <==> r == a.free[0] || r in a.free[1..]; }
    }
    if a.free != [] {
      forall r | r in b.free ensures r !in b.live {
        var i :| 0 <= i < |b.free| && b.free[i] == r;
        assert a.free[i + 1] == r;
      }
    }
  }

  lemma ReleaseCovers(a: Allocator, ref: int)
    requires Covers(a) && ref in a.live
    ensures Covers(a.Release(ref)) && a.Release(ref).Size() == a.Size()
  {
    var b := a.Release(ref);
    assert b.live.Keys == a.live.Keys - {ref};
    assert |b.live.Keys| == |a.live.Keys| - 1;
    forall r ensures (r in b.live || r in b.free) <==> 1 <= r <= b.Size() {
      assert (r in a.live || r in a.free) <==> 1 <= r <= a.Size();
      assert r in b.free <==> r == ref || r in a.free;
    }
  }

  /** luaL_ref hands out what the allocator would: never a live reference, and the table grows only
      when no released one is left. */
  lemma RefRefines(t: Table, a: Allocator, v: Value, length: int)
    requires Ok(t, a) && Border(t, length)
    ensures var r := Ref(t, Some(v), length);
            r.ref == a.NextRef() && r.ref !in a.live && Ok(r.t, a.Allocate(v))
  {
    LiveRoom(a);
    AllocateCovers(a, v);
    if a.free == [] {
      BorderUnique(t, a, length);
    } else {
      assert a.free[0] in a.free;
      ReusedRepresents(t, a, v);
    }
  }

  lemma ReusedRepresents(t: Table, a: Allocator, v: Value)
    requires Ok(t, a) && a.free != [] && a.free[0] >= 1
    ensures Represents(RawSet(RawSet(t, FREELIST, RawGet(t, a.free[0])), a.free[0], Some(v)), a.Allocate(v))
  {
    var ref := a.free[0];
    var u := RawSet(RawSet(t, FREELIST, RawGet(t, ref)), ref, Some(v));
    var b := a.Allocate(v);
    assert RawGet(t, ref) == Link(a.free, 1) == Link(b.free, 0);
    forall i | 0 <= i < |b.free| ensures RawGet(u, b.free[i]) == Link(b.free, i + 1) {
      assert b.free[i] == a.free[i + 1] && a.free[i + 1] in a.free && a.free[i + 1] != ref;
      assert RawGet(t, a.free[i + 1]) == Link(a.free, i + 2);
    }
    forall r | r in u ensures r == FREELIST || r in b.live || r in b.free {
      if r != FREELIST && r != ref && r in a.free {
        var i :| 0 <= i < |a.free| && a.free[i] == r;
        assert b.free[i - 1] == r;
      }
    }
  }

  lemma UnrefRefines(t: Table, a: Allocator, ref: int)
    requires Ok(t, a) && ref in a.live
    ensures Ok(Unref(t, ref), a.Release(ref))
  {
    ReleaseCovers(a, ref);
    ReleasedLinks(t, a, ref);
    ReleasedKeys(t, a, ref);
  }

  lemma ReleasedLinks(t: Table, a: Allocator, ref: int)
    requires Ok(t, a) && ref in a.live
    ensures var b := a.Release(ref);
      forall i :: 0 <= i < |b.free| ==> RawGet(Unref(t, ref), b.free[i]) == Link(b.free, i + 1)
  {
    var u, b := Unref(t, ref), a.Release(ref);
    assert ref >= 1;
    forall i | 0 <= i < |b.free| ensures RawGet(u, b.free[i]) == Link(b.free, i + 1) {
      if i > 0 {
        assert b.free[i] == a.free[i - 1] && a.free[i - 1] in a.free;
        assert RawGet(t, a.free[i - 1]) == Link(a.free, i);
      }
    }
  }

  lemma ReleasedKeys(t: Table, a: Allocator, ref: int)
    requires Ok(t, a) && ref in a.live
    ensures var b := a.Release(ref); forall r :: r in Unref(t, ref) ==> r == FREELIST || r in b.live || r in b.free
  {
    var u, b := Unref(t, ref), a.Release(ref);
    forall r | r in u ensures r == FREELIST || r in b.live || r in b.free {
      if r == ref {
        assert b.free[0] == r;
      } else if r in a.free {
        var i :| 0 <= i < |a.free| && a.free[i] == r;
        assert b.free[i + 1] == r;
      }
    }
  }

  // ---------- whole runs ----------

  datatype Event = RefEvent(v: Option<Value>, length: int) | UnrefEvent(ref: int)

  function Step(t: Table, e: Event): Table {
    match e
    case RefEvent(v, length) => Ref(t, v, length).t
    case UnrefEvent(ref) => Unref(t, ref)
  }

  function Expected(a: Allocator, e: Event): Allocator {
    match e
    case RefEvent(v, _) => if v.Some? then a.Allocate(v.value) else a
    case UnrefEvent(ref) => if ref >= 0 then a.Release(ref) else a
  }

  /** lua_rawlen returns a border, and only live references (or the negative ones that stand for no
      reference) are released. */
  ghost predicate Allowed(t: Table, a: Allocator, e: Event) {
    match e
    case RefEvent(v, length) => Border(t, length)
    case UnrefEvent(ref) => ref < 0 || ref in a.live
  }

  ghost predicate AllAllowed(t: Table, a: Allocator, es: seq<Event>)
    decreases |es|
  {
    es == [] || (Allowed(t, a, es[0]) && AllAllowed(Step(t, es[0]), Expected(a, es[0]), es[1..]))
  }

  function Run(t: Table, es: seq<Event>): Table
    decreases |es|
  {
    if es == [] then t else Run(Step(t, es[0]), es[1..])
  }

  function RunExpected(a: Allocator, es: seq<Event>): Allocator
    decreases |es|
  {
    if es == [] then a else RunExpected(Expected(a, es[0]), es[1..])
  }

  lemma StepRefines(t: Table, a: Allocator, e: Event)
    requires Ok(t, a) && Allowed(t, a, e)
    ensures Ok(Step(t, e), Expected(a, e))
  {
    match e {
      case RefEvent(v, length) => if v.Some? { RefRefines(t, a, v.value, length); }
      case UnrefEvent(ref) => if ref >= 0 { UnrefRefines(t, a, ref); }
    }
  }

  lemma {:induction false} RunRefines(t: Table, a: Allocator, es: seq<Event>)
    requires Ok(t, a) && AllAllowed(t, a, es)
    ensures Ok(Run(t, es), RunExpected(a, es))
    decreases |es|
  {
    if es != [] {
      StepRefines(t, a, es[0]);
      RunRefines(Step(t, es[0]), Expected(a, es[0]), es[1..]);
    }
  }

  /** From an empty table, over any run: live and free references cover exactly 1 to n, every live
      reference still gives its value, and the next one handed out is not live. */
  lemma ReferencesOk(es: seq<Event>, v: Value, length: int)
    requires AllAllowed(map[], Allocator(map[], []), es) && Border(Run(map[], es), length)
    ensures var t, a := Run(map[], es), RunExpected(Allocator(map[], []), es);
            && Covers(a)
            && (forall r :: r in a.live ==> RawGet(t, r) == Some(a.live[r]))
            && Ref(t, Some(v), length).ref !in a.live
            && (Ref(t, Some(v), length).ref > a.Size() <==> a.free == [])
  {
    RunRefines(map[], Allocator(map[], []), es);
    var t, a := Run(map[], es), RunExpected(Allocator(map[], []), es);
    RefRefines(t, a, v, length);
    if a.free != [] { assert a.free[0] in a.free; }
  }

  // ---------- the code ----------

  class Registry {
    var t: Table
    ghost var a: Allocator

    ghost predicate Valid()
      reads this
    {
      Ok(t, a)
    }

    constructor ()
      ensures Valid() && a == Allocator(map[], [])
    {
      t := map[];
      a := Allocator(map[], []);
    }

    /** `length` is the result of lua_rawlen. */
    method Reference(v: Option<Value>, length: int) returns (ref: int)
      requires Valid() && Border(t, length)
      modifies this
      ensures Valid()
      ensures v.None? ==> ref == LUA_REFNIL == -1 && t == old(t) && a == old(a)
      ensures v.Some? ==> ref !in old(a).live && ref == old(a).NextRef() && a == old(a).Allocate(v.value)
      ensures v.Some? ==> RawGet(t, ref) == v && forall r :: r in old(a).live ==> RawGet(t, r) == RawGet(old(t), r)
      ensures v.Some? ==> ref == if old(a).free != [] then old(a).free[0] else |old(a).live| + 1
    {
      if v.None? { return LUA_REFNIL; }
      RefRefines(t, a, v.value, length);
      ref := ToInteger(RawGet(t, FREELIST));
      if ref != 0 {
        t := RawSet(t, FREELIST, RawGet(t, ref));
      } else {
        ref := length + 1;
      }
      t := RawSet(t, ref, v);
      a := a.Allocate(v.value);
    }

    method Release(ref: int)
      requires Valid() && (ref < 0 || ref in a.live)
      modifies this
      ensures Valid() && a == if ref < 0 then old(a) else old(a).Release(ref)
      ensures ref >= 0 ==> a.free == [ref] + old(a).free && a.live == old(a).live - {ref}
      ensures ref < 0 ==> t == old(t)
    {
      if ref >= 0 {
        UnrefRefines(t, a, ref);
        t := RawSet(t, ref, RawGet(t, FREELIST));
        t := RawSet(t, FREELIST, Some(Integer(ref)));
        a := a.Release(ref);
      }
    }
  }
}
