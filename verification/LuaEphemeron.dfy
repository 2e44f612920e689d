/** Ephemeron tables in the atomic phase of the Lua collector (lgc.c): a value is kept alive through
    such a table only if its key is.  The tables are traversed again and again until nothing more
    gets marked; then the entries whose keys died are cleared. */
module LuaEphemeron {

  type Ref = nat

  /** nil, a value that is not collectable, or a collectable object. */
  datatype Value = Nil | Plain | Object(ref: Ref)

  /** A node of the hash part; with a nil value it counts as empty. */
  datatype Entry = Entry(key: Value, value: Value)

  /** What an object refers to: a string to nothing, a userdata to its metatable and user value, a
      table with weak keys to its metatable, its array part and its entries.  Strong stands for
      everything else that goes through the gray list, with the references its traversal marks. */
  datatype Body =
    | Text
    | Userdata(refs: seq<Value>)
    | Strong(refs: seq<Value>)
    | Ephemeron(metatable: Value, slots: seq<Value>, entries: seq<Entry>)

  type Heap = map<Ref, Body>

  /** The collector's marks: `marked` are the objects that are not white. */
  datatype Marks = Marks(marked: set<Ref>, gray: seq<Ref>, ephemeron: seq<Ref>, allweak: seq<Ref>)

  predicate InHeap(heap: Heap, v: Value) {
    v.Object? ==> v.ref in heap
  }

  predicate AllInHeap(heap: Heap, vs: seq<Value>) {
    forall v :: v in vs ==> InHeap(heap, v)
  }

  predicate BodyInHeap(heap: Heap, b: Body) {
    match b
    case Text => true
    case Userdata(refs) => AllInHeap(heap, refs)
    case Strong(refs) => AllInHeap(heap, refs)
    case Ephemeron(metatable, slots, entries) =>
      InHeap(heap, metatable) && AllInHeap(heap, slots) && EntriesInHeap(heap, entries)
  }

  predicate EntriesInHeap(heap: Heap, es: seq<Entry>) {
    forall e :: e in es ==> InHeap(heap, e.key) && InHeap(heap, e.value)
  }

  /** No object refers to freed memory. */
  ghost predicate NoDangling(heap: Heap) {
    forall o :: o in heap ==> BodyInHeap(heap, heap[o])
  }

  predicate IsText(heap: Heap, v: Value) {
    v.Object? && v.ref in heap && heap[v.ref].Text?
  }

  /** valiswhite. */
  predicate IsWhite(s: Marks, v: Value) {
    v.Object? && v.ref !in s.marked
  }

  ghost function Whites(heap: Heap, s: Marks): set<Ref> {
    heap.Keys - s.marked
  }

  lemma WhitesShrink(heap: Heap, s: Marks, t: Marks)
    requires s.marked <= t.marked
    ensures |Whites(heap, t)| <= |Whites(heap, s)|
    ensures t.marked * heap.Keys != s.marked * heap.Keys ==> |Whites(heap, t)| < |Whites(heap, s)|
  {
    SubsetSize(Whites(heap, t), Whites(heap, s));
    if t.marked * heap.Keys != s.marked * heap.Keys {
      assert Whites(heap, t) != Whites(heap, s);
    }
  }

  lemma {:induction false} SubsetSize(a: set<Ref>, b: set<Ref>)
    requires a <= b
    ensures |a| <= |b| && (a != b ==> |a| < |b|)
    decreases a
  {
    if a != {} {
      var x :| x in a;
      SubsetSize(a - {x}, b - {x});
      assert a == (a - {x}) + {x} && b == (b - {x}) + {x};
    }
  }

  lemma OneLess(heap: Heap, s: Marks, o: Ref)
    requires o in heap && o !in s.marked
    ensures |Whites(heap, s.(marked := s.marked + {o}))| < |Whites(heap, s)|
  {
    var t := s.(marked := s.marked + {o});
    assert o in t.marked * heap.Keys && o !in s.marked * heap.Keys;
    WhitesShrink(heap, s, t);
  }

  // ---------- marking ----------

  /** reallymarkobject, if the value is white. */
  function Mark(heap: Heap, s: Marks, v: Value): (t: Marks)
    requires NoDangling(heap) && InHeap(heap, v)
    ensures s.marked <= t.marked && t.ephemeron == s.ephemeron && t.allweak == s.allweak
    ensures IsWhite(s, v) ==> v.ref in t.marked
    decreases |Whites(heap, s)|, 0
  {
    if !IsWhite(s, v) then s
    else
      var t := s.(marked := s.marked + {v.ref});
      OneLess(heap, s, v.ref);
      match heap[v.ref]
      case Text => t
      case Userdata(refs) => MarkAll(heap, t, refs)
      case _ => t.(gray := [v.ref] + t.gray)
  }

  function MarkAll(heap: Heap, s: Marks, vs: seq<Value>): (t: Marks)
    requires NoDangling(heap) && AllInHeap(heap, vs)
    ensures s.marked <= t.marked && t.ephemeron == s.ephemeron && t.allweak == s.allweak
    decreases |Whites(heap, s)|, 1, |vs|
  {
    if vs == [] then s
    else
      var t := Mark(heap, s, vs[0]);
      WhitesShrink(heap, s, t);
      MarkAll(heap, t, vs[1..])
  }

  // ---------- traverseephemeron ----------

  /** What a traversal of a table has found so far. */
  datatype Visit = Visit(s: Marks, marked: bool, hasclears: bool, hasww: bool)

  /** One slot of the array part. */
  function VisitSlot(heap: Heap, value: Value, v: Visit): Visit
    requires NoDangling(heap) && InHeap(heap, value)
  {
    if IsWhite(v.s, value) then v.(s := Mark(heap, v.s, value), marked := true) else v
  }

  function VisitArray(heap: Heap, vs: seq<Value>, v: Visit): Visit
    requires NoDangling(heap) && AllInHeap(heap, vs)
    decreases |vs|
  {
    if vs == [] then v else VisitArray(heap, vs[1..], VisitSlot(heap, vs[0], v))
  }

  /** iscleared: strings are values, so they are marked and never cleared. */
  predicate IsCleared(heap: Heap, s: Marks, v: Value) {
    IsWhite(s, v) && !IsText(heap, v)
  }

  function MarkText(heap: Heap, s: Marks, v: Value): Marks
    requires NoDangling(heap) && InHeap(heap, v)
  {
    if IsText(heap, v) then Mark(heap, s, v) else s
  }

  function VisitEntry(heap: Heap, e: Entry, v: Visit): Visit
    requires NoDangling(heap) && InHeap(heap, e.key) && InHeap(heap, e.value)
  {
    if e.value.Nil? then v
    else if IsCleared(heap, v.s, e.key) then v.(hasclears := true, hasww := v.hasww || IsWhite(v.s, e.value))
    else VisitSlot(heap, e.value, v.(s := MarkText(heap, v.s, e.key)))
  }

  function VisitEntries(heap: Heap, es: seq<Entry>, v: Visit): Visit
    requires NoDangling(heap) && EntriesInHeap(heap, es)
    decreases |es|
  {
    if es == [] then v else VisitEntries(heap, es[1..], VisitEntry(heap, es[0], v))
  }

  /** Link the table into the list it belongs to (lgc.c:422-428, atomic phase). */
  function Link(v: Visit, o: Ref): Visit {
    if v.hasww then v.(s := v.s.(ephemeron := [o] + v.s.ephemeron))
    else if v.hasclears then v.(s := v.s.(allweak := [o] + v.s.allweak))
    else v
  }

  function VisitTable(heap: Heap, s: Marks, o: Ref): Visit
    requires NoDangling(heap) && o in heap && heap[o].Ephemeron?
  {
    var v := VisitArray(heap, heap[o].slots, Visit(s, false, false, false));
    VisitEntries(heap, heap[o].entries, v)
  }

  function Traverse(heap: Heap, s: Marks, o: Ref): Visit
    requires NoDangling(heap) && o in heap && heap[o].Ephemeron?
  {
    Link(VisitTable(heap, s, o), o)
  }

  // ---------- propagation ----------

  ghost predicate KnownRefs(heap: Heap, l: seq<Ref>) {
    forall o :: o in l ==> o in heap
  }

  /** The lists hold live objects, and the ephemeron list holds ephemeron tables. */
  ghost predicate Known(heap: Heap, s: Marks) {
    && s.marked <= heap.Keys
    && KnownRefs(heap, s.gray)
    && TablesOnly(heap, s.ephemeron)
    && TablesOnly(heap, s.allweak)
  }

  ghost predicate TablesOnly(heap: Heap, l: seq<Ref>) {
    forall o :: o in l ==> o in heap && heap[o].Ephemeron?
  }

  /** propagatemark: the first gray object is traversed.  A table with weak keys has its metatable
      marked first (lgc.c:454) and stays gray, outside the gray list. */
  function PropagateMark(heap: Heap, s: Marks): Marks
    requires NoDangling(heap) && Known(heap, s) && s.gray != []
  {
    var o := s.gray[0];
    var t := s.(gray := s.gray[1..]);
    match heap[o]
    case Strong(refs) => MarkAll(heap, t, refs)
    case Ephemeron(metatable, _, _) => Traverse(heap, Mark(heap, t, metatable), o).s
    case _ => t
  }

  // ---------- termination ----------

  /** Bounds the work left: every step of propagation lowers it, since an object is put on the gray
      list only when it stops being white. */
  ghost function Work(heap: Heap, s: Marks): nat {
    |Whites(heap, s)| + |s.gray|
  }

  /** `t` comes from `s` by marking: the lists of tables are as before and the work has not grown. */
  ghost predicate Marked(heap: Heap, s: Marks, t: Marks) {
    && s.marked <= t.marked
    && (Known(heap, s) ==> Known(heap, t))
    && Work(heap, t) <= Work(heap, s)
  }

  lemma {:induction false} MarkMarked(heap: Heap, s: Marks, v: Value)
    requires NoDangling(heap) && InHeap(heap, v)
    ensures Marked(heap, s, Mark(heap, s, v))
    decreases |Whites(heap, s)|, 0
  {
    if IsWhite(s, v) {
      var t := s.(marked := s.marked + {v.ref});
      OneLess(heap, s, v.ref);
      if heap[v.ref].Userdata? { MarkAllMarked(heap, t, heap[v.ref].refs); }
    }
  }

  lemma {:induction false} MarkAllMarked(heap: Heap, s: Marks, vs: seq<Value>)
    requires NoDangling(heap) && AllInHeap(heap, vs)
    ensures Marked(heap, s, MarkAll(heap, s, vs))
    decreases |Whites(heap, s)|, 1, |vs|
  {
    if vs != [] {
      var t := Mark(heap, s, vs[0]);
      MarkMarked(heap, s, vs[0]);
      WhitesShrink(heap, s, t);
      MarkAllMarked(heap, t, vs[1..]);
    }
  }

  /** A visit marks, and its flag says so: without it only strings were marked. */
  ghost predicate Visited(heap: Heap, v: Visit, w: Visit) {
    && Marked(heap, v.s, w.s)
    && w.s.ephemeron == v.s.ephemeron && w.s.allweak == v.s.allweak
    && (v.marked ==> w.marked) && (v.hasclears ==> w.hasclears) && (v.hasww ==> w.hasww)
    && (!w.marked ==> w.s.gray == v.s.gray && OnlyText(heap, v.s, w.s))
    && (w.marked && !v.marked ==> NewlyMarked(heap, v.s, w.s))
  }

  ghost predicate OnlyText(heap: Heap, s: Marks, t: Marks) {
    forall o :: o in t.marked && o !in s.marked ==> o in heap && heap[o].Text?
  }

  ghost predicate NewlyMarked(heap: Heap, s: Marks, t: Marks) {
    exists o :: o in heap && o in t.marked && o !in s.marked
  }

  lemma VisitSlotVisited(heap: Heap, value: Value, v: Visit)
    requires NoDangling(heap) && InHeap(heap, value)
    ensures Visited(heap, v, VisitSlot(heap, value, v))
  {
    MarkMarked(heap, v.s, value);
  }

  lemma VisitedTwice(heap: Heap, u: Visit, v: Visit, w: Visit)
    requires Visited(heap, u, v) && Visited(heap, v, w)
    ensures Visited(heap, u, w)
  {
    if w.marked && !u.marked {
      if v.marked {
        var o :| o in heap && o in v.s.marked && o !in u.s.marked;
        assert o in w.s.marked;
      } else {
        var o :| o in heap && o in w.s.marked && o !in v.s.marked;
        assert o !in u.s.marked;
      }
    }
  }

  lemma {:induction false} VisitArrayVisited(heap: Heap, vs: seq<Value>, v: Visit)
    requires NoDangling(heap) && AllInHeap(heap, vs)
    ensures Visited(heap, v, VisitArray(heap, vs, v))
    decreases |vs|
  {
    if vs != [] {
      var u := VisitSlot(heap, vs[0], v);
      VisitSlotVisited(heap, vs[0], v);
      VisitArrayVisited(heap, vs[1..], u);
      VisitedTwice(heap, v, u, VisitArray(heap, vs[1..], u));
    }
  }

  lemma VisitEntryVisited(heap: Heap, e: Entry, v: Visit)
    requires NoDangling(heap) && InHeap(heap, e.key) && InHeap(heap, e.value)
    ensures Visited(heap, v, VisitEntry(heap, e, v))
  {
    if !e.value.Nil? && !IsCleared(heap, v.s, e.key) {
      var u := v.(s := MarkText(heap, v.s, e.key));
      MarkMarked(heap, v.s, e.key);
      VisitSlotVisited(heap, e.value, u);
      VisitedTwice(heap, v, u, VisitSlot(heap, e.value, u));
    }
  }

  lemma {:induction false} VisitEntriesVisited(heap: Heap, es: seq<Entry>, v: Visit)
    requires NoDangling(heap) && EntriesInHeap(heap, es)
    ensures Visited(heap, v, VisitEntries(heap, es, v))
    decreases |es|
  {
    if es != [] {
      var u := VisitEntry(heap, es[0], v);
      VisitEntryVisited(heap, es[0], v);
      VisitEntriesVisited(heap, es[1..], u);
      VisitedTwice(heap, v, u, VisitEntries(heap, es[1..], u));
    }
  }

  lemma VisitTableVisited(heap: Heap, s: Marks, o: Ref)
    requires NoDangling(heap) && o in heap && heap[o].Ephemeron?
    ensures Visited(heap, Visit(s, false, false, false), VisitTable(heap, s, o))
    ensures Marked(heap, s, Traverse(heap, s, o).s)
  {
    var start := Visit(s, false, false, false);
    var v := VisitArray(heap, heap[o].slots, start);
    VisitArrayVisited(heap, heap[o].slots, start);
    VisitEntriesVisited(heap, heap[o].entries, v);
    VisitedTwice(heap, start, v, VisitTable(heap, s, o));
  }

  lemma PropagateMarkMarked(heap: Heap, s: Marks)
    requires NoDangling(heap) && Known(heap, s) && s.gray != []
    ensures s.marked <= PropagateMark(heap, s).marked && Known(heap, PropagateMark(heap, s))
    ensures Work(heap, PropagateMark(heap, s)) < Work(heap, s)
  {
    var o := s.gray[0];
    var t := s.(gray := s.gray[1..]);
    match heap[o] {
      case Strong(refs) => MarkAllMarked(heap, t, refs);
      case Ephemeron(metatable, _, _) =>
        MarkMarked(heap, t, metatable);
        VisitTableVisited(heap, Mark(heap, t, metatable), o);
      case _ =>
    }
  }

  function PropagateAll(heap: Heap, s: Marks): (t: Marks)
    requires NoDangling(heap) && Known(heap, s)
    ensures s.marked <= t.marked && Known(heap, t) && t.gray == []
    decreases Work(heap, s)
  {
    if s.gray == [] then s
    else
      PropagateMarkMarked(heap, s);
      PropagateAll(heap, PropagateMark(heap, s))
  }

  // ---------- convergeephemerons ----------

  datatype Round = Round(s: Marks, changed: bool)

  /** The inner loop: visit each table once, propagating whenever one marked something. */
  function VisitAll(heap: Heap, next: seq<Ref>, r: Round): (q: Round)
    requires NoDangling(heap) && Known(heap, r.s) && TablesOnly(heap, next) && r.s.gray == []
    ensures Known(heap, q.s) && q.s.gray == [] && r.s.marked <= q.s.marked
    ensures q.changed ==> r.changed || NewlyMarked(heap, r.s, q.s)
    decreases |next|
  {
    if next == [] then r else VisitOneOk(heap, next, r); VisitAll(heap, next[1..], VisitOne(heap, next[0], r))
  }

  function VisitOne(heap: Heap, o: Ref, r: Round): Round
    requires NoDangling(heap) && Known(heap, r.s) && o in heap && heap[o].Ephemeron?
  {
    var v := Traverse(heap, r.s, o);
    VisitTableVisited(heap, r.s, o);
    if v.marked then Round(PropagateAll(heap, v.s), true) else Round(v.s, r.changed)
  }

  lemma VisitOneOk(heap: Heap, next: seq<Ref>, r: Round)
    requires NoDangling(heap) && Known(heap, r.s) && TablesOnly(heap, next) && next != [] && r.s.gray == []
    ensures next[0] in heap && heap[next[0]].Ephemeron? && TablesOnly(heap, next[1..])
    ensures var q := VisitOne(heap, next[0], r);
            && Known(heap, q.s) && q.s.gray == [] && r.s.marked <= q.s.marked
            && (q.changed ==> r.changed || NewlyMarked(heap, r.s, q.s))
  {
    VisitTableVisited(heap, r.s, next[0]);
    var v := Traverse(heap, r.s, next[0]);
    if v.marked {
      var o :| o in heap && o in v.s.marked && o !in r.s.marked;
      assert o in PropagateAll(heap, v.s).marked;
    }
  }

  function OneRound(heap: Heap, s: Marks): Round
    requires NoDangling(heap) && Known(heap, s) && s.gray == []
  {
    VisitAll(heap, s.ephemeron, Round(s.(ephemeron := []), false))
  }

  /** Every repeated round has lowered the number of white objects. */
  function Converge(heap: Heap, s: Marks): (t: Marks)
    requires NoDangling(heap) && Known(heap, s) && s.gray == []
    ensures Known(heap, t) && t.gray == [] && s.marked <= t.marked
    decreases |Whites(heap, s)|
  {
    var r := OneRound(heap, s);
    if r.changed then FewerWhites(heap, s, r.s); Converge(heap, r.s) else r.s
  }

  lemma FewerWhites(heap: Heap, s: Marks, t: Marks)
    requires s.marked <= t.marked && NewlyMarked(heap, s.(ephemeron := []), t)
    ensures |Whites(heap, t)| < |Whites(heap, s)|
  {
    var o :| o in heap && o in t.marked && o !in s.marked;
    assert o in t.marked * heap.Keys && o !in s.marked * heap.Keys;
    WhitesShrink(heap, s, t);
  }

  // ---------- what has been dealt with ----------

  predicate AllNonWhite(s: Marks, vs: seq<Value>) {
    forall v :: v in vs ==> !IsWhite(s, v)
  }

  ghost predicate TextKeysMarked(heap: Heap, s: Marks, es: seq<Entry>) {
    forall e :: e in es && !e.value.Nil? && IsText(heap, e.key) ==> !IsWhite(s, e.key)
  }

  ghost predicate ValuesMarked(s: Marks, es: seq<Entry>) {
    forall e :: e in es && !e.value.Nil? ==> !IsWhite(s, e.value)
  }

  ghost predicate NoClears(heap: Heap, s: Marks, es: seq<Entry>) {
    forall e :: e in es && !e.value.Nil? ==> !IsCleared(heap, s, e.key)
  }

  /** A value is white only while its key is. */
  ghost predicate Quiet(heap: Heap, s: Marks, es: seq<Entry>) {
    forall e :: e in es && !e.value.Nil? && !IsCleared(heap, s, e.key) ==> !IsWhite(s, e.value)
  }

  /** A visited table: it waits for another visit (in the ephemeron list or in `pending`) unless all
      its values are marked, and it waits for clearing unless no key is white. */
  ghost predicate TableDone(heap: Heap, s: Marks, o: Ref, pending: set<Ref>)
    requires o in heap && heap[o].Ephemeron?
  {
    && !IsWhite(s, heap[o].metatable)
    && AllNonWhite(s, heap[o].slots)
    && TextKeysMarked(heap, s, heap[o].entries)
    && (o in s.ephemeron || o in pending || ValuesMarked(s, heap[o].entries))
    && (o in s.ephemeron || o in pending || o in s.allweak || NoClears(heap, s, heap[o].entries))
  }

  /** Nothing more is to be marked because of `o`, except through a table that waits. */
  ghost predicate Covered(heap: Heap, s: Marks, o: Ref, pending: set<Ref>)
    requires o in heap
  {
    match heap[o]
    case Text => true
    case Userdata(refs) => AllNonWhite(s, refs)
    case Strong(refs) => AllNonWhite(s, refs)
    case Ephemeron(_, _, _) => TableDone(heap, s, o, pending)
  }

  ghost predicate GrayKinds(heap: Heap, s: Marks) {
    forall o :: o in s.gray ==> o in heap && (heap[o].Strong? || heap[o].Ephemeron?) && o in s.marked
  }

  ghost predicate ListMarked(s: Marks) {
    forall o :: o in s.ephemeron || o in s.allweak ==> o in s.marked
  }

  /** Every marked object is gray, or covered, or one of the exceptions `skip`. */
  ghost predicate MarkedCovered(heap: Heap, s: Marks, pending: set<Ref>, skip: set<Ref>) {
    forall o :: o in s.marked && o in heap && o !in s.gray && o !in skip ==> Covered(heap, s, o, pending)
  }

  ghost predicate Inv(heap: Heap, s: Marks, pending: set<Ref>, skip: set<Ref>) {
    Known(heap, s) && GrayKinds(heap, s) && ListMarked(s) && MarkedCovered(heap, s, pending, skip)
  }

  lemma CoveredGrows(heap: Heap, s: Marks, t: Marks, o: Ref, pending: set<Ref>)
    requires o in heap && Covered(heap, s, o, pending) && s.marked <= t.marked
    requires t.ephemeron == s.ephemeron && t.allweak == s.allweak
    ensures Covered(heap, t, o, pending)
  {
  }

  /** Marking keeps what is covered and what is gray. */
  lemma {:induction false} MarkInv(heap: Heap, s: Marks, v: Value, pending: set<Ref>, skip: set<Ref>)
    requires NoDangling(heap) && InHeap(heap, v) && Inv(heap, s, pending, skip)
    ensures Inv(heap, Mark(heap, s, v), pending, skip)
    decreases |Whites(heap, s)|, 0
  {
    if IsWhite(s, v) {
      var o := v.ref;
      var t := s.(marked := s.marked + {o});
      OneLess(heap, s, o);
      MarkMarked(heap, s, v);
      match heap[o] {
        case Text => GrowInv(heap, s, t, pending, skip, skip);
        case Userdata(refs) =>
          GrowInv(heap, s, t, pending, skip, skip + {o});
          MarkAllInv(heap, t, refs, pending, skip + {o});
          FinishSkip(heap, MarkAll(heap, t, refs), pending, skip, o);
        case _ => GrowInv(heap, s, t.(gray := [o] + s.gray), pending, skip, skip);
      }
    }
  }

  /** One more object is marked: it is covered already, gray, or excepted. */
  lemma GrowInv(heap: Heap, s: Marks, t: Marks, pending: set<Ref>, skip: set<Ref>, more: set<Ref>)
    requires Inv(heap, s, pending, skip) && Known(heap, t) && GrayKinds(heap, t)
    requires s.marked <= t.marked && t.ephemeron == s.ephemeron && t.allweak == s.allweak
    requires skip <= more && forall o :: o in s.gray ==> o in t.gray
    requires forall o :: o in t.marked && o !in s.marked ==> o in heap && (heap[o].Text? || o in t.gray || o in more)
    ensures Inv(heap, t, pending, more)
  {
    forall o | o in t.marked && o in heap && o !in t.gray && o !in more ensures Covered(heap, t, o, pending) {
      if o in s.marked { CoveredGrows(heap, s, t, o, pending); }
    }
  }

  lemma FinishSkip(heap: Heap, s: Marks, pending: set<Ref>, skip: set<Ref>, o: Ref)
    requires Inv(heap, s, pending, skip + {o}) && o in heap && Covered(heap, s, o, pending)
    ensures Inv(heap, s, pending, skip)
  {
  }

  lemma {:induction false} MarkAllInv(heap: Heap, s: Marks, vs: seq<Value>, pending: set<Ref>, skip: set<Ref>)
    requires NoDangling(heap) && AllInHeap(heap, vs) && Inv(heap, s, pending, skip)
    ensures Inv(heap, MarkAll(heap, s, vs), pending, skip)
    ensures AllNonWhite(MarkAll(heap, s, vs), vs)
    decreases |Whites(heap, s)|, 1, |vs|
  {
    if vs != [] {
      var t := Mark(heap, s, vs[0]);
      MarkInv(heap, s, vs[0], pending, skip);
      WhitesShrink(heap, s, t);
      MarkAllInv(heap, t, vs[1..], pending, skip);
    }
  }

  // ---------- one traversal ----------

  /** What a visit knows about an entry it has passed. */
  ghost predicate Seen(heap: Heap, w: Visit, e: Entry) {
    !e.value.Nil? ==>
      && (IsText(heap, e.key) ==> !IsWhite(w.s, e.key))
      && (IsCleared(heap, w.s, e.key) ==> w.hasclears)
      && (IsWhite(w.s, e.value) ==> w.hasww)
      && (IsWhite(w.s, e.value) && !w.marked ==> IsCleared(heap, w.s, e.key))
  }

  lemma SeenStays(heap: Heap, v: Visit, w: Visit, e: Entry)
    requires Seen(heap, v, e) && Visited(heap, v, w) && InHeap(heap, e.key)
    ensures Seen(heap, w, e)
  {
  }

  lemma SeenFirst(heap: Heap, e: Entry, v: Visit)
    requires NoDangling(heap) && InHeap(heap, e.key) && InHeap(heap, e.value)
    ensures Seen(heap, VisitEntry(heap, e, v), e)
  {
    VisitEntryVisited(heap, e, v);
  }

  lemma {:induction false} AllSeen(heap: Heap, es: seq<Entry>, v: Visit)
    requires NoDangling(heap) && EntriesInHeap(heap, es)
    ensures forall e :: e in es ==> Seen(heap, VisitEntries(heap, es, v), e)
    decreases |es|
  {
    if es != [] {
      var u, w := VisitEntry(heap, es[0], v), VisitEntries(heap, es, v);
      SeenFirst(heap, es[0], v);
      AllSeen(heap, es[1..], u);
      VisitEntriesVisited(heap, es[1..], u);
      SeenStays(heap, u, w, es[0]);
    }
  }

  lemma {:induction false} VisitArrayInv(heap: Heap, vs: seq<Value>, v: Visit, pending: set<Ref>, skip: set<Ref>)
    requires NoDangling(heap) && AllInHeap(heap, vs) && Inv(heap, v.s, pending, skip)
    ensures Inv(heap, VisitArray(heap, vs, v).s, pending, skip)
    ensures AllNonWhite(VisitArray(heap, vs, v).s, vs)
    decreases |vs|
  {
    if vs != [] {
      var u := VisitSlot(heap, vs[0], v);
      MarkInv(heap, v.s, vs[0], pending, skip);
      VisitArrayInv(heap, vs[1..], u, pending, skip);
      VisitArrayVisited(heap, vs[1..], u);
    }
  }

  lemma {:induction false} VisitEntriesInv(heap: Heap, es: seq<Entry>, v: Visit, pending: set<Ref>, skip: set<Ref>)
    requires NoDangling(heap) && EntriesInHeap(heap, es) && Inv(heap, v.s, pending, skip)
    ensures Inv(heap, VisitEntries(heap, es, v).s, pending, skip)
    decreases |es|
  {
    if es != [] {
      VisitEntryInv(heap, es[0], v, pending, skip);
      VisitEntriesInv(heap, es[1..], VisitEntry(heap, es[0], v), pending, skip);
    }
  }

  lemma VisitEntryInv(heap: Heap, e: Entry, v: Visit, pending: set<Ref>, skip: set<Ref>)
    requires NoDangling(heap) && InHeap(heap, e.key) && InHeap(heap, e.value) && Inv(heap, v.s, pending, skip)
    ensures Inv(heap, VisitEntry(heap, e, v).s, pending, skip)
  {
    if !e.value.Nil? && !IsCleared(heap, v.s, e.key) {
      if IsText(heap, e.key) { MarkInv(heap, v.s, e.key, pending, skip); }
      MarkInv(heap, MarkText(heap, v.s, e.key), e.value, pending, skip);
    }
  }

  /** After a visit the table is done; if the visit marked nothing, its white values have white keys. */
  lemma TraverseInv(heap: Heap, s: Marks, o: Ref, pending: set<Ref>)
    requires NoDangling(heap) && Inv(heap, s, pending, {o}) && o in s.marked && o in heap && heap[o].Ephemeron?
    requires !IsWhite(s, heap[o].metatable)
    ensures Inv(heap, Traverse(heap, s, o).s, pending, {})
    ensures !Traverse(heap, s, o).marked ==> Quiet(heap, Traverse(heap, s, o).s, heap[o].entries)
  {
    var start := Visit(s, false, false, false);
    var v := VisitArray(heap, heap[o].slots, start);
    var w := VisitEntries(heap, heap[o].entries, v);
    VisitArrayInv(heap, heap[o].slots, start, pending, {o});
    VisitArrayVisited(heap, heap[o].slots, start);
    VisitEntriesInv(heap, heap[o].entries, v, pending, {o});
    VisitEntriesVisited(heap, heap[o].entries, v);
    AllSeen(heap, heap[o].entries, v);
    LinkInv(heap, w, o, pending);
  }

  lemma LinkInv(heap: Heap, w: Visit, o: Ref, pending: set<Ref>)
    requires Inv(heap, w.s, pending, {o}) && o in w.s.marked && o in heap && heap[o].Ephemeron?
    requires !IsWhite(w.s, heap[o].metatable) && AllNonWhite(w.s, heap[o].slots)
    requires forall e :: e in heap[o].entries ==> Seen(heap, w, e)
    ensures Inv(heap, Link(w, o).s, pending, {})
    ensures !w.marked ==> Quiet(heap, Link(w, o).s, heap[o].entries)
  {
    var t := Link(w, o).s;
    LinkedTableDone(heap, w, o, pending);
    forall x | x in t.marked && x in heap && x !in t.gray ensures Covered(heap, t, x, pending) {
      if x != o { ListsGrow(heap, w.s, t, x, pending); }
    }
  }

  lemma ListsGrow(heap: Heap, s: Marks, t: Marks, x: Ref, pending: set<Ref>)
    requires x in heap && Covered(heap, s, x, pending) && t.marked == s.marked
    requires forall y :: y in s.ephemeron ==> y in t.ephemeron
    requires forall y :: y in s.allweak ==> y in t.allweak
    ensures Covered(heap, t, x, pending)
  {
  }

  lemma LinkedTableDone(heap: Heap, w: Visit, o: Ref, pending: set<Ref>)
    requires o in heap && heap[o].Ephemeron?
    requires !IsWhite(w.s, heap[o].metatable) && AllNonWhite(w.s, heap[o].slots)
    requires forall e :: e in heap[o].entries ==> Seen(heap, w, e)
    ensures TableDone(heap, Link(w, o).s, o, pending)
  {
  }

  // ---------- propagation and convergence keep the invariant ----------

  lemma PropagateMarkInv(heap: Heap, s: Marks, pending: set<Ref>)
    requires NoDangling(heap) && Inv(heap, s, pending, {}) && s.gray != []
    ensures Inv(heap, PropagateMark(heap, s), pending, {})
  {
    var o := s.gray[0];
    var t := s.(gray := s.gray[1..]);
    assert Inv(heap, t, pending, {o});
    match heap[o] {
      case Strong(refs) =>
        MarkAllInv(heap, t, refs, pending, {o});
        FinishSkip(heap, MarkAll(heap, t, refs), pending, {}, o);
      case Ephemeron(metatable, _, _) =>
        MarkInv(heap, t, metatable, pending, {o});
        TraverseInv(heap, Mark(heap, t, metatable), o, pending);
    }
  }

  lemma {:induction false} PropagateAllInv(heap: Heap, s: Marks, pending: set<Ref>)
    requires NoDangling(heap) && Inv(heap, s, pending, {})
    ensures Inv(heap, PropagateAll(heap, s), pending, {})
    decreases Work(heap, s)
  {
    if s.gray != [] {
      PropagateMarkMarked(heap, s);
      PropagateMarkInv(heap, s, pending);
      PropagateAllInv(heap, PropagateMark(heap, s), pending);
    }
  }

  function Refs(l: seq<Ref>): set<Ref> {
    set o | o in l
  }

  /** In every waiting table a value is white only while its key is. */
  ghost predicate QuietTables(heap: Heap, s: Marks)
    requires TablesOnly(heap, s.ephemeron)
  {
    forall o :: o in s.ephemeron ==> Quiet(heap, s, heap[o].entries)
  }

  /** Within a round: as long as nothing changed, the tables already visited are quiet. */
  ghost predicate RoundInv(heap: Heap, next: seq<Ref>, r: Round) {
    && Inv(heap, r.s, Refs(next), {})
    && TablesOnly(heap, next) && (forall o :: o in next ==> o in r.s.marked)
    && r.s.gray == []
    && (!r.changed ==> QuietTables(heap, r.s))
  }

  lemma VisitOneInv(heap: Heap, next: seq<Ref>, r: Round)
    requires NoDangling(heap) && next != [] && RoundInv(heap, next, r)
    ensures RoundInv(heap, next[1..], VisitOne(heap, next[0], r))
  {
    var o, rest := next[0], Refs(next[1..]);
    VisitOneOk(heap, next, r);
    VisitTableVisited(heap, r.s, o);
    assert Covered(heap, r.s, o, Refs(next));
    LessPending(heap, r.s, next);
    TraverseInv(heap, r.s, o, rest);
    var v := Traverse(heap, r.s, o);
    if v.marked {
      PropagateAllInv(heap, v.s, rest);
    } else {
      StillQuiet(heap, r, o);
    }
  }

  lemma LessPending(heap: Heap, s: Marks, next: seq<Ref>)
    requires next != [] && Inv(heap, s, Refs(next), {})
    ensures Inv(heap, s, Refs(next[1..]), {next[0]})
  {
    forall x | x in s.marked && x in heap && x !in s.gray && x != next[0]
      ensures Covered(heap, s, x, Refs(next[1..]))
    {
      assert x in Refs(next) ==> x in Refs(next[1..]);
    }
  }

  /** A visit that marks nothing only marks strings, so no key turns from white to marked. */
  lemma StillQuiet(heap: Heap, r: Round, o: Ref)
    requires NoDangling(heap) && o in heap && heap[o].Ephemeron? && Known(heap, r.s) && r.s.gray == []
    requires !r.changed ==> QuietTables(heap, r.s)
    requires var v := Traverse(heap, r.s, o); !v.marked && Quiet(heap, v.s, heap[o].entries) && Known(heap, v.s)
    ensures Traverse(heap, r.s, o).s.gray == []
    ensures !r.changed ==> QuietTables(heap, Traverse(heap, r.s, o).s)
  {
    VisitTableVisited(heap, r.s, o);
    var t := Traverse(heap, r.s, o).s;
    if !r.changed {
      forall x | x in t.ephemeron ensures Quiet(heap, t, heap[x].entries) {
        if x != o { QuietStays(heap, r.s, t, heap[x].entries); }
      }
    }
  }

  lemma QuietStays(heap: Heap, s: Marks, t: Marks, es: seq<Entry>)
    requires Quiet(heap, s, es) && s.marked <= t.marked && OnlyText(heap, s, t)
    ensures Quiet(heap, t, es)
  {
  }

  lemma {:induction false} VisitAllInv(heap: Heap, next: seq<Ref>, r: Round)
    requires NoDangling(heap) && RoundInv(heap, next, r)
    ensures RoundInv(heap, [], VisitAll(heap, next, r))
    decreases |next|
  {
    if next != [] {
      VisitOneOk(heap, next, r);
      VisitOneInv(heap, next, r);
      VisitAllInv(heap, next[1..], VisitOne(heap, next[0], r));
    }
  }

  lemma {:induction false} ConvergeInv(heap: Heap, s: Marks)
    requires NoDangling(heap) && Inv(heap, s, {}, {}) && s.gray == []
    ensures Inv(heap, Converge(heap, s), {}, {}) && QuietTables(heap, Converge(heap, s))
    decreases |Whites(heap, s)|
  {
    StartRound(heap, s);
    VisitAllInv(heap, s.ephemeron, Round(s.(ephemeron := []), false));
    var r := OneRound(heap, s);
    NothingPending(heap, r.s);
    if r.changed {
      FewerWhites(heap, s, r.s);
      ConvergeInv(heap, r.s);
    }
  }

  lemma StartRound(heap: Heap, s: Marks)
    requires Inv(heap, s, {}, {}) && s.gray == []
    ensures RoundInv(heap, s.ephemeron, Round(s.(ephemeron := []), false))
  {
    var t := s.(ephemeron := []);
    forall x | x in t.marked && x in heap ensures Covered(heap, t, x, Refs(s.ephemeron)) {
      assert Covered(heap, s, x, {});
    }
  }

  lemma NothingPending(heap: Heap, s: Marks)
    requires Inv(heap, s, Refs([]), {})
    ensures Inv(heap, s, {}, {})
  {
    assert Refs([]) == {};
  }

  // ---------- what ends up marked ----------

  /** `v` is nil, not collectable, or in `c`. */
  predicate Within(c: set<Ref>, v: Value) {
    v.Object? ==> v.ref in c
  }

  predicate AllWithin(c: set<Ref>, vs: seq<Value>) {
    forall v :: v in vs ==> Within(c, v)
  }

  /** The ephemeron rule (section 2.5.2 of the Lua 5.3 Reference Manual): a string key is kept, and a
      value is kept if its key is. */
  ghost predicate EntryWithin(heap: Heap, c: set<Ref>, e: Entry) {
    !e.value.Nil? ==> (IsText(heap, e.key) ==> Within(c, e.key)) && (Within(c, e.key) ==> Within(c, e.value))
  }

  /** `c` is closed under strong references and the ephemeron rule. */
  ghost predicate Closed(heap: Heap, c: set<Ref>) {
    forall o :: o in c && o in heap ==> ClosedAt(heap, c, heap[o])
  }

  ghost predicate ClosedAt(heap: Heap, c: set<Ref>, b: Body) {
    match b
    case Text => true
    case Userdata(refs) => AllWithin(c, refs)
    case Strong(refs) => AllWithin(c, refs)
    case Ephemeron(metatable, slots, entries) =>
      Within(c, metatable) && AllWithin(c, slots) && forall e :: e in entries ==> EntryWithin(heap, c, e)
  }

  /** Everything a step marks lies in every closed set that holds what was marked before. */
  lemma {:induction false} MarkLeast(heap: Heap, s: Marks, v: Value, c: set<Ref>)
    requires NoDangling(heap) && InHeap(heap, v) && Closed(heap, c) && s.marked <= c && Within(c, v)
    ensures Mark(heap, s, v).marked <= c
    decreases |Whites(heap, s)|, 0
  {
    if IsWhite(s, v) {
      OneLess(heap, s, v.ref);
      assert ClosedAt(heap, c, heap[v.ref]);
      if heap[v.ref].Userdata? { MarkAllLeast(heap, s.(marked := s.marked + {v.ref}), heap[v.ref].refs, c); }
    }
  }

  lemma {:induction false} MarkAllLeast(heap: Heap, s: Marks, vs: seq<Value>, c: set<Ref>)
    requires NoDangling(heap) && AllInHeap(heap, vs) && Closed(heap, c) && s.marked <= c && AllWithin(c, vs)
    ensures MarkAll(heap, s, vs).marked <= c
    decreases |Whites(heap, s)|, 1, |vs|
  {
    if vs != [] {
      MarkLeast(heap, s, vs[0], c);
      WhitesShrink(heap, s, Mark(heap, s, vs[0]));
      MarkAllLeast(heap, Mark(heap, s, vs[0]), vs[1..], c);
    }
  }

  lemma {:induction false} VisitArrayLeast(heap: Heap, vs: seq<Value>, v: Visit, c: set<Ref>)
    requires NoDangling(heap) && AllInHeap(heap, vs) && Closed(heap, c) && v.s.marked <= c && AllWithin(c, vs)
    ensures VisitArray(heap, vs, v).s.marked <= c
    decreases |vs|
  {
    if vs != [] {
      MarkLeast(heap, v.s, vs[0], c);
      VisitArrayLeast(heap, vs[1..], VisitSlot(heap, vs[0], v), c);
    }
  }

  lemma {:induction false} VisitEntriesLeast(heap: Heap, es: seq<Entry>, v: Visit, c: set<Ref>)
    requires NoDangling(heap) && EntriesInHeap(heap, es) && Closed(heap, c) && v.s.marked <= c
    requires forall e :: e in es ==> EntryWithin(heap, c, e)
    ensures VisitEntries(heap, es, v).s.marked <= c
    decreases |es|
  {
    if es != [] {
      VisitEntryLeast(heap, es[0], v, c);
      VisitEntriesLeast(heap, es[1..], VisitEntry(heap, es[0], v), c);
    }
  }

  lemma VisitEntryLeast(heap: Heap, e: Entry, v: Visit, c: set<Ref>)
    requires NoDangling(heap) && InHeap(heap, e.key) && InHeap(heap, e.value) && Closed(heap, c) && v.s.marked <= c
    requires EntryWithin(heap, c, e)
    ensures VisitEntry(heap, e, v).s.marked <= c
  {
    if !e.value.Nil? && !IsCleared(heap, v.s, e.key) {
      if IsText(heap, e.key) { MarkLeast(heap, v.s, e.key, c); }
      MarkLeast(heap, MarkText(heap, v.s, e.key), e.value, c);
    }
  }

  lemma TraverseLeast(heap: Heap, s: Marks, o: Ref, c: set<Ref>)
    requires NoDangling(heap) && o in heap && heap[o].Ephemeron? && Closed(heap, c) && s.marked <= c && o in c
    ensures Traverse(heap, s, o).s.marked <= c
  {
    assert ClosedAt(heap, c, heap[o]);
    var start := Visit(s, false, false, false);
    VisitArrayLeast(heap, heap[o].slots, start, c);
    VisitEntriesLeast(heap, heap[o].entries, VisitArray(heap, heap[o].slots, start), c);
  }

  lemma PropagateMarkLeast(heap: Heap, s: Marks, c: set<Ref>)
    requires NoDangling(heap) && Known(heap, s) && GrayKinds(heap, s) && s.gray != []
    requires Closed(heap, c) && s.marked <= c
    ensures PropagateMark(heap, s).marked <= c
  {
    var o := s.gray[0];
    var t := s.(gray := s.gray[1..]);
    assert ClosedAt(heap, c, heap[o]);
    match heap[o] {
      case Strong(refs) => MarkAllLeast(heap, t, refs, c);
      case Ephemeron(metatable, _, _) =>
        MarkLeast(heap, t, metatable, c);
        TraverseLeast(heap, Mark(heap, t, metatable), o, c);
    }
  }

  lemma {:induction false} PropagateAllLeast(heap: Heap, s: Marks, pending: set<Ref>, c: set<Ref>)
    requires NoDangling(heap) && Inv(heap, s, pending, {}) && Closed(heap, c) && s.marked <= c
    ensures PropagateAll(heap, s).marked <= c
    decreases Work(heap, s)
  {
    if s.gray != [] {
      PropagateMarkMarked(heap, s);
      PropagateMarkLeast(heap, s, c);
      PropagateMarkInv(heap, s, pending);
      PropagateAllLeast(heap, PropagateMark(heap, s), pending, c);
    }
  }

  lemma VisitOneLeast(heap: Heap, next: seq<Ref>, r: Round, c: set<Ref>)
    requires NoDangling(heap) && next != [] && RoundInv(heap, next, r) && Closed(heap, c) && r.s.marked <= c
    ensures VisitOne(heap, next[0], r).s.marked <= c
  {
    var o := next[0];
    TraverseLeast(heap, r.s, o, c);
    var v := Traverse(heap, r.s, o);
    VisitTableVisited(heap, r.s, o);
    if v.marked {
      LessPending(heap, r.s, next);
      TraverseInv(heap, r.s, o, Refs(next[1..]));
      PropagateAllLeast(heap, v.s, Refs(next[1..]), c);
    }
  }

  lemma {:induction false} VisitAllLeast(heap: Heap, next: seq<Ref>, r: Round, c: set<Ref>)
    requires NoDangling(heap) && RoundInv(heap, next, r) && Closed(heap, c) && r.s.marked <= c
    ensures VisitAll(heap, next, r).s.marked <= c
    decreases |next|
  {
    if next != [] {
      VisitOneOk(heap, next, r);
      VisitOneInv(heap, next, r);
      VisitOneLeast(heap, next, r, c);
      VisitAllLeast(heap, next[1..], VisitOne(heap, next[0], r), c);
    }
  }

  lemma {:induction false} ConvergeLeast(heap: Heap, s: Marks, c: set<Ref>)
    requires NoDangling(heap) && Inv(heap, s, {}, {}) && s.gray == [] && Closed(heap, c) && s.marked <= c
    ensures Converge(heap, s).marked <= c
    decreases |Whites(heap, s)|
  {
    StartRound(heap, s);
    var r := OneRound(heap, s);
    VisitAllInv(heap, s.ephemeron, Round(s.(ephemeron := []), false));
    VisitAllLeast(heap, s.ephemeron, Round(s.(ephemeron := []), false), c);
    NothingPending(heap, r.s);
    if r.changed {
      FewerWhites(heap, s, r.s);
      ConvergeLeast(heap, r.s, c);
    }
  }

  /** Covered and quiet all over means closed. */
  lemma MarkedClosed(heap: Heap, s: Marks)
    requires Inv(heap, s, {}, {}) && s.gray == [] && QuietTables(heap, s)
    ensures Closed(heap, s.marked)
  {
    forall o | o in s.marked && o in heap ensures ClosedAt(heap, s.marked, heap[o]) {
      assert Covered(heap, s, o, {});
      if heap[o].Ephemeron? { TableClosed(heap, s, o); }
    }
  }

  lemma TableClosed(heap: Heap, s: Marks, o: Ref)
    requires o in heap && heap[o].Ephemeron? && TableDone(heap, s, o, {})
    requires o in s.ephemeron ==> Quiet(heap, s, heap[o].entries)
    ensures ClosedAt(heap, s.marked, heap[o])
  {
    forall e | e in heap[o].entries ensures EntryWithin(heap, s.marked, e) {
      if !e.value.Nil? {
        assert IsText(heap, e.key) ==> !IsWhite(s, e.key);
        assert o in s.ephemeron ==> !IsCleared(heap, s, e.key) ==> !IsWhite(s, e.value);
        assert o !in s.ephemeron ==> !IsWhite(s, e.value);
      }
    }
  }

  /** propagateall followed by convergeephemerons (lgc.c:1009-1011). */
  function MarkPhase(heap: Heap, s: Marks): Marks
    requires NoDangling(heap) && Known(heap, s)
  {
    Converge(heap, PropagateAll(heap, s))
  }

  /** The collector ends with the least set that holds what it had marked and is closed under strong
      references and the ephemeron rule: everything that must be kept is marked, nothing else. */
  lemma LeastClosed(heap: Heap, s: Marks)
    requires NoDangling(heap) && Inv(heap, s, {}, {})
    ensures s.marked <= MarkPhase(heap, s).marked && Closed(heap, MarkPhase(heap, s).marked)
    ensures forall c :: Closed(heap, c) && s.marked <= c ==> MarkPhase(heap, s).marked <= c
  {
    var t := PropagateAll(heap, s);
    PropagateAllInv(heap, s, {});
    ConvergeInv(heap, t);
    MarkedClosed(heap, Converge(heap, t));
    forall c | Closed(heap, c) && s.marked <= c ensures Converge(heap, t).marked <= c {
      PropagateAllLeast(heap, s, {}, c);
      ConvergeLeast(heap, t, c);
    }
  }

  /** On exit no ephemeron table that is marked has a marked key with a white value. */
  lemma NoMarkedKeyWithWhiteValue(heap: Heap, s: Marks, o: Ref, e: Entry)
    requires NoDangling(heap) && Inv(heap, s, {}, {})
    requires o in heap && heap[o].Ephemeron? && e in heap[o].entries && !e.value.Nil?
    ensures var t := MarkPhase(heap, s); o in t.marked && !IsWhite(t, e.key) ==> !IsWhite(t, e.value)
  {
    LeastClosed(heap, s);
    var t := MarkPhase(heap, s);
    if o in t.marked {
      assert ClosedAt(heap, t.marked, heap[o]);
      assert EntryWithin(heap, t.marked, e);
    }
  }

  // ---------- clearkeys ----------

  datatype Cleared = Cleared(s: Marks, entries: seq<Entry>)

  /** The loop of clearkeys over one table: `done` are the entries passed. */
  function ClearEntries(heap: Heap, s: Marks, es: seq<Entry>, done: seq<Entry>): Cleared
    requires NoDangling(heap) && EntriesInHeap(heap, es)
    decreases |es|
  {
    if es == [] then Cleared(s, done)
    else if es[0].value.Nil? then ClearEntries(heap, s, es[1..], done + [es[0]])
    else if IsCleared(heap, s, es[0].key) then ClearEntries(heap, s, es[1..], done + [Entry(es[0].key, Nil)])
    else ClearEntries(heap, MarkText(heap, s, es[0].key), es[1..], done + [es[0]])
  }

  datatype Store = Store(heap: Heap, s: Marks)

  function ClearTable(m: Store, o: Ref): Store
    requires NoDangling(m.heap) && o in m.heap && m.heap[o].Ephemeron?
  {
    var r := ClearEntries(m.heap, m.s, m.heap[o].entries, []);
    Store(m.heap[o := m.heap[o].(entries := r.entries)], r.s)
  }

  function ClearKeys(m: Store, l: seq<Ref>): Store
    requires NoDangling(m.heap) && TablesOnly(m.heap, l)
    decreases |l|
  {
    if l == [] then m else ClearTableOk(m, l); ClearKeys(ClearTable(m, l[0]), l[1..])
  }

  lemma {:induction false} ClearEntriesSame(heap: Heap, s: Marks, es: seq<Entry>, done: seq<Entry>)
    requires NoDangling(heap) && EntriesInHeap(heap, es) && EntriesInHeap(heap, done)
    ensures EntriesInHeap(heap, ClearEntries(heap, s, es, done).entries)
    decreases |es|
  {
    if es != [] {
      if es[0].value.Nil? {
        ClearEntriesSame(heap, s, es[1..], done + [es[0]]);
      } else if IsCleared(heap, s, es[0].key) {
        ClearEntriesSame(heap, s, es[1..], done + [Entry(es[0].key, Nil)]);
      } else {
        ClearEntriesSame(heap, MarkText(heap, s, es[0].key), es[1..], done + [es[0]]);
      }
    }
  }

  lemma ClearTableOk(m: Store, l: seq<Ref>)
    requires NoDangling(m.heap) && TablesOnly(m.heap, l) && l != []
    ensures NoDangling(ClearTable(m, l[0]).heap) && TablesOnly(ClearTable(m, l[0]).heap, l[1..])
  {
    var o := l[0];
    ClearEntriesSame(m.heap, m.s, m.heap[o].entries, []);
    var h := ClearTable(m, o).heap;
    assert h.Keys == m.heap.Keys;
    forall x | x in h ensures BodyInHeap(h, h[x]) {
      assert BodyInHeap(m.heap, m.heap[x]);
      SameKeys(m.heap, h, h[x]);
    }
  }

  lemma SameKeys(g: Heap, h: Heap, b: Body)
    requires g.Keys == h.Keys && BodyInHeap(g, b)
    ensures BodyInHeap(h, b)
  {
  }

  /** An entry after clearing: emptied if its key is white. */
  function Trim(heap: Heap, s: Marks, e: Entry): Entry {
    if !e.value.Nil? && IsCleared(heap, s, e.key) then Entry(e.key, Nil) else e
  }

  lemma {:induction false} ClearEntriesExact(heap: Heap, s: Marks, es: seq<Entry>, done: seq<Entry>)
    requires NoDangling(heap) && EntriesInHeap(heap, es) && TextKeysMarked(heap, s, es)
    ensures var r := ClearEntries(heap, s, es, done);
            && r.s == s && |r.entries| == |done| + |es| && done <= r.entries
            && forall i :: 0 <= i < |es| ==> r.entries[|done| + i] == Trim(heap, s, es[i])
    decreases |es|
  {
    if es != [] {
      var first := Trim(heap, s, es[0]);
      assert es[0] in es;
      assert !es[0].value.Nil? && !IsCleared(heap, s, es[0].key) ==> MarkText(heap, s, es[0].key) == s;
      ClearEntriesExact(heap, s, es[1..], done + [first]);
      var r := ClearEntries(heap, s, es, done);
      assert r == ClearEntries(heap, s, es[1..], done + [first]);
      forall i | 0 <= i < |es| ensures r.entries[|done| + i] == Trim(heap, s, es[i]) {
        if i == 0 {
          assert r.entries[|done|] == (done + [first])[|done|];
        } else {
          assert r.entries[|done + [first]| + (i - 1)] == Trim(heap, s, es[1..][i - 1]);
        }
      }
    }
  }

  /** Table `o` in `h` is the table in `g`, after its entries with white keys were emptied if it was in the
      list that was cleared. */
  ghost predicate Trimmed(g: Heap, h: Heap, s: Marks, o: Ref, cleared: bool)
    requires o in g && o in h
  {
    if g[o].Ephemeron? then
      && h[o].Ephemeron? && h[o].metatable == g[o].metatable && h[o].slots == g[o].slots
      && |h[o].entries| == |g[o].entries|
      && forall i :: 0 <= i < |g[o].entries| ==>
           h[o].entries[i] == if cleared then Trim(g, s, g[o].entries[i]) else g[o].entries[i]
    else h[o] == g[o]
  }

  /** An entry that is left was there before. */
  lemma TrimmedEntry(g: Heap, h: Heap, s: Marks, o: Ref, cleared: bool, e: Entry)
    requires o in g && o in h && Trimmed(g, h, s, o, cleared) && g[o].Ephemeron?
    requires e in h[o].entries && !e.value.Nil?
    ensures e in g[o].entries && (cleared ==> !IsCleared(g, s, e.key))
  {
    var i :| 0 <= i < |h[o].entries| && h[o].entries[i] == e;
    assert g[o].entries[i] in g[o].entries;
  }

  ghost predicate KeysClearable(m: Store, l: seq<Ref>)
    requires TablesOnly(m.heap, l)
  {
    forall o :: o in l ==> TextKeysMarked(m.heap, m.s, m.heap[o].entries)
  }

  ghost predicate SameTexts(g: Heap, h: Heap) {
    g.Keys == h.Keys && forall o :: o in g ==> (g[o].Text? <==> h[o].Text?)
  }

  lemma ClearTableExact(m: Store, o: Ref)
    requires NoDangling(m.heap) && o in m.heap && m.heap[o].Ephemeron?
    requires TextKeysMarked(m.heap, m.s, m.heap[o].entries)
    ensures ClearTable(m, o).s == m.s && SameTexts(m.heap, ClearTable(m, o).heap)
    ensures Trimmed(m.heap, ClearTable(m, o).heap, m.s, o, true)
    ensures forall x :: x in m.heap && x != o ==> ClearTable(m, o).heap[x] == m.heap[x]
  {
    var es := m.heap[o].entries;
    ClearEntriesExact(m.heap, m.s, es, []);
    var r := ClearEntries(m.heap, m.s, es, []);
    forall i | 0 <= i < |es| ensures r.entries[i] == Trim(m.heap, m.s, es[i]) {
      assert r.entries[0 + i] == Trim(m.heap, m.s, es[i]);
    }
  }

  lemma {:induction false} ClearKeysExact(m: Store, l: seq<Ref>)
    requires NoDangling(m.heap) && TablesOnly(m.heap, l) && KeysClearable(m, l)
    ensures ClearKeys(m, l).s == m.s && SameTexts(m.heap, ClearKeys(m, l).heap) && NoDangling(ClearKeys(m, l).heap)
    ensures forall o :: o in m.heap ==> Trimmed(m.heap, ClearKeys(m, l).heap, m.s, o, o in l)
    decreases |l|
  {
    if l != [] {
      ClearTableOk(m, l);
      assert l[0] in l;
      ClearTableExact(m, l[0]);
      var n := ClearTable(m, l[0]);
      StillClearable(m, n, l);
      ClearKeysExact(n, l[1..]);
      forall o | o in m.heap ensures Trimmed(m.heap, ClearKeys(m, l).heap, m.s, o, o in l) {
        assert Trimmed(m.heap, n.heap, m.s, o, o == l[0]);
        TrimmedTwice(m.heap, n.heap, ClearKeys(n, l[1..]).heap, m.s, o, o == l[0], o in l[1..]);
      }
    }
  }

  lemma StillClearable(m: Store, n: Store, l: seq<Ref>)
    requires l != [] && TablesOnly(m.heap, l) && KeysClearable(m, l) && TablesOnly(n.heap, l[1..])
    requires n.s == m.s && SameTexts(m.heap, n.heap) && Trimmed(m.heap, n.heap, m.s, l[0], true)
    requires forall x :: x in m.heap && x != l[0] ==> n.heap[x] == m.heap[x]
    ensures KeysClearable(n, l[1..])
  {
    forall o | o in l[1..] ensures TextKeysMarked(n.heap, n.s, n.heap[o].entries) {
      assert o in l;
      StillMarked(m.heap, n.heap, m.s, o, o == l[0]);
    }
  }

  lemma StillMarked(g: Heap, h: Heap, s: Marks, o: Ref, cleared: bool)
    requires o in g && o in h && g[o].Ephemeron? && h[o].Ephemeron? && SameTexts(g, h)
    requires Trimmed(g, h, s, o, cleared) || h[o] == g[o]
    requires TextKeysMarked(g, s, g[o].entries)
    ensures TextKeysMarked(h, s, h[o].entries)
  {
    forall e | e in h[o].entries && !e.value.Nil? ensures e in g[o].entries {
      if h[o] != g[o] { TrimmedEntry(g, h, s, o, cleared, e); }
    }
  }

  lemma TrimmedTwice(g: Heap, h: Heap, k: Heap, s: Marks, o: Ref, first: bool, second: bool)
    requires o in g && o in h && o in k && SameTexts(g, h)
    requires Trimmed(h, k, s, o, second)
    requires Trimmed(g, h, s, o, first)
    ensures Trimmed(g, k, s, o, first || second)
  {
    if g[o].Ephemeron? {
      forall i | 0 <= i < |g[o].entries|
        ensures k[o].entries[i] == if first || second then Trim(g, s, g[o].entries[i]) else g[o].entries[i] {
        var e := g[o].entries[i];
        assert h[o].entries[i] == if first then Trim(g, s, e) else e;
        assert IsCleared(h, s, e.key) <==> IsCleared(g, s, e.key);
      }
    }
  }

  /** Clearing the tables that wait in the two lists (lgc.c:1014-1015). */
  function ClearPhase(heap: Heap, s: Marks): Store
    requires NoDangling(heap) && Known(heap, s)
  {
    ClearWaiting(heap, s);
    ClearKeys(ClearKeys(Store(heap, s), s.ephemeron), s.allweak)
  }

  lemma {:induction false} ClearKeepsTables(m: Store, l: seq<Ref>, tables: seq<Ref>)
    requires NoDangling(m.heap) && TablesOnly(m.heap, l) && TablesOnly(m.heap, tables)
    ensures NoDangling(ClearKeys(m, l).heap) && TablesOnly(ClearKeys(m, l).heap, tables)
    decreases |l|
  {
    if l != [] {
      ClearTableOk(m, l);
      ClearKeepsTables(ClearTable(m, l[0]), l[1..], tables);
    }
  }

  lemma ClearWaiting(heap: Heap, s: Marks)
    requires NoDangling(heap) && Known(heap, s)
    ensures NoDangling(ClearKeys(Store(heap, s), s.ephemeron).heap)
    ensures TablesOnly(ClearKeys(Store(heap, s), s.ephemeron).heap, s.allweak)
  {
    ClearKeepsTables(Store(heap, s), s.ephemeron, s.allweak);
  }

  /** All that an object still refers to. */
  ghost predicate RefersWithin(c: set<Ref>, b: Body) {
    match b
    case Text => true
    case Userdata(refs) => AllWithin(c, refs)
    case Strong(refs) => AllWithin(c, refs)
    case Ephemeron(metatable, slots, entries) =>
      && Within(c, metatable) && AllWithin(c, slots)
      && forall e :: e in entries && !e.value.Nil? ==> Within(c, e.key) && Within(c, e.value)
  }

  /** Clearing empties exactly the entries of marked tables whose key is not kept, and touches nothing else. */
  ghost predicate ClearedExactly(g: Heap, h: Heap, kept: set<Ref>, o: Ref)
    requires o in g && o in h
  {
    if g[o].Ephemeron? && o in kept then
      && h[o].Ephemeron? && h[o].metatable == g[o].metatable && h[o].slots == g[o].slots
      && |h[o].entries| == |g[o].entries|
      && forall i :: 0 <= i < |g[o].entries| ==>
           var e := g[o].entries[i];
           h[o].entries[i] == if e.value.Nil? || Within(kept, e.key) then e else Entry(e.key, Nil)
    else h[o] == g[o]
  }

  lemma TrimmedExactly(g: Heap, h: Heap, s: Marks, o: Ref)
    requires o in g && o in h && Inv(g, s, {}, {}) && s.gray == []
    requires Trimmed(g, h, s, o, o in s.ephemeron || o in s.allweak)
    ensures ClearedExactly(g, h, s.marked, o)
  {
    if g[o].Ephemeron? {
      if o in s.marked {
        assert Covered(g, s, o, {});
        forall i | 0 <= i < |g[o].entries|
          ensures var e := g[o].entries[i];
            h[o].entries[i] == if e.value.Nil? || Within(s.marked, e.key) then e else Entry(e.key, Nil) {
          assert g[o].entries[i] in g[o].entries;
        }
      } else {
        assert h[o].entries == g[o].entries;
      }
    }
  }

  /** After clearing, no marked object refers to a white one any more, so that the white objects can
      be swept; and clearing marks nothing. */
  lemma NothingWhiteLeft(heap: Heap, s: Marks, o: Ref)
    requires NoDangling(heap) && Inv(heap, s, {}, {}) && s.gray == [] && QuietTables(heap, s)
    ensures ClearPhase(heap, s).s == s && ClearPhase(heap, s).heap.Keys == heap.Keys
    ensures o in s.marked ==> RefersWithin(s.marked, ClearPhase(heap, s).heap[o])
    ensures o in heap ==> ClearedExactly(heap, ClearPhase(heap, s).heap, s.marked, o)
  {
    var m := Store(heap, s);
    ListsClearable(heap, s);
    ClearWaiting(heap, s);
    ClearKeysExact(m, s.ephemeron);
    var n := ClearKeys(m, s.ephemeron);
    SecondListClearable(heap, n, s);
    ClearKeysExact(n, s.allweak);
    var k := ClearKeys(n, s.allweak).heap;
    if o in heap {
      TrimmedTwice(heap, n.heap, k, s, o, o in s.ephemeron, o in s.allweak);
      TrimmedExactly(heap, k, s, o);
    }
    if o in s.marked {
      MarkedClosed(heap, s);
      assert ClosedAt(heap, s.marked, heap[o]);
      if heap[o].Ephemeron? {
        assert Covered(heap, s, o, {});
        TableRefers(heap, n.heap, k, s, o);
      }
    }
  }

  lemma ListsClearable(heap: Heap, s: Marks)
    requires Inv(heap, s, {}, {}) && s.gray == []
    ensures KeysClearable(Store(heap, s), s.ephemeron) && KeysClearable(Store(heap, s), s.allweak)
  {
    forall o | o in s.ephemeron || o in s.allweak ensures TextKeysMarked(heap, s, heap[o].entries) {
      assert Covered(heap, s, o, {});
    }
  }

  lemma SecondListClearable(heap: Heap, n: Store, s: Marks)
    requires TablesOnly(heap, s.allweak) && KeysClearable(Store(heap, s), s.allweak)
    requires n.s == s && SameTexts(heap, n.heap) && TablesOnly(n.heap, s.allweak)
    requires forall o :: o in heap ==> Trimmed(heap, n.heap, s, o, o in s.ephemeron)
    ensures KeysClearable(n, s.allweak)
  {
    forall o | o in s.allweak ensures TextKeysMarked(n.heap, s, n.heap[o].entries) {
      assert TextKeysMarked(heap, s, heap[o].entries);
      StillMarked(heap, n.heap, s, o, o in s.ephemeron);
    }
  }

  lemma TableRefers(g: Heap, h: Heap, k: Heap, s: Marks, o: Ref)
    requires o in g && o in h && o in k && g[o].Ephemeron? && SameTexts(g, h)
    requires Trimmed(g, h, s, o, o in s.ephemeron) && Trimmed(h, k, s, o, o in s.allweak)
    requires TableDone(g, s, o, {}) && ClosedAt(g, s.marked, g[o])
    ensures RefersWithin(s.marked, k[o])
  {
    forall e | e in k[o].entries && !e.value.Nil? ensures Within(s.marked, e.key) && Within(s.marked, e.value) {
      TrimmedEntry(h, k, s, o, o in s.allweak, e);
      TrimmedEntry(g, h, s, o, o in s.ephemeron, e);
      assert !IsCleared(g, s, e.key);
      assert EntryWithin(g, s.marked, e);
    }
  }

  // ---------- the atomic step from the roots ----------

  /** Nothing is marked yet. */
  const UNMARKED := Marks({}, [], [], [])

  lemma UnmarkedInv(heap: Heap)
    ensures Inv(heap, UNMARKED, {}, {})
  {
  }

  /** Mark the values, propagate and converge. */
  function MarkFrom(heap: Heap, s: Marks, vs: seq<Value>): Marks
    requires NoDangling(heap) && AllInHeap(heap, vs) && Known(heap, s)
  {
    MarkAllMarked(heap, s, vs);
    MarkPhase(heap, MarkAll(heap, s, vs))
  }

  /** `t` has marked, beyond `s`, what `vs` keep alive and no more. */
  ghost predicate MarkedExactly(heap: Heap, s: Marks, vs: seq<Value>, t: Marks) {
    && Closed(heap, t.marked) && s.marked <= t.marked && AllWithin(t.marked, vs)
    && forall c :: Closed(heap, c) && s.marked <= c && AllWithin(c, vs) ==> t.marked <= c
  }

  lemma MarkFromExact(heap: Heap, s: Marks, vs: seq<Value>)
    requires NoDangling(heap) && AllInHeap(heap, vs) && Inv(heap, s, {}, {})
    ensures var t := MarkFrom(heap, s, vs);
      MarkedExactly(heap, s, vs, t) && Inv(heap, t, {}, {}) && t.gray == [] && QuietTables(heap, t)
  {
    var u := MarkAll(heap, s, vs);
    MarkAllInv(heap, s, vs, {}, {});
    LeastClosed(heap, u);
    PropagateAllInv(heap, u, {});
    ConvergeInv(heap, PropagateAll(heap, u));
    var t := MarkFrom(heap, s, vs);
    assert AllWithin(t.marked, vs) by {
      assert forall v :: v in vs ==> !IsWhite(u, v);
    }
    forall c | Closed(heap, c) && s.marked <= c && AllWithin(c, vs) ensures t.marked <= c {
      MarkAllLeast(heap, s, vs, c);
    }
  }

  /** separatetobefnz (lgc.c:877-892): the objects with finalizers that nothing has marked. */
  function Unreached(s: Marks, finobj: seq<Value>): (r: seq<Value>)
    ensures forall v :: v in r <==> v in finobj && IsWhite(s, v)
  {
    if finobj == [] then []
    else (if IsWhite(s, finobj[0]) then [finobj[0]] else []) + Unreached(s, finobj[1..])
  }

  /** atomic up to lgc.c:999: what the roots keep alive. */
  function StrongMarks(heap: Heap, roots: seq<Value>): Marks
    requires NoDangling(heap) && AllInHeap(heap, roots)
  {
    MarkFrom(heap, UNMARKED, roots)
  }

  lemma StrongExact(heap: Heap, roots: seq<Value>)
    requires NoDangling(heap) && AllInHeap(heap, roots)
    ensures var t := StrongMarks(heap, roots);
      MarkedExactly(heap, UNMARKED, roots, t) && Inv(heap, t, {}, {}) && t.gray == [] && QuietTables(heap, t)
  {
    UnmarkedInv(heap);
    MarkFromExact(heap, UNMARKED, roots);
  }

  /** atomic up to lgc.c:1011: and what the finalizers that are due will see. */
  function ResurrectedMarks(heap: Heap, roots: seq<Value>, finobj: seq<Value>, tobefnz: seq<Value>): Marks
    requires NoDangling(heap) && AllInHeap(heap, roots) && AllInHeap(heap, finobj) && AllInHeap(heap, tobefnz)
  {
    StrongExact(heap, roots);
    MarkFrom(heap, StrongMarks(heap, roots), tobefnz + Unreached(StrongMarks(heap, roots), finobj))
  }

  /** atomic up to lgc.c:1015, without tables with weak values. */
  function AtomicStep(heap: Heap, roots: seq<Value>, finobj: seq<Value>, tobefnz: seq<Value>): Store
    requires NoDangling(heap) && AllInHeap(heap, roots) && AllInHeap(heap, finobj) && AllInHeap(heap, tobefnz)
  {
    ResurrectedExact(heap, roots, finobj, tobefnz);
    ClearPhase(heap, ResurrectedMarks(heap, roots, finobj, tobefnz))
  }

  lemma ResurrectedExact(heap: Heap, roots: seq<Value>, finobj: seq<Value>, tobefnz: seq<Value>)
    requires NoDangling(heap) && AllInHeap(heap, roots) && AllInHeap(heap, finobj) && AllInHeap(heap, tobefnz)
    ensures var s := StrongMarks(heap, roots); var t := ResurrectedMarks(heap, roots, finobj, tobefnz);
      && MarkedExactly(heap, s, tobefnz + Unreached(s, finobj), t)
      && Inv(heap, t, {}, {}) && t.gray == [] && QuietTables(heap, t)
  {
    StrongExact(heap, roots);
    var s := StrongMarks(heap, roots);
    MarkFromExact(heap, s, tobefnz + Unreached(s, finobj));
  }

  /** The whole step: `kept` is the least closed set that holds the roots, the objects to be finalized,
      and those with finalizers that the roots do not reach.  Exactly `kept` is marked at the end; no
      object is added or freed; and what is marked refers to nothing else any more. */
  lemma AtomicExact(heap: Heap, roots: seq<Value>, finobj: seq<Value>, tobefnz: seq<Value>, o: Ref)
    requires NoDangling(heap) && AllInHeap(heap, roots) && AllInHeap(heap, finobj) && AllInHeap(heap, tobefnz)
    ensures var kept := AtomicStep(heap, roots, finobj, tobefnz).s.marked;
      && Closed(heap, kept) && AllWithin(kept, roots) && AllWithin(kept, tobefnz) && AllWithin(kept, finobj)
      && (forall c :: Closed(heap, c) && AllWithin(c, roots)
                      && AllWithin(c, tobefnz + Unreached(StrongMarks(heap, roots), finobj))
            ==> kept <= c)
    ensures var m := AtomicStep(heap, roots, finobj, tobefnz);
      && m.heap.Keys == heap.Keys && (o in m.s.marked ==> o in heap && RefersWithin(m.s.marked, m.heap[o]))
      && (o in heap ==> ClearedExactly(heap, m.heap, m.s.marked, o))
  {
    var s, t := StrongMarks(heap, roots), ResurrectedMarks(heap, roots, finobj, tobefnz);
    var due := tobefnz + Unreached(s, finobj);
    StrongExact(heap, roots);
    ResurrectedExact(heap, roots, finobj, tobefnz);
    NothingWhiteLeft(heap, t, o);
    assert AllWithin(t.marked, tobefnz) && AllWithin(t.marked, finobj) by {
      DueWithin(s, t, finobj, tobefnz);
    }
    forall c | Closed(heap, c) && AllWithin(c, roots) && AllWithin(c, due) ensures t.marked <= c {
      assert s.marked <= c;
    }
  }

  lemma DueWithin(s: Marks, t: Marks, finobj: seq<Value>, tobefnz: seq<Value>)
    requires s.marked <= t.marked && AllWithin(t.marked, tobefnz + Unreached(s, finobj))
    ensures AllWithin(t.marked, tobefnz) && AllWithin(t.marked, finobj)
  {
    forall v | v in tobefnz || v in finobj ensures Within(t.marked, v) {
      assert v in tobefnz || (v in finobj && IsWhite(s, v)) ==> v in tobefnz + Unreached(s, finobj);
    }
  }

  // ---------- the code, on a collector that is updated in place ----------

  /** The part of global_State that these functions change. */
  class Collector {
    var heap: Heap
    var marked: set<Ref>
    var gray: seq<Ref>
    var ephemeron: seq<Ref>
    var allweak: seq<Ref>

    ghost function Snapshot(): Marks
      reads this
    {
      Marks(marked, gray, ephemeron, allweak)
    }

    constructor (heap: Heap, marked: set<Ref>, gray: seq<Ref>)
      ensures this.heap == heap && Snapshot() == Marks(marked, gray, [], [])
    {
      this.heap, this.marked, this.gray := heap, marked, gray;
      ephemeron, allweak := [], [];
    }

    method MarkValue(v: Value)
      requires NoDangling(heap) && InHeap(heap, v)
      modifies this`marked, this`gray
      ensures Snapshot() == Mark(heap, old(Snapshot()), v)
      decreases |Whites(heap, Snapshot())|, 0
    {
      if !v.Object? || v.ref in marked { return; }
      OneLess(heap, Snapshot(), v.ref);
      marked := marked + {v.ref};
      match heap[v.ref]
      case Text =>
      case Userdata(refs) => MarkValues(refs);
      case _ => gray := [v.ref] + gray;
    }

    method MarkValues(vs: seq<Value>)
      requires NoDangling(heap) && AllInHeap(heap, vs)
      modifies this`marked, this`gray
      ensures Snapshot() == MarkAll(heap, old(Snapshot()), vs)
      decreases |Whites(heap, Snapshot())|, 1
    {
      ghost var start := Snapshot();
      for i := 0 to |vs|
        invariant start.marked <= marked
        invariant MarkAll(heap, Snapshot(), vs[i..]) == MarkAll(heap, start, vs)
      {
        assert vs[i..][1..] == vs[i + 1..];
        WhitesShrink(heap, start, Snapshot());
        MarkValue(vs[i]);
      }
    }

    method TraverseEphemeron(h: Ref) returns (traced: bool)
      requires NoDangling(heap) && h in heap && heap[h].Ephemeron?
      modifies this`marked, this`gray, this`ephemeron, this`allweak
      ensures var v := Traverse(heap, old(Snapshot()), h); Snapshot() == v.s && traced == v.marked
    {
      var hasclears, hasww := false, false;
      traced := false;
      var slots, entries := heap[h].slots, heap[h].entries;
      ghost var start := Visit(Snapshot(), false, false, false);
      for i := 0 to |slots|
        invariant ephemeron == old(ephemeron) && allweak == old(allweak)
        invariant VisitArray(heap, slots[i..], Visit(Snapshot(), traced, hasclears, hasww)) ==
                  VisitArray(heap, slots, start)
      {
        assert slots[i..][1..] == slots[i + 1..];
        if slots[i].Object? && slots[i].ref !in marked {
          traced := true;
          MarkValue(slots[i]);
        }
      }
      ghost var table := Visit(Snapshot(), traced, hasclears, hasww);
      for i := 0 to |entries|
        invariant ephemeron == old(ephemeron) && allweak == old(allweak)
        invariant VisitEntries(heap, entries[i..], Visit(Snapshot(), traced, hasclears, hasww)) ==
                  VisitEntries(heap, entries, table)
      {
        assert entries[i..][1..] == entries[i + 1..];
        var e := entries[i];
        if !e.value.Nil? {
          var cleared := KeyCleared(e.key);
          if cleared {
            hasclears := true;
            if e.value.Object? && e.value.ref !in marked { hasww := true; }
          } else if e.value.Object? && e.value.ref !in marked {
            traced := true;
            MarkValue(e.value);
          }
        }
      }
      if hasww {
        ephemeron := [h] + ephemeron;
      } else if hasclears {
        allweak := [h] + allweak;
      }
    }

    /** iscleared. */
    method KeyCleared(key: Value) returns (cleared: bool)
      requires NoDangling(heap) && InHeap(heap, key)
      modifies this`marked, this`gray
      ensures cleared == IsCleared(heap, old(Snapshot()), key)
      ensures Snapshot() == if cleared then old(Snapshot()) else MarkText(heap, old(Snapshot()), key)
    {
      if !key.Object? { return false; }
      if heap[key.ref].Text? {
        MarkValue(key);
        return false;
      }
      return key.ref !in marked;
    }

    method PropagateOne()
      requires NoDangling(heap) && Known(heap, Snapshot()) && gray != []
      modifies this`marked, this`gray, this`ephemeron, this`allweak
      ensures Snapshot() == PropagateMark(heap, old(Snapshot()))
    {
      var o := gray[0];
      gray := gray[1..];
      match heap[o]
      case Strong(refs) => MarkValues(refs);
      case Ephemeron(metatable, _, _) =>
        MarkValue(metatable);
        var _ := TraverseEphemeron(o);
      case _ =>
    }

    method PropagateGray()
      requires NoDangling(heap) && Known(heap, Snapshot())
      modifies this`marked, this`gray, this`ephemeron, this`allweak
      ensures Snapshot() == PropagateAll(heap, old(Snapshot()))
    {
      while gray != []
        invariant Known(heap, Snapshot())
        invariant PropagateAll(heap, Snapshot()) == PropagateAll(heap, old(Snapshot()))
        decreases Work(heap, Snapshot())
      {
        PropagateMarkMarked(heap, Snapshot());
        PropagateOne();
      }
    }

    method ConvergeEphemerons()
      requires NoDangling(heap) && Known(heap, Snapshot()) && gray == []
      modifies this`marked, this`gray, this`ephemeron, this`allweak
      ensures Snapshot() == Converge(heap, old(Snapshot()))
    {
      var changed := true;
      while changed
        invariant Known(heap, Snapshot()) && gray == []
        invariant (if changed then Converge(heap, Snapshot()) else Snapshot()) == Converge(heap, old(Snapshot()))
        decreases changed, |Whites(heap, Snapshot())|
      {
        ghost var s := Snapshot();
        changed := VisitTables();
        if changed { FewerWhites(heap, s, Snapshot()); }
      }
    }

    /** One round over the ephemeron list. */
    method VisitTables() returns (changed: bool)
      requires NoDangling(heap) && Known(heap, Snapshot()) && gray == []
      modifies this`marked, this`gray, this`ephemeron, this`allweak
      ensures Round(Snapshot(), changed) == OneRound(heap, old(Snapshot()))
    {
      var next := ephemeron;
      ephemeron, changed := [], false;
      while next != []
        invariant Known(heap, Snapshot()) && TablesOnly(heap, next) && gray == []
        invariant VisitAll(heap, next, Round(Snapshot(), changed)) == OneRound(heap, old(Snapshot()))
        decreases |next|
      {
        ghost var r := Round(Snapshot(), changed);
        VisitOneOk(heap, next, r);
        VisitTableVisited(heap, r.s, next[0]);
        var w := next[0];
        next := next[1..];
        var traced := TraverseEphemeron(w);
        if traced {
          PropagateGray();
          changed := true;
        }
        assert Round(Snapshot(), changed) == VisitOne(heap, w, r);
      }
    }

    /** clearkeys over the tables `l`. */
    method ClearTables(l: seq<Ref>)
      requires NoDangling(heap) && TablesOnly(heap, l)
      modifies this`heap, this`marked, this`gray
      ensures Store(heap, Snapshot()) == ClearKeys(Store(old(heap), old(Snapshot())), l)
    {
      ghost var start := Store(heap, Snapshot());
      for i := 0 to |l|
        invariant NoDangling(heap) && TablesOnly(heap, l[i..])
        invariant ephemeron == old(ephemeron) && allweak == old(allweak)
        invariant ClearKeys(Store(heap, Snapshot()), l[i..]) == ClearKeys(start, l)
      {
        assert l[i..][1..] == l[i + 1..] && l[i] in l[i..];
        ClearTableOk(Store(heap, Snapshot()), l[i..]);
        ClearOne(l[i]);
      }
    }

    method ClearOne(h: Ref)
      requires NoDangling(heap) && h in heap && heap[h].Ephemeron?
      modifies this`heap, this`marked, this`gray
      ensures Store(heap, Snapshot()) == ClearTable(Store(old(heap), old(Snapshot())), h)
    {
      var entries, done: seq<Entry> := heap[h].entries, [];
      ghost var all := ClearEntries(heap, Snapshot(), entries, []);
      for i := 0 to |entries|
        invariant heap == old(heap) && ephemeron == old(ephemeron) && allweak == old(allweak)
        invariant ClearEntries(heap, Snapshot(), entries[i..], done) == all
      {
        assert entries[i..][1..] == entries[i + 1..];
        var e := entries[i];
        if !e.value.Nil? {
          var cleared := KeyCleared(e.key);
          if cleared { e := Entry(e.key, Nil); }
        }
        done := done + [e];
      }
      heap := heap[h := heap[h].(entries := done)];
    }

    /** separatetobefnz and markbeingfnz (lgc.c:877-892, 299-303). */
    method MarkDue(finobj: seq<Value>, tobefnz: seq<Value>)
      requires NoDangling(heap) && AllInHeap(heap, finobj) && AllInHeap(heap, tobefnz)
      modifies this`marked, this`gray
      ensures Snapshot() == MarkAll(heap, old(Snapshot()), tobefnz + Unreached(old(Snapshot()), finobj))
    {
      var due := tobefnz;
      for i := 0 to |finobj|
        invariant due + Unreached(Snapshot(), finobj[i..]) == tobefnz + Unreached(Snapshot(), finobj)
        invariant Snapshot() == old(Snapshot())
        invariant AllInHeap(heap, due)
      {
        assert finobj[i..][0] == finobj[i] && finobj[i..][1..] == finobj[i + 1..] && finobj[i] in finobj;
        if finobj[i].Object? && finobj[i].ref !in marked {
          MoreDue(due, finobj[i], Unreached(Snapshot(), finobj[i + 1..]));
          due := due + [finobj[i]];
        }
      }
      assert due + Unreached(Snapshot(), finobj[|finobj|..]) == due;
      MarkValues(due);
    }

    /** atomic (lgc.c:979-1023), without tables with weak values, from a heap in which nothing is marked. */
    method Atomic(roots: seq<Value>, finobj: seq<Value>, tobefnz: seq<Value>)
      requires NoDangling(heap) && AllInHeap(heap, roots) && AllInHeap(heap, finobj) && AllInHeap(heap, tobefnz)
      requires Snapshot() == UNMARKED
      modifies this
      ensures Store(heap, Snapshot()) == AtomicStep(old(heap), roots, finobj, tobefnz)
    {
      StrongExact(heap, roots);
      ResurrectedExact(heap, roots, finobj, tobefnz);
      MarkRoots(roots);
      MarkFinalizers(finobj, tobefnz);
      var l := ephemeron;
      ClearWaiting(heap, Snapshot());
      ClearTables(l);
      ClearTables(allweak);
    }

    method MarkRoots(roots: seq<Value>)
      requires NoDangling(heap) && AllInHeap(heap, roots) && Known(heap, Snapshot())
      modifies this`marked, this`gray, this`ephemeron, this`allweak
      ensures Snapshot() == MarkFrom(heap, old(Snapshot()), roots)
    {
      MarkAllMarked(heap, Snapshot(), roots);
      MarkValues(roots);
      PropagateGray();
      ConvergeEphemerons();
    }

    method MarkFinalizers(finobj: seq<Value>, tobefnz: seq<Value>)
      requires NoDangling(heap) && AllInHeap(heap, finobj) && AllInHeap(heap, tobefnz) && Known(heap, Snapshot())
      modifies this`marked, this`gray, this`ephemeron, this`allweak
      ensures Snapshot() == MarkFrom(heap, old(Snapshot()), tobefnz + Unreached(old(Snapshot()), finobj))
    {
      MarkAllMarked(heap, Snapshot(), tobefnz + Unreached(Snapshot(), finobj));
      MarkDue(finobj, tobefnz);
      PropagateGray();
      ConvergeEphemerons();
    }
  }

  lemma MoreDue(due: seq<Value>, v: Value, rest: seq<Value>)
    ensures (due + [v]) + rest == due + ([v] + rest)
  {
  }
}
