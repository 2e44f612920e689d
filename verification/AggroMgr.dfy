/** The aggro list (AggroMgr.h, Entry.h): a vector sorted on demand that stands for a map from
    characters to their aggro.  Floats are modelled as reals. */
module AggroMgr {
  import opened Wrappers

  datatype Reduction = DISABLED | RATIO(perSecond: real, minAggro: real) | VALUE(perSecond: real)

  datatype Entry = Entry(id: int, aggro: real, reduction: Reduction)

  const CUT_OFF := 0.000001
  const SAME := 0.0000001

  // ---------- entries ----------

  function Seconds(millis: int): real {
    millis as real / 1000.0
  }

  /** How much of `rate` per second a step takes. */
  function Taken(millis: int, rate: real): real {
    Seconds(millis) * rate
  }

  /** Entry::reduceByRatio, without its cut-off. */
  function Rest(aggro: real, ratio: real): real {
    aggro * (1.0 - ratio)
  }

  /** Entry::reduceByTime. */
  function Reduced(e: Entry, millis: int): Entry {
    match e.reduction
    case DISABLED => e
    case RATIO(perSecond, minAggro) =>
      var a := Rest(e.aggro, Taken(millis, perSecond));
      e.(aggro := if a < minAggro then 0.0 else a)
    case VALUE(perSecond) =>
      var a := e.aggro - Taken(millis, perSecond);
      e.(aggro := Cut(a))
  }

  /** Entry::reduceByValue cuts off what is nearly nothing. */
  function Cut(a: real): real {
    if a < CUT_OFF then 0.0 else a
  }

  /** What a step of `millis` milliseconds leaves, in numbers.  An entry that is reduced by a value loses a
      thousandth of it per millisecond and counts as nothing below a millionth; one that is reduced by a ratio
      loses that part of its aggro, and everything below its minimum. */
  lemma ReducedInNumbers(e: Entry, millis: int)
    ensures var r := Reduced(e, millis);
      && r.id == e.id && r.reduction == e.reduction
      && match e.reduction
         case DISABLED => r == e
         case VALUE(perSecond) =>
           var left := e.aggro - millis as real * (perSecond / 1000.0);
           r.aggro == if left * 1000000.0 < 1.0 then 0.0 else left
         case RATIO(perSecond, minAggro) =>
           var left := e.aggro - e.aggro * (millis as real * (perSecond / 1000.0));
           r.aggro == if left < minAggro then 0.0 else left
  {
    match e.reduction
    case DISABLED =>
    case VALUE(perSecond) => TakenInNumbers(millis, perSecond);
    case RATIO(perSecond, minAggro) =>
      TakenInNumbers(millis, perSecond);
      RestInNumbers(e.aggro, Taken(millis, perSecond));
  }

  lemma TakenInNumbers(millis: int, rate: real)
    ensures Taken(millis, rate) == millis as real * (rate / 1000.0)
  {
  }

  lemma RestInNumbers(aggro: real, ratio: real)
    ensures Rest(aggro, ratio) == aggro - aggro * ratio
  {
  }

  function ReduceAll(es: seq<Entry>, millis: int): seq<Entry> {
    if es == [] then [] else [Reduced(es[0], millis)] + ReduceAll(es[1..], millis)
  }

  lemma {:induction false} ReduceAllAt(es: seq<Entry>, millis: int)
    ensures |ReduceAll(es, millis)| == |es|
    ensures forall i :: 0 <= i < |es| ==> ReduceAll(es, millis)[i] == Reduced(es[i], millis)
  {
    if es != [] { ReduceAllAt(es[1..], millis); }
  }

  /** `x` is what becomes of one of the entries. */
  ghost predicate From(es: seq<Entry>, millis: int, x: Entry) {
    exists e :: e in es && Reduced(e, millis) == x
  }

  lemma {:induction false} InReduceAll(es: seq<Entry>, millis: int, x: Entry)
    ensures x in ReduceAll(es, millis) <==> From(es, millis, x)
  {
    if es != [] {
      InReduceAll(es[1..], millis, x);
      var rest := ReduceAll(es[1..], millis);
      assert x in ReduceAll(es, millis) <==> x == Reduced(es[0], millis) || x in rest;
      if x == Reduced(es[0], millis) { assert es[0] in es; }
    }
  }

  /** EntrySorter. */
  predicate EntrySorter(a: Entry, b: Entry) {
    if a.aggro > b.aggro then false
    else if -SAME < a.aggro - b.aggro < SAME then a.id < b.id
    else true
  }

  /** EntrySorter puts `a` first if it has less aggro, and goes by the ids below a difference of 0.0000001. */
  lemma SorterInNumbers(a: Entry, b: Entry)
    ensures EntrySorter(a, b) <==>
            a.aggro <= b.aggro && ((b.aggro - a.aggro) * 10000000.0 >= 1.0 || a.id < b.id)
  {
  }

  /** The order the list is meant to have. */
  predicate Less(a: Entry, b: Entry) {
    a.aggro < b.aggro || (a.aggro == b.aggro && a.id < b.id)
  }

  predicate DistinctIds(es: seq<Entry>) {
    forall i, j :: 0 <= i < j < |es| ==> es[i].id != es[j].id
  }

  /** `a` belongs before `b`, but the values are too close for EntrySorter, which goes by the ids. */
  predicate Confused(a: Entry, b: Entry) {
    a.aggro < b.aggro && b.aggro - a.aggro < SAME && a.id > b.id
  }

  /** EntrySorter is not confused about any two of the entries. */
  predicate InOrder(es: seq<Entry>) {
    forall a, b :: a in es && b in es ==> !Confused(a, b)
  }

  /** EntrySorter is the intended order on the entries. */
  ghost predicate SortsAsMeant(es: seq<Entry>) {
    forall a, b :: a in es && b in es ==> (EntrySorter(a, b) <==> Less(a, b))
  }

  lemma NotConfused(a: Entry, b: Entry)
    requires a == b || a.id != b.id
    ensures (EntrySorter(a, b) <==> Less(a, b)) <==> !Confused(a, b)
  {
  }

  /** Exactly then does EntrySorter sort as it is meant to. */
  lemma SortsAsMeantIff(es: seq<Entry>)
    requires DistinctIds(es)
    ensures SortsAsMeant(es) <==> InOrder(es)
  {
    forall a, b | a in es && b in es ensures (EntrySorter(a, b) <==> Less(a, b)) <==> !Confused(a, b) {
      SameOrOther(es, a, b);
      NotConfused(a, b);
    }
  }

  lemma SameOrOther(es: seq<Entry>, a: Entry, b: Entry)
    requires DistinctIds(es) && a in es && b in es
    ensures a == b || a.id != b.id
  {
    var i :| 0 <= i < |es| && es[i] == a;
    var j :| 0 <= j < |es| && es[j] == b;
    assert i != j ==> es[i].id != es[j].id;
  }

  /** Unequal aggro values are far enough apart for EntrySorter to tell them apart. */
  predicate Gap(es: seq<Entry>) {
    forall a, b :: a in es && b in es && a.aggro < b.aggro ==> b.aggro - a.aggro >= SAME
  }

  /** Values far enough apart are enough. */
  lemma GapSortsAsMeant(es: seq<Entry>)
    requires DistinctIds(es) && Gap(es)
    ensures SortsAsMeant(es)
  {
    SortsAsMeantIff(es);
  }

  predicate Tied(a: Entry, b: Entry) {
    !EntrySorter(a, b) && !EntrySorter(b, a)
  }

  /** EntrySorter is always a strict partial order.  What std::sort demands beyond that is that what it
      cannot tell apart, it does not tell apart through a third value either. */
  lemma StrictOrder(a: Entry, b: Entry, c: Entry)
    ensures !EntrySorter(a, a)
    ensures EntrySorter(a, b) && EntrySorter(b, c) ==> EntrySorter(a, c)
  {
  }

  ghost predicate WeakOrder(es: seq<Entry>) {
    forall a, b, c :: a in es && b in es && c in es && Tied(a, b) && Tied(b, c) ==> Tied(a, c)
  }

  lemma AsMeantIsWeakOrder(es: seq<Entry>)
    requires DistinctIds(es) && InOrder(es)
    ensures WeakOrder(es)
  {
    SortsAsMeantIff(es);
    forall a, b, c | a in es && b in es && c in es && Tied(a, b) && Tied(b, c) ensures Tied(a, c) {
      SameOrOther(es, a, b);
      SameOrOther(es, b, c);
      assert a == b == c;
    }
  }

  /** Two confused entries are tied, so std::sort may leave them in either order. */
  lemma ConfusedIsTied(a: Entry, b: Entry)
    requires Confused(a, b)
    ensures Tied(a, b) && Less(a, b)
  {
  }

  /** Three can be tied in a way that is no weak order, and then std::sort has no defined result. */
  lemma CanFailWeakOrder()
    ensures var es := [Entry(3, 1.0, DISABLED), Entry(2, 1.00000006, DISABLED), Entry(1, 1.00000012, DISABLED)];
            DistinctIds(es) && !WeakOrder(es)
  {
    var a, b, c := Entry(3, 1.0, DISABLED), Entry(2, 1.00000006, DISABLED), Entry(1, 1.00000012, DISABLED);
    var es := [a, b, c];
    assert a in es && b in es && c in es;
    assert Tied(a, b) && Tied(b, c) && !Tied(a, c);
  }

  // ---------- sorting ----------

  ghost predicate Sorted(es: seq<Entry>) {
    forall i, j :: 0 <= i < j < |es| ==> Less(es[i], es[j])
  }

  /** std::sort with EntrySorter; any algorithm gives this result (see SortedUnique). */
  function Insert(e: Entry, es: seq<Entry>): seq<Entry> {
    if es == [] || EntrySorter(e, es[0]) then [e] + es else [es[0]] + Insert(e, es[1..])
  }

  function Sort(es: seq<Entry>): seq<Entry> {
    if es == [] then [] else Insert(es[0], Sort(es[1..]))
  }

  lemma {:induction false} InsertMembers(e: Entry, es: seq<Entry>)
    ensures multiset(Insert(e, es)) == multiset{e} + multiset(es)
  {
    if !(es == [] || EntrySorter(e, es[0])) {
      InsertMembers(e, es[1..]);
      assert es == [es[0]] + es[1..];
    }
  }

  lemma {:induction false} SortMembers(es: seq<Entry>)
    ensures multiset(Sort(es)) == multiset(es)
  {
    if es != [] {
      SortMembers(es[1..]);
      InsertMembers(es[0], Sort(es[1..]));
      assert es == [es[0]] + es[1..];
    }
  }

  lemma MembersSame(a: seq<Entry>, b: seq<Entry>)
    requires multiset(a) == multiset(b)
    ensures forall e :: e in a <==> e in b
  {
    forall e ensures e in a <==> e in b {
      assert e in a <==> e in multiset(a);
      assert e in b <==> e in multiset(b);
    }
  }

  /** `e` can be told apart from every entry of `es`, in the intended order. */
  ghost predicate Apart(e: Entry, es: seq<Entry>) {
    forall x :: x in es ==> x.id != e.id && (EntrySorter(e, x) <==> Less(e, x))
  }

  lemma {:induction false} InsertSorted(e: Entry, es: seq<Entry>)
    requires Sorted(es) && Apart(e, es)
    ensures Sorted(Insert(e, es))
  {
    if es != [] {
      assert es[0] in es;
      if EntrySorter(e, es[0]) {
        LessThanAll(e, es);
      } else {
        var rest := Insert(e, es[1..]);
        InsertSorted(e, es[1..]);
        InsertMembers(e, es[1..]);
        assert Less(es[0], e);
        forall j | 0 <= j < |rest| ensures Less(es[0], rest[j]) {
          assert rest[j] in multiset(rest);
          assert rest[j] == e || rest[j] in es[1..];
        }
      }
    }
  }

  lemma LessThanAll(e: Entry, es: seq<Entry>)
    requires Sorted(es) && es != [] && Less(e, es[0])
    ensures Sorted([e] + es)
  {
    forall j | 0 <= j < |es| ensures Less(e, es[j]) {
      if j > 0 { assert Less(es[0], es[j]); }
    }
  }

  lemma {:induction false} SortSorted(es: seq<Entry>)
    requires DistinctIds(es) && InOrder(es)
    ensures Sorted(Sort(es))
  {
    if es != [] {
      assert es == [es[0]] + es[1..];
      SortSorted(es[1..]);
      SortMembers(es[1..]);
      MembersSame(Sort(es[1..]), es[1..]);
      forall x | x in Sort(es[1..]) ensures x.id != es[0].id && (EntrySorter(es[0], x) <==> Less(es[0], x)) {
        var i :| 0 <= i < |es[1..]| && es[1..][i] == x;
        assert es[i + 1] == x;
        NotConfused(es[0], x);
      }
      InsertSorted(es[0], Sort(es[1..]));
    }
  }

  /** There is only one sorted list of given entries, whatever algorithm made it. */
  lemma {:induction false} SortedUnique(a: seq<Entry>, b: seq<Entry>)
    requires Sorted(a) && Sorted(b) && forall e :: e in a <==> e in b
    ensures a == b
    decreases |a|
  {
    if a == [] {
      HasMember(b);
    } else {
      assert a[0] in a && a[0] in b;
      assert b[0] in b && b[0] in a;
      FirstIsLeast(a, b[0]);
      FirstIsLeast(b, a[0]);
      assert a[0] == b[0];
      forall e ensures e in a[1..] <==> e in b[1..] {
        RestMembers(a, e);
        RestMembers(b, e);
      }
      SortedUnique(a[1..], b[1..]);
      assert a == [a[0]] + a[1..] && b == [b[0]] + b[1..];
    }
  }

  lemma HasMember(b: seq<Entry>)
    ensures b != [] ==> exists e :: e in b
  {
    if b != [] { assert b[0] in b; }
  }

  lemma FirstIsLeast(a: seq<Entry>, e: Entry)
    requires Sorted(a) && e in a
    ensures e == a[0] || Less(a[0], e)
  {
  }

  lemma RestMembers(a: seq<Entry>, e: Entry)
    requires Sorted(a) && a != []
    ensures e in a[1..] <==> e in a && e != a[0]
  {
    if e in a && e != a[0] {
      var i :| 0 <= i < |a| && a[i] == e;
      assert a[1..][i - 1] == e;
    }
    if e in a[1..] {
      var i :| 0 <= i < |a[1..]| && a[1..][i] == e;
      assert Less(a[0], a[i + 1]);
    }
  }

  // ---------- the manager ----------

  datatype Manager = Manager(entries: seq<Entry>, dirty: bool, reduction: Reduction)

  /** Ids are unique, and a clean list is sorted. */
  ghost predicate Valid(m: Manager) {
    DistinctIds(m.entries) && (!m.dirty ==> Sorted(m.entries))
  }

  /** cleanupList: drop entries from the front until one has aggro left. */
  function Cleanup(es: seq<Entry>): seq<Entry> {
    if es == [] || es[0].aggro > 0.0 then es else Cleanup(es[1..])
  }

  function Update(m: Manager, millis: int): Manager {
    var es := ReduceAll(m.entries, millis);
    if m.dirty || AnyReducing(m.entries) then m.(entries := Cleanup(Sort(es)), dirty := false)
    else m.(entries := es)
  }

  predicate AnyReducing(es: seq<Entry>) {
    exists e :: e in es && e.reduction != DISABLED
  }

  function IndexOf(es: seq<Entry>, id: int): (r: Option<nat>)
    ensures r.Some? ==> r.value < |es| && es[r.value].id == id && forall j :: 0 <= j < r.value ==> es[j].id != id
    ensures r.None? ==> forall j :: 0 <= j < |es| ==> es[j].id != id
  {
    if es == [] then None
    else if es[0].id == id then Some(0)
    else
      match IndexOf(es[1..], id)
      case None => None
      case Some(i) => Some(i + 1)
  }

  function AddAggro(m: Manager, id: int, amount: real): Manager {
    match IndexOf(m.entries, id)
    case None => m.(entries := m.entries + [Entry(id, amount, m.reduction)], dirty := true)
    case Some(i) =>
      m.(entries := m.entries[i := m.entries[i].(aggro := m.entries[i].aggro + amount)], dirty := true)
  }

  function SortIfDirty(m: Manager): Manager {
    if m.dirty then m.(entries := Sort(m.entries), dirty := false) else m
  }

  // ---------- the map it stands for ----------

  /** The entry of a character, if it has one. */
  ghost predicate Holds(m: Manager, e: Entry) {
    e in m.entries
  }

  lemma AddAggroExact(m: Manager, id: int, amount: real)
    requires Valid(m)
    ensures Valid(AddAggro(m, id, amount))
    ensures forall e: Entry :: e.id != id ==> (Holds(AddAggro(m, id, amount), e) <==> Holds(m, e))
    ensures forall e: Entry :: e.id == id && Holds(m, e) ==>
              Holds(AddAggro(m, id, amount), e.(aggro := e.aggro + amount))
    ensures (forall e :: Holds(m, e) ==> e.id != id) ==> Holds(AddAggro(m, id, amount), Entry(id, amount, m.reduction))
  {
    var n := AddAggro(m, id, amount);
    match IndexOf(m.entries, id) {
      case None =>
        assert n.entries[|m.entries|] == Entry(id, amount, m.reduction);
      case Some(i) =>
        assert m.entries[i] in m.entries;
        forall e: Entry | e.id != id ensures e in n.entries <==> e in m.entries {
          if e in m.entries {
            var j :| 0 <= j < |m.entries| && m.entries[j] == e;
            assert n.entries[j] == e;
          }
          if e in n.entries {
            var j :| 0 <= j < |n.entries| && n.entries[j] == e;
            assert m.entries[j] == e;
          }
        }
        forall e: Entry | e.id == id && e in m.entries ensures e.(aggro := e.aggro + amount) in n.entries {
          var j :| 0 <= j < |m.entries| && m.entries[j] == e;
          assert j == i;
          assert n.entries[i] == e.(aggro := e.aggro + amount);
        }
    }
  }

  lemma {:induction false} CleanupExact(es: seq<Entry>, e: Entry)
    requires Sorted(es)
    ensures Sorted(Cleanup(es))
    ensures e in Cleanup(es) <==> e in es && e.aggro > 0.0
  {
    if es != [] {
      if es[0].aggro > 0.0 {
        if e in es { FirstIsLeast(es, e); }
      } else {
        RestMembers(es, e);
        CleanupExact(es[1..], e);
      }
    }
  }

  lemma ReducedDistinct(es: seq<Entry>, millis: int)
    requires DistinctIds(es)
    ensures DistinctIds(ReduceAll(es, millis))
  {
    ReduceAllAt(es, millis);
  }

  lemma SortedDistinct(es: seq<Entry>, from: seq<Entry>)
    requires Sorted(es) && DistinctIds(from) && forall e :: e in es ==> e in from
    ensures DistinctIds(es)
  {
    forall i, j | 0 <= i < j < |es| ensures es[i].id != es[j].id {
      assert Less(es[i], es[j]) && es[i] in es && es[j] in es;
      var k :| 0 <= k < |from| && from[k] == es[i];
      var l :| 0 <= l < |from| && from[l] == es[j];
      assert k != l;
    }
  }

  lemma SortIfDirtyExact(m: Manager)
    requires Valid(m) && (m.dirty ==> InOrder(m.entries))
    ensures Valid(SortIfDirty(m)) && Sorted(SortIfDirty(m).entries)
    ensures forall e :: Holds(SortIfDirty(m), e) <==> Holds(m, e)
  {
    if m.dirty {
      SortSorted(m.entries);
      SortMembers(m.entries);
      MembersSame(Sort(m.entries), m.entries);
      SortedDistinct(Sort(m.entries), m.entries);
    }
  }

  /** EntrySorter is not confused where an update sorts. */
  predicate Sortable(m: Manager, millis: int) {
    m.dirty || AnyReducing(m.entries) ==> InOrder(ReduceAll(m.entries, millis))
  }

  /** An update that finds the list dirty, or holds a reducing entry, leaves exactly the reduced
      entries with aggro left, sorted; any other update changes nothing. */
  lemma UpdateExact(m: Manager, millis: int)
    requires Valid(m) && Sortable(m, millis)
    ensures Valid(Update(m, millis)) && !Update(m, millis).dirty && Sorted(Update(m, millis).entries)
    ensures forall e :: Holds(Update(m, millis), e) <==>
              From(m.entries, millis, e) && (m.dirty || AnyReducing(m.entries) ==> e.aggro > 0.0)
    ensures !m.dirty && !AnyReducing(m.entries) ==> Update(m, millis) == m
  {
    var es := ReduceAll(m.entries, millis);
    ReducedDistinct(m.entries, millis);
    forall e ensures e in es <==> From(m.entries, millis, e) {
      InReduceAll(m.entries, millis, e);
    }
    if m.dirty || AnyReducing(m.entries) {
      SortSorted(es);
      SortMembers(es);
      MembersSame(Sort(es), es);
      forall e ensures e in Cleanup(Sort(es)) <==> e in es && e.aggro > 0.0 {
        CleanupExact(Sort(es), e);
      }
      CleanupSorted(Sort(es));
      SortedDistinct(Cleanup(Sort(es)), es);
    } else {
      NothingReduced(m.entries, millis);
    }
  }

  lemma {:induction false} NothingReduced(es: seq<Entry>, millis: int)
    requires !AnyReducing(es)
    ensures ReduceAll(es, millis) == es
  {
    if es != [] {
      assert es[0] in es && es == [es[0]] + es[1..];
      NothingReduced(es[1..], millis);
    }
  }

  lemma CleanupSorted(es: seq<Entry>)
    requires Sorted(es)
    ensures Sorted(Cleanup(es))
  {
    CleanupExact(es, Entry(0, 0.0, DISABLED));
  }

  /** getHighestEntry returns the greatest entry by aggro, then by id. */
  lemma HighestExact(m: Manager)
    requires Valid(m) && m.entries != [] && (m.dirty ==> InOrder(m.entries))
    ensures var es := SortIfDirty(m).entries;
            && es != [] && Holds(m, es[|es| - 1])
            && forall e :: Holds(m, e) ==> e == es[|es| - 1] || Less(e, es[|es| - 1])
  {
    SortIfDirtyExact(m);
    var es := SortIfDirty(m).entries;
    assert Holds(m, m.entries[0]);
    assert m.entries[0] in es;
    assert es[|es| - 1] in es;
    forall e | e in es ensures e == es[|es| - 1] || Less(e, es[|es| - 1]) {
      var i :| 0 <= i < |es| && es[i] == e;
    }
  }

  // ---------- splitting time ----------

  /** What a list that is cleaned after the step keeps of an entry. */
  function After(e: Entry, millis: int): Option<Entry> {
    if Reduced(e, millis).aggro > 0.0 then Some(Reduced(e, millis)) else None
  }

  function AfterTwo(e: Entry, a: int, b: int): Option<Entry> {
    match After(e, a)
    case None => None
    case Some(y) => After(y, b)
  }

  predicate Kept(aggro: real, minAggro: real) {
    aggro >= minAggro && aggro > 0.0
  }

  /** When two steps do to an entry what one does.  A VALUE reduction must not cut the entry off
      half-way unless the whole step cuts it off too.  A RATIO reduction takes its second ratio of what
      the first step left, so the results differ by the product of the two steps. */
  predicate Splits(e: Entry, a: int, b: int) {
    match e.reduction
    case DISABLED => true
    case VALUE(rate) => e.aggro - Taken(a, rate) >= CUT_OFF || e.aggro - Taken(a + b, rate) < CUT_OFF
    case RATIO(rate, minAggro) =>
      var x, y := Taken(a, rate), Taken(b, rate);
      SameRatio(Rest(e.aggro, x), Rest(Rest(e.aggro, x), y), Rest(e.aggro, x + y), e.aggro * x * y, minAggro)
  }

  /** Without a cut-off the two steps leave `both`, the one step `whole`, which is less by `product`. */
  predicate SameRatio(first: real, both: real, whole: real, product: real, minAggro: real) {
    if Kept(first, minAggro) && Kept(both, minAggro) then Kept(whole, minAggro) && product == 0.0
    else !Kept(whole, minAggro)
  }

  lemma TakenAdd(a: int, b: int, rate: real)
    ensures Taken(a + b, rate) == Taken(a, rate) + Taken(b, rate)
  {
    assert Seconds(a + b) == Seconds(a) + Seconds(b);
  }

  lemma TakenSign(b: int, rate: real)
    ensures b >= 0 && rate >= 0.0 ==> Taken(b, rate) >= 0.0
    ensures b > 0 && rate > 0.0 ==> Taken(b, rate) > 0.0
  {
    if b >= 0 { assert Seconds(b) >= 0.0; }
    if b > 0 { assert Seconds(b) > 0.0; }
  }

  lemma RatioDifference(aggro: real, x: real, y: real)
    ensures Rest(Rest(aggro, x), y) - Rest(aggro, x + y) == aggro * x * y
  {
  }

  lemma AfterRatio(e: Entry, millis: int, a: real)
    requires e.reduction.RATIO? && a == Rest(e.aggro, Taken(millis, e.reduction.perSecond))
    ensures After(e, millis) == if Kept(a, e.reduction.minAggro) then Some(e.(aggro := a)) else None
  {
    assert Reduced(e, millis) == e.(aggro := if a < e.reduction.minAggro then 0.0 else a);
  }

  lemma AfterTwoRatios(e: Entry, a: int, b: int, first: real, both: real)
    requires e.reduction.RATIO? && first == Rest(e.aggro, Taken(a, e.reduction.perSecond))
    requires both == Rest(first, Taken(b, e.reduction.perSecond))
    ensures AfterTwo(e, a, b) == if Kept(first, e.reduction.minAggro) && Kept(both, e.reduction.minAggro)
                                 then Some(e.(aggro := both)) else None
  {
    AfterRatio(e, a, first);
    AfterRatio(e.(aggro := first), b, both);
  }

  lemma AfterValue(e: Entry, millis: int, a: real)
    requires e.reduction.VALUE? && a == e.aggro - Taken(millis, e.reduction.perSecond)
    ensures After(e, millis) == if a >= CUT_OFF then Some(e.(aggro := a)) else None
  {
    assert Reduced(e, millis) == e.(aggro := Cut(a));
  }

  lemma AfterTwoValues(e: Entry, a: int, b: int, first: real, both: real)
    requires e.reduction.VALUE? && first == e.aggro - Taken(a, e.reduction.perSecond)
    requires both == first - Taken(b, e.reduction.perSecond)
    ensures AfterTwo(e, a, b) == if first >= CUT_OFF && both >= CUT_OFF then Some(e.(aggro := both)) else None
  {
    AfterValue(e, a, first);
    AfterValue(e.(aggro := first), b, both);
  }

  lemma ValueSplits(e: Entry, a: int, b: int)
    requires e.reduction.VALUE?
    ensures AfterTwo(e, a, b) == After(e, a + b) <==> Splits(e, a, b)
  {
    var rate := e.reduction.perSecond;
    TakenAdd(a, b, rate);
    var first, whole := e.aggro - Taken(a, rate), e.aggro - Taken(a + b, rate);
    AfterTwoValues(e, a, b, first, whole);
    AfterValue(e, a + b, whole);
  }

  /** The two results of a RATIO reduction, before the cut-off. */
  lemma RatioParts(e: Entry, a: int, b: int) returns (first: real, both: real, whole: real)
    requires e.reduction.RATIO?
    ensures AfterTwo(e, a, b) == if Kept(first, e.reduction.minAggro) && Kept(both, e.reduction.minAggro)
                                 then Some(e.(aggro := both)) else None
    ensures After(e, a + b) == if Kept(whole, e.reduction.minAggro) then Some(e.(aggro := whole)) else None
    ensures var x, y := Taken(a, e.reduction.perSecond), Taken(b, e.reduction.perSecond);
            first == Rest(e.aggro, x) && both == Rest(Rest(e.aggro, x), y) && whole == Rest(e.aggro, x + y)
  {
    var x, y := Taken(a, e.reduction.perSecond), Taken(b, e.reduction.perSecond);
    first, both, whole := Rest(e.aggro, x), Rest(Rest(e.aggro, x), y), Rest(e.aggro, x + y);
    AfterTwoRatios(e, a, b, first, both);
    TakenAdd(a, b, e.reduction.perSecond);
    AfterRatio(e, a + b, whole);
  }

  lemma RatioSplits(e: Entry, a: int, b: int)
    requires e.reduction.RATIO?
    ensures AfterTwo(e, a, b) == After(e, a + b) <==> Splits(e, a, b)
  {
    var first, both, whole := RatioParts(e, a, b);
    RatioDifference(e.aggro, Taken(a, e.reduction.perSecond), Taken(b, e.reduction.perSecond));
    SameAggro(e, both, whole);
  }

  lemma SameAggro(e: Entry, a: real, b: real)
    ensures e.(aggro := a) == e.(aggro := b) <==> a - b == 0.0
  {
    assert e.(aggro := a).aggro == a && e.(aggro := b).aggro == b;
  }

  /** For every kind of reduction, and any times: two steps keep what one step keeps exactly then. */
  lemma SplitsIff(e: Entry, a: int, b: int)
    ensures AfterTwo(e, a, b) == After(e, a + b) <==> Splits(e, a, b)
  {
    match e.reduction {
      case DISABLED =>
      case VALUE(_) => ValueSplits(e, a, b);
      case RATIO(_, _) => RatioSplits(e, a, b);
    }
  }

  /** No reduction, or by a value per second that is not negative: it always splits. */
  lemma SteadySplits(e: Entry, a: int, b: int)
    requires e.reduction == DISABLED || (e.reduction.VALUE? && e.reduction.perSecond >= 0.0)
    requires b >= 0
    ensures Splits(e, a, b)
  {
    if e.reduction.VALUE? {
      TakenAdd(a, b, e.reduction.perSecond);
      TakenSign(b, e.reduction.perSecond);
    }
  }

  /** A RATIO reduction that takes something in both steps splits only if nothing is left after them:
      otherwise the two steps leave more than the one. */
  lemma RatioSplitsIff(e: Entry, a: int, b: int)
    requires e.reduction.RATIO? && e.reduction.perSecond > 0.0 && e.reduction.minAggro >= 0.0
    requires e.aggro > 0.0 && a > 0 && b > 0
    ensures Splits(e, a, b) <==> AfterTwo(e, a, b) == None
    ensures AfterTwo(e, a, b).Some? && After(e, a + b).Some? ==>
              AfterTwo(e, a, b).value.aggro > After(e, a + b).value.aggro
  {
    var x, y := Taken(a, e.reduction.perSecond), Taken(b, e.reduction.perSecond);
    TakenSign(a, e.reduction.perSecond);
    TakenSign(b, e.reduction.perSecond);
    var first, both, whole := RatioParts(e, a, b);
    ProductPositive(e.aggro, x, y);
    RatioDifference(e.aggro, x, y);
    RatioShrinks(e.aggro, x, y);
    LessRatio(first, both, whole, e.aggro * x * y, e.reduction.minAggro);
  }

  lemma LessRatio(first: real, both: real, whole: real, product: real, minAggro: real)
    requires product > 0.0 && both - whole == product && whole < first && minAggro >= 0.0
    ensures SameRatio(first, both, whole, product, minAggro) <==> !(Kept(first, minAggro) && Kept(both, minAggro))
  {
  }

  lemma ProductPositive(aggro: real, x: real, y: real)
    requires aggro > 0.0 && x > 0.0 && y > 0.0
    ensures aggro * x * y > 0.0
  {
    assert aggro * x > 0.0;
  }

  /** The whole step leaves less than the first step. */
  lemma RatioShrinks(aggro: real, x: real, y: real)
    requires aggro > 0.0 && y > 0.0
    ensures Rest(aggro, x + y) < Rest(aggro, x)
  {
    assert Rest(aggro, x) - Rest(aggro, x + y) == aggro * y;
    assert aggro * y > 0.0;
  }

  predicate AllSplit(es: seq<Entry>, a: int, b: int) {
    forall e :: e in es ==> Splits(e, a, b)
  }

  function Elements(es: seq<Entry>): set<Entry> {
    set e | e in es
  }

  /** The reduced entries, without those that have no aggro left if `cleaned`. */
  function Remaining(es: seq<Entry>, millis: int, cleaned: bool): set<Entry> {
    set e | e in es && (cleaned ==> Reduced(e, millis).aggro > 0.0) :: Reduced(e, millis)
  }

  function RemainingTwice(es: seq<Entry>, a: int, b: int): set<Entry> {
    set e | e in es && AfterTwo(e, a, b).Some? :: AfterTwo(e, a, b).value
  }

  /** What UpdateExact says about the result `n` of an update. */
  ghost predicate IsUpdate(m: Manager, millis: int, n: Manager) {
    && Valid(n) && !n.dirty && Sorted(n.entries) && n.reduction == m.reduction
    && Elements(n.entries) == Remaining(m.entries, millis, m.dirty || AnyReducing(m.entries))
    && (!m.dirty && !AnyReducing(m.entries) ==> n == m)
  }

  lemma UpdateFacts(m: Manager, millis: int, n: Manager)
    requires Valid(m) && Sortable(m, millis) && n == Update(m, millis)
    ensures IsUpdate(m, millis, n)
  {
    UpdateExact(m, millis);
    forall x: Entry
      ensures x in Elements(n.entries) <==> x in Remaining(m.entries, millis, m.dirty || AnyReducing(m.entries))
    {
      assert Holds(n, x) <==> x in n.entries;
    }
  }

  /** Only entries with aggro left go into the second update, so that it keeps those with aggro left
      whether it cleans the list or not. */
  lemma SecondIsCleaned(es: seq<Entry>, a: int, first: seq<Entry>, b: int)
    requires Elements(first) == Remaining(es, a, true)
    ensures Remaining(first, b, AnyReducing(first)) == RemainingTwice(es, a, b)
  {
    forall x: Entry ensures x in Remaining(first, b, AnyReducing(first)) <==> x in RemainingTwice(es, a, b) {
      if x in Remaining(first, b, AnyReducing(first)) {
        var y :| y in first && Reduced(y, b) == x && (AnyReducing(first) ==> x.aggro > 0.0);
        assert y in Elements(first);
        var e :| e in es && Reduced(e, a) == y && y.aggro > 0.0;
        assert y.reduction != DISABLED ==> AnyReducing(first);
        assert AfterTwo(e, a, b) == Some(x);
      }
      if x in RemainingTwice(es, a, b) {
        var e :| e in es && AfterTwo(e, a, b) == Some(x);
        var y := Reduced(e, a);
        assert y in Remaining(es, a, true) && y in Elements(first);
      }
    }
  }

  lemma AfterKeepsId(e: Entry, a: int, b: int)
    ensures After(e, a).Some? ==> After(e, a).value.id == e.id
    ensures AfterTwo(e, a, b).Some? ==> AfterTwo(e, a, b).value.id == e.id
  {
  }

  /** Ids are unique, so the same entries remain only if the same remains of each. */
  lemma SameOfEach(es: seq<Entry>, a: int, b: int, e: Entry)
    requires DistinctIds(es) && e in es && RemainingTwice(es, a, b) == Remaining(es, a + b, true)
    ensures AfterTwo(e, a, b) == After(e, a + b)
  {
    var two, one := AfterTwo(e, a, b), After(e, a + b);
    AfterKeepsId(e, a, b);
    AfterKeepsId(e, a + b, b);
    if two.Some? {
      assert two.value in Remaining(es, a + b, true);
      var f :| f in es && Reduced(f, a + b) == two.value && two.value.aggro > 0.0;
      SameOrOther(es, e, f);
    } else if one.Some? {
      assert one.value in RemainingTwice(es, a, b);
      var f :| f in es && AfterTwo(f, a, b) == one;
      AfterKeepsId(f, a, b);
      SameOrOther(es, e, f);
    }
  }

  lemma RemainingSplit(es: seq<Entry>, a: int, b: int)
    requires DistinctIds(es)
    ensures RemainingTwice(es, a, b) == Remaining(es, a + b, true) <==> AllSplit(es, a, b)
  {
    if RemainingTwice(es, a, b) == Remaining(es, a + b, true) {
      forall e | e in es ensures Splits(e, a, b) {
        SameOfEach(es, a, b, e);
        SplitsIff(e, a, b);
      }
    }
    if AllSplit(es, a, b) {
      forall e | e in es ensures AfterTwo(e, a, b) == After(e, a + b) { SplitsIff(e, a, b); }
      SameRemaining(es, a, b);
    }
  }

  lemma SameRemaining(es: seq<Entry>, a: int, b: int)
    requires forall e :: e in es ==> AfterTwo(e, a, b) == After(e, a + b)
    ensures RemainingTwice(es, a, b) == Remaining(es, a + b, true)
  {
    forall x: Entry ensures x in RemainingTwice(es, a, b) <==> x in Remaining(es, a + b, true) {
      if x in RemainingTwice(es, a, b) {
        var e :| e in es && AfterTwo(e, a, b) == Some(x);
        assert After(e, a + b) == Some(x);
      }
      if x in Remaining(es, a + b, true) {
        var e :| e in es && Reduced(e, a + b) == x && x.aggro > 0.0;
        assert AfterTwo(e, a, b) == Some(x);
      }
    }
  }

  lemma SameElements(a: seq<Entry>, b: seq<Entry>)
    requires Sorted(a) && Sorted(b)
    ensures a == b <==> Elements(a) == Elements(b)
  {
    if Elements(a) == Elements(b) {
      forall e: Entry ensures e in a <==> e in b {
        assert e in Elements(a) <==> e in Elements(b);
      }
      SortedUnique(a, b);
    }
  }

  lemma NothingSplits(es: seq<Entry>, a: int, b: int)
    requires !AnyReducing(es)
    ensures AllSplit(es, a, b)
  {
  }

  lemma UpdatesSplit(m: Manager, a: int, b: int, first: Manager, twice: Manager, once: Manager)
    requires Valid(m) && IsUpdate(m, a, first) && IsUpdate(first, b, twice) && IsUpdate(m, a + b, once)
    ensures twice == once <==> AllSplit(m.entries, a, b)
  {
    if m.dirty || AnyReducing(m.entries) {
      SecondIsCleaned(m.entries, a, first.entries, b);
      RemainingSplit(m.entries, a, b);
      SameElements(twice.entries, once.entries);
    } else {
      NothingSplits(m.entries, a, b);
    }
  }

  /** Two updates leave the same list as one over the whole time, dropped entries included, exactly if
      every entry splits. */
  lemma TimeSplits(m: Manager, a: int, b: int, first: Manager)
    requires Valid(m) && first == Update(m, a)
    requires Sortable(m, a) && Sortable(first, b) && Sortable(m, a + b)
    ensures Update(first, b) == Update(m, a + b) <==> AllSplit(m.entries, a, b)
  {
    UpdateFacts(m, a, first);
    UpdateFacts(m, a + b, Update(m, a + b));
    UpdateFacts(first, b, Update(first, b));
    UpdatesSplit(m, a, b, first, Update(first, b), Update(m, a + b));
  }

  // ---------- whole runs, against a map ----------

  datatype Event = Add(id: int, amount: real) | UpdateAll(millis: int) | Highest | SetDefault(reduction: Reduction)

  function Step(m: Manager, e: Event): Manager {
    match e
    case Add(id, amount) => AddAggro(m, id, amount)
    case UpdateAll(millis) => Update(m, millis)
    case Highest => SortIfDirty(m)
    case SetDefault(r) => m.(reduction := r)
  }

  /** What the list stands for: the entry of each character, and whether the next update is to look at
      entries that do not reduce. */
  datatype Table = Table(entries: map<int, Entry>, dirty: bool, reduction: Reduction)

  function StepTable(t: Table, e: Event): Table {
    match e
    case Add(id, amount) =>
      var entry :=
        if id in t.entries then t.entries[id].(aggro := t.entries[id].aggro + amount)
        else Entry(id, amount, t.reduction);
      t.(entries := t.entries[id := entry], dirty := true)
    case UpdateAll(millis) =>
      if t.dirty || exists id :: id in t.entries && t.entries[id].reduction != DISABLED
      then t.(entries := map id | id in t.entries && After(t.entries[id], millis).Some? ::
                           Reduced(t.entries[id], millis),
              dirty := false)
      else t
    case Highest => t.(dirty := false)
    case SetDefault(r) => t.(reduction := r)
  }

  function Run(m: Manager, es: seq<Event>): Manager
    decreases |es|
  {
    if es == [] then m else Run(Step(m, es[0]), es[1..])
  }

  function RunTable(t: Table, es: seq<Event>): Table
    decreases |es|
  {
    if es == [] then t else RunTable(StepTable(t, es[0]), es[1..])
  }

  /** EntrySorter is not confused where the call sorts. */
  predicate Allowed(m: Manager, e: Event) {
    match e
    case UpdateAll(millis) => Sortable(m, millis)
    case Highest => m.dirty ==> InOrder(m.entries)
    case _ => true
  }

  predicate AllAllowed(m: Manager, es: seq<Event>)
    decreases |es|
  {
    es == [] || (Allowed(m, es[0]) && AllAllowed(Step(m, es[0]), es[1..]))
  }

  ghost predicate SameEntries(es: seq<Entry>, t: map<int, Entry>) {
    && (forall e: Entry :: e in es <==> e.id in t && t[e.id] == e)
    && (forall id :: id in t ==> t[id].id == id)
  }

  ghost predicate Represents(m: Manager, t: Table) {
    SameEntries(m.entries, t.entries) && m.dirty == t.dirty && m.reduction == t.reduction
  }

  lemma AddRefines(m: Manager, t: Table, id: int, amount: real)
    requires Valid(m) && Represents(m, t)
    ensures Valid(AddAggro(m, id, amount)) && Represents(AddAggro(m, id, amount), StepTable(t, Add(id, amount)))
  {
    AddAggroExact(m, id, amount);
    var n, u := AddAggro(m, id, amount), StepTable(t, Add(id, amount));
    assert id in t.entries <==> t.entries.Keys * {id} == {id};
    if id in t.entries {
      assert Holds(m, t.entries[id]);
    }
    assert Holds(n, u.entries[id]);
    forall e: Entry ensures e in n.entries <==> e.id in u.entries && u.entries[e.id] == e {
      assert Holds(n, e) <==> e in n.entries;
      assert Holds(m, e) <==> e in m.entries;
      if e.id == id && e in n.entries { SameOrOther(n.entries, e, u.entries[id]); }
    }
  }

  lemma ReducingSame(es: seq<Entry>, t: map<int, Entry>)
    requires SameEntries(es, t)
    ensures AnyReducing(es) <==> exists id :: id in t && t[id].reduction != DISABLED
  {
    if e :| e in es && e.reduction != DISABLED { assert t[e.id] == e; }
    if id :| id in t && t[id].reduction != DISABLED { assert t[id] in es; }
  }

  lemma UpdateRefines(m: Manager, t: Table, millis: int)
    requires Valid(m) && Sortable(m, millis) && Represents(m, t)
    ensures Valid(Update(m, millis)) && Represents(Update(m, millis), StepTable(t, UpdateAll(millis)))
  {
    UpdateFacts(m, millis, Update(m, millis));
    UpdateSame(m, t, millis, Update(m, millis));
  }

  lemma UpdateSame(m: Manager, t: Table, millis: int, n: Manager)
    requires Represents(m, t) && IsUpdate(m, millis, n)
    ensures Represents(n, StepTable(t, UpdateAll(millis)))
  {
    ReducingSame(m.entries, t.entries);
    if m.dirty || AnyReducing(m.entries) {
      CleanedSame(m.entries, t.entries, millis, n.entries, StepTable(t, UpdateAll(millis)).entries);
    }
  }

  lemma CleanedSame(es: seq<Entry>, t: map<int, Entry>, millis: int, left: seq<Entry>, u: map<int, Entry>)
    requires SameEntries(es, t) && Elements(left) == Remaining(es, millis, true)
    requires u == map id | id in t && After(t[id], millis).Some? :: Reduced(t[id], millis)
    ensures SameEntries(left, u)
  {
    forall x: Entry ensures x in left <==> x.id in u && u[x.id] == x {
      assert x in left <==> x in Remaining(es, millis, true) by { assert x in left <==> x in Elements(left); }
      if x in left {
        var e :| e in es && Reduced(e, millis) == x && x.aggro > 0.0;
        assert t[e.id] == e;
      }
      if x.id in u && u[x.id] == x {
        assert t[x.id] in es && After(t[x.id], millis) == Some(x);
      }
    }
  }

  lemma StepRefines(m: Manager, t: Table, e: Event)
    requires Valid(m) && Allowed(m, e) && Represents(m, t)
    ensures Valid(Step(m, e)) && Represents(Step(m, e), StepTable(t, e))
  {
    match e
    case Add(id, amount) => AddRefines(m, t, id, amount);
    case UpdateAll(millis) => UpdateRefines(m, t, millis);
    case Highest =>
      SortIfDirtyExact(m);
      forall x: Entry ensures x in SortIfDirty(m).entries <==> x in m.entries {
        assert Holds(SortIfDirty(m), x) <==> Holds(m, x);
      }
    case SetDefault(r) =>
  }

  lemma {:induction false} RunRefines(m: Manager, t: Table, es: seq<Event>)
    requires Valid(m) && AllAllowed(m, es) && Represents(m, t)
    ensures Valid(Run(m, es)) && Represents(Run(m, es), RunTable(t, es))
    decreases |es|
  {
    if es != [] {
      StepRefines(m, t, es[0]);
      RunRefines(Step(m, es[0]), StepTable(t, es[0]), es[1..]);
    }
  }

  /** Over any run the list is the map: each character has the one entry the map gives it, and the entry
      that getHighestEntry returns next is the greatest of the map. */
  lemma MapExact(es: seq<Event>, e: Entry)
    requires AllAllowed(Manager([], false, DISABLED), es)
    ensures var m, t := Run(Manager([], false, DISABLED), es), RunTable(Table(map[], false, DISABLED), es);
            && Valid(m)
            && (e in m.entries <==> e.id in t.entries && t.entries[e.id] == e)
            && (m.entries != [] && Allowed(m, Highest) ==>
                 var sorted := Step(m, Highest).entries;
                 && sorted != []
                 && (e == sorted[|sorted| - 1] <==>
                       e.id in t.entries && t.entries[e.id] == e
                       && forall id :: id in t.entries && id != e.id ==> Less(t.entries[id], e)))
  {
    var m, t := Run(Manager([], false, DISABLED), es), RunTable(Table(map[], false, DISABLED), es);
    RunRefines(Manager([], false, DISABLED), Table(map[], false, DISABLED), es);
    if m.entries != [] && Allowed(m, Highest) {
      HighestExact(m);
      var top := SortIfDirty(m).entries[|SortIfDirty(m).entries| - 1];
      assert Holds(m, top);
      forall id | id in t.entries && id != top.id ensures Less(t.entries[id], top) {
        assert Holds(m, t.entries[id]);
      }
      if e.id in t.entries && t.entries[e.id] == e && e != top {
        assert top.id != e.id;
        assert t.entries[top.id] == top && Less(e, top);
      }
    }
  }

  // ---------- the code ----------

  class List {
    var entries: seq<Entry>
    var dirty: bool
    var reduction: Reduction

    ghost function Snapshot(): Manager
      reads this
    {
      Manager(entries, dirty, reduction)
    }

    constructor ()
      ensures Snapshot() == Manager([], false, DISABLED) && Valid(Snapshot())
    {
      entries, dirty, reduction := [], false, DISABLED;
    }

    method SetReduction(r: Reduction)
      modifies this`reduction
      ensures reduction == r
    {
      reduction := r;
    }

    /** Returns where the entry is that was added or updated. */
    method Add(id: int, amount: real) returns (i: nat)
      requires Valid(Snapshot())
      modifies this
      ensures Snapshot() == AddAggro(old(Snapshot()), id, amount) && Valid(Snapshot())
      ensures i < |entries| && entries[i].id == id
    {
      AddAggroExact(Snapshot(), id, amount);
      i := 0;
      while i < |entries| && entries[i].id != id
        invariant i <= |entries| && forall j :: 0 <= j < i ==> entries[j].id != id
      {
        i := i + 1;
      }
      if i == |entries| {
        entries := entries + [Entry(id, amount, reduction)];
      } else {
        entries := entries[i := entries[i].(aggro := entries[i].aggro + amount)];
      }
      dirty := true;
    }

    method UpdateTime(millis: int)
      requires Valid(Snapshot()) && Sortable(Snapshot(), millis)
      modifies this
      ensures Snapshot() == Update(old(Snapshot()), millis) && Valid(Snapshot())
    {
      UpdateExact(Snapshot(), millis);
      ReduceEntries(millis);
      if dirty {
        entries := Sort(entries);
        dirty := false;
        CleanupList();
      }
    }

    method ReduceEntries(millis: int)
      modifies this`entries, this`dirty
      ensures entries == ReduceAll(old(entries), millis)
      ensures dirty <==> old(dirty) || AnyReducing(old(entries))
    {
      ghost var before := entries;
      var i := 0;
      while i < |entries|
        invariant i <= |entries| == |before|
        invariant forall j :: 0 <= j < i ==> entries[j] == Reduced(before[j], millis)
        invariant forall j :: i <= j < |entries| ==> entries[j] == before[j]
        invariant dirty <==> old(dirty) || AnyReducing(before[..i])
      {
        ReducingSoFar(before, i);
        dirty := dirty || entries[i].reduction != DISABLED;
        entries := entries[i := Reduced(entries[i], millis)];
        i := i + 1;
      }
      ReduceAllAt(before, millis);
      assert before[..i] == before;
    }

    method CleanupList()
      modifies this`entries
      ensures entries == Cleanup(old(entries))
    {
      var remove := 0;
      while remove < |entries| && entries[remove].aggro <= 0.0
        invariant remove <= |entries| && entries == old(entries)
        invariant Cleanup(entries[remove..]) == Cleanup(entries)
      {
        assert entries[remove..][1..] == entries[remove + 1..];
        remove := remove + 1;
      }
      entries := entries[remove..];
    }

    method GetHighestEntry() returns (e: Option<Entry>)
      requires Valid(Snapshot()) && (dirty ==> InOrder(entries))
      modifies this
      ensures old(entries) == [] ==> e == None && Snapshot() == old(Snapshot())
      ensures old(entries) != [] ==> e.Some? && e.value in old(entries) && Snapshot() == SortIfDirty(old(Snapshot()))
      ensures forall x :: x in old(entries) ==> e.Some? && (x == e.value || Less(x, e.value))
      ensures Valid(Snapshot())
    {
      if entries == [] { return None; }
      HighestExact(Snapshot());
      SortIfDirtyExact(Snapshot());
      assert forall x :: x in entries ==> Holds(Snapshot(), x);
      if dirty {
        entries := Sort(entries);
        dirty := false;
      }
      e := Some(entries[|entries| - 1]);
    }
  }

  lemma ReducingSoFar(es: seq<Entry>, i: nat)
    requires i < |es|
    ensures AnyReducing(es[..i + 1]) <==> AnyReducing(es[..i]) || es[i].reduction != DISABLED
  {
    assert es[..i + 1] == es[..i] + [es[i]];
    assert es[i] in es[..i + 1];
  }
}
