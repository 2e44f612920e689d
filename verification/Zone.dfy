/** The tick of a zone (Zone.h): the scheduled additions, removals and destructions take effect
    before the tick, in that order; then the zone runs over the AIs it has. */
module Zone {
  import G = GroupMgr

  /** An AIPtr with the id of its character. */
  datatype AI = AI(self: G.AI, id: int)

  datatype State = State(ais: map<int, AI>, groups: G.Groups)

  /** doAddAI: an id that is taken stays with the AI that has it. */
  function AddOne(z: State, ai: AI): State {
    if ai.id in z.ais then z else z.(ais := z.ais[ai.id := ai])
  }

  /** doRemoveAI: the AI stored under the id leaves the zone and all its groups. */
  function RemoveOne(z: State, ai: AI, begin: G.Begin): State {
    if ai.id !in z.ais then z
    else State(z.ais - {ai.id}, G.RemoveEverywhere(z.groups, z.ais[ai.id].self, begin))
  }

  /** doDestroyAI: the AI leaves the zone only. */
  function DestroyOne(z: State, id: int): State {
    z.(ais := z.ais - {id})
  }

  function AddAll(z: State, l: seq<AI>): State
    decreases |l|
  {
    if l == [] then z else AddAll(AddOne(z, l[0]), l[1..])
  }

  function RemoveAll(z: State, l: seq<AI>, begin: G.Begin): State
    decreases |l|
  {
    if l == [] then z else RemoveAll(RemoveOne(z, l[0], begin), l[1..], begin)
  }

  function DestroyAll(z: State, l: seq<int>): State
    decreases |l|
  {
    if l == [] then z else DestroyAll(DestroyOne(z, l[0]), l[1..])
  }

  function Applied(z: State, add: seq<AI>, remove: seq<AI>, destroy: seq<int>, begin: G.Begin): State {
    DestroyAll(RemoveAll(AddAll(z, add), remove, begin), destroy)
  }

  // ---------- what is in the zone afterwards ----------

  /** The first scheduled AI with the id. */
  predicate FirstWith(l: seq<AI>, ai: AI) {
    exists i :: 0 <= i < |l| && l[i] == ai && forall j :: 0 <= j < i ==> l[j].id != ai.id
  }

  predicate HasId(l: seq<AI>, id: int) {
    exists i :: 0 <= i < |l| && l[i].id == id
  }

  lemma FirstOrRest(l: seq<AI>, ai: AI)
    requires l != []
    ensures FirstWith(l, ai) <==> l[0] == ai || (l[0].id != ai.id && FirstWith(l[1..], ai))
  {
    if FirstWith(l, ai) && l[0] != ai {
      var i :| 0 <= i < |l| && l[i] == ai && forall j :: 0 <= j < i ==> l[j].id != ai.id;
      assert l[1..][i - 1] == ai;
    }
    if l[0].id != ai.id && FirstWith(l[1..], ai) {
      var i :| 0 <= i < |l[1..]| && l[1..][i] == ai && forall j :: 0 <= j < i ==> l[1..][j].id != ai.id;
      assert l[i + 1] == ai;
      forall j | 0 <= j < i + 1 ensures l[j].id != ai.id {
        if j > 0 { assert l[j] == l[1..][j - 1]; }
      }
    }
  }

  lemma {:induction false} AddAllExact(z: State, l: seq<AI>, ai: AI)
    requires forall id :: id in z.ais ==> z.ais[id].id == id
    ensures var t := AddAll(z, l).ais;
            && (ai.id in t && t[ai.id] == ai <==>
                if ai.id in z.ais then z.ais[ai.id] == ai else FirstWith(l, ai))
            && (forall id :: id in t ==> t[id].id == id)
    ensures AddAll(z, l).groups == z.groups
    decreases |l|
  {
    if l != [] {
      AddAllExact(AddOne(z, l[0]), l[1..], ai);
      FirstOrRest(l, ai);
    }
  }

  lemma {:induction false} RemoveAllExact(z: State, l: seq<AI>, begin: G.Begin, id: int)
    requires G.Healthy(z.groups) && G.IsBegin(begin)
    ensures var t := RemoveAll(z, l, begin);
            && (id in t.ais <==> id in z.ais && !HasId(l, id))
            && (id in t.ais ==> t.ais[id] == z.ais[id])
            && G.Healthy(t.groups)
    decreases |l|
  {
    if l != [] {
      var u := RemoveOne(z, l[0], begin);
      if l[0].id in z.ais { G.RemoveAllHealthy(z.groups, z.ais[l[0].id].self, begin); }
      RemoveAllExact(u, l[1..], begin, id);
      IdInRest(l, id);
    }
  }

  lemma IdInRest(l: seq<AI>, id: int)
    requires l != []
    ensures HasId(l, id) <==> l[0].id == id || HasId(l[1..], id)
  {
    if HasId(l, id) && l[0].id != id {
      var i :| 0 <= i < |l| && l[i].id == id;
      assert l[1..][i - 1].id == id;
    }
    if HasId(l[1..], id) {
      var i :| 0 <= i < |l[1..]| && l[1..][i].id == id;
      assert l[i + 1].id == id;
    }
  }

  lemma {:induction false} DestroyAllExact(z: State, l: seq<int>, id: int)
    ensures var t := DestroyAll(z, l);
            && (id in t.ais <==> id in z.ais && id !in l)
            && (id in t.ais ==> t.ais[id] == z.ais[id])
            && t.groups == z.groups
    decreases |l|
  {
    if l != [] { DestroyAllExact(DestroyOne(z, l[0]), l[1..], id); }
  }

  /** An AI runs in the next tick exactly if its id was neither removed nor destroyed, and it was in
      the zone already or was the first one added under an id that was free. */
  lemma TickExact(z: State, add: seq<AI>, remove: seq<AI>, destroy: seq<int>, begin: G.Begin, ai: AI)
    requires (forall id :: id in z.ais ==> z.ais[id].id == id) && G.Healthy(z.groups) && G.IsBegin(begin)
    ensures var t := Applied(z, add, remove, destroy, begin).ais;
            ai.id in t && t[ai.id] == ai <==>
            && !HasId(remove, ai.id) && ai.id !in destroy
            && (if ai.id in z.ais then z.ais[ai.id] == ai else FirstWith(add, ai))
  {
    AddAllExact(z, add, ai);
    var u := AddAll(z, add);
    RemoveAllExact(u, remove, begin, ai.id);
    DestroyAllExact(RemoveAll(u, remove, begin), destroy, ai.id);
  }

  /** The removals take `x` out of the zone. */
  predicate Leaves(ais: map<int, AI>, remove: seq<AI>, x: G.AI) {
    exists id :: id in ais && HasId(remove, id) && ais[id].self == x
  }

  lemma LeavesFirst(ais: map<int, AI>, l: seq<AI>, x: G.AI)
    requires l != []
    ensures Leaves(ais, l, x) <==>
            (l[0].id in ais && ais[l[0].id].self == x) || Leaves(ais - {l[0].id}, l[1..], x)
  {
    if Leaves(ais, l, x) {
      var id :| id in ais && HasId(l, id) && ais[id].self == x;
      IdInRest(l, id);
      assert id != l[0].id ==> id in ais - {l[0].id} && HasId(l[1..], id);
    }
    if Leaves(ais - {l[0].id}, l[1..], x) {
      var id :| id in ais - {l[0].id} && HasId(l[1..], id) && ais[id].self == x;
      IdInRest(l, id);
    }
    if l[0].id in ais && ais[l[0].id].self == x { IdInRest(l, l[0].id); }
  }

  lemma {:induction false} RemoveAllGroups(z: State, l: seq<AI>, begin: G.Begin, g: G.GroupId, x: G.AI)
    requires G.Healthy(z.groups) && G.IsBegin(begin)
    ensures G.IsMember(RemoveAll(z, l, begin).groups, g, x) <==> G.IsMember(z.groups, g, x) && !Leaves(z.ais, l, x)
    decreases |l|
  {
    if l != [] {
      if l[0].id in z.ais { G.RemoveAllHealthy(z.groups, z.ais[l[0].id].self, begin); }
      RemoveAllGroups(RemoveOne(z, l[0], begin), l[1..], begin, g, x);
      LeavesFirst(z.ais, l, x);
      assert l[0].id !in z.ais ==> z.ais - {l[0].id} == z.ais;
    }
  }

  /** The groups after the schedules: exactly the AIs that a removal took out of the zone have left
      theirs, and they have left all of them.  An addition joins no group; an AI that was destroyed
      stays in its groups, and the caller has to take it out (GroupMgr.h:20). */
  lemma GroupsExact(z: State, add: seq<AI>, remove: seq<AI>, destroy: seq<int>, begin: G.Begin, g: G.GroupId, x: G.AI)
    requires G.Healthy(z.groups) && G.IsBegin(begin)
    ensures G.IsMember(Applied(z, add, remove, destroy, begin).groups, g, x) <==>
            G.IsMember(z.groups, g, x) && !Leaves(AddAll(z, add).ais, remove, x)
  {
    AddAllGroups(z, add);
    RemoveAllGroups(AddAll(z, add), remove, begin, g, x);
    DestroyAllExact(RemoveAll(AddAll(z, add), remove, begin), destroy, 0);
  }

  lemma {:induction false} AddAllGroups(z: State, l: seq<AI>)
    ensures AddAll(z, l).groups == z.groups
    decreases |l|
  {
    if l != [] { AddAllGroups(AddOne(z, l[0]), l[1..]); }
  }

  /** An AI that was removed is in no group any more. */
  lemma RemovedLeavesGroups(z: State, add: seq<AI>, remove: seq<AI>, destroy: seq<int>, begin: G.Begin, id: int,
      g: G.GroupId)
    requires (forall i :: i in z.ais ==> z.ais[i].id == i) && G.Healthy(z.groups) && G.IsBegin(begin)
    requires id in z.ais && HasId(remove, id)
    ensures !G.IsMember(Applied(z, add, remove, destroy, begin).groups, g, z.ais[id].self)
  {
    AddAllExact(z, add, z.ais[id]);
    GroupsExact(z, add, remove, destroy, begin, g, z.ais[id].self);
  }

  /** One that was destroyed and not removed stays in its groups, although it has left the zone. */
  lemma DestroyedKeepsGroups(z: State, add: seq<AI>, remove: seq<AI>, destroy: seq<int>, begin: G.Begin, id: int,
      g: G.GroupId)
    requires (forall i :: i in z.ais ==> z.ais[i].id == i) && G.Healthy(z.groups) && G.IsBegin(begin)
    requires id in z.ais && id in destroy && !Leaves(AddAll(z, add).ais, remove, z.ais[id].self)
    ensures id !in Applied(z, add, remove, destroy, begin).ais
    ensures G.IsMember(Applied(z, add, remove, destroy, begin).groups, g, z.ais[id].self) <==>
            G.IsMember(z.groups, g, z.ais[id].self)
  {
    GroupsExact(z, add, remove, destroy, begin, g, z.ais[id].self);
    DestroyAllExact(RemoveAll(AddAll(z, add), remove, begin), destroy, id);
  }

  // ---------- the code ----------

  class ZoneObject {
    var ais: map<int, AI>
    var scheduledAdd: seq<AI>
    var scheduledRemove: seq<AI>
    var scheduledDestroy: seq<int>
    const groupManager: G.Manager

    ghost function Snapshot(): State
      reads this, groupManager
    {
      State(ais, groupManager.groups)
    }

    constructor (begin: G.Begin)
      requires G.IsBegin(begin)
      ensures Snapshot() == State(map[], map[]) && groupManager.Valid() && fresh(groupManager)
      ensures scheduledAdd == [] && scheduledRemove == [] && scheduledDestroy == []
    {
      groupManager := new G.Manager(begin);
      ais := map[];
      scheduledAdd, scheduledRemove, scheduledDestroy := [], [], [];
    }

    method AddAI(ai: AI)
      modifies this`scheduledAdd
      ensures scheduledAdd == old(scheduledAdd) + [ai]
    {
      scheduledAdd := scheduledAdd + [ai];
    }

    method RemoveAI(ai: AI)
      modifies this`scheduledRemove
      ensures scheduledRemove == old(scheduledRemove) + [ai]
    {
      scheduledRemove := scheduledRemove + [ai];
    }

    method DestroyAI(id: int)
      modifies this`scheduledDestroy
      ensures scheduledDestroy == old(scheduledDestroy) + [id]
    {
      scheduledDestroy := scheduledDestroy + [id];
    }

    /** The part of update before executeParallel. */
    method ApplySchedules()
      requires groupManager.Valid()
      modifies this, groupManager
      ensures groupManager.Valid()
      ensures Snapshot() == Applied(old(Snapshot()), old(scheduledAdd), old(scheduledRemove), old(scheduledDestroy),
              groupManager.begin)
      ensures scheduledAdd == [] && scheduledRemove == [] && scheduledDestroy == []
    {
      var add, remove, destroy := scheduledAdd, scheduledRemove, scheduledDestroy;
      scheduledAdd, scheduledRemove, scheduledDestroy := [], [], [];
      DoAdd(add);
      DoRemove(remove);
      DoDestroy(destroy);
    }

    method DoAdd(l: seq<AI>)
      modifies this`ais
      ensures Snapshot() == AddAll(old(Snapshot()), l)
    {
      for i := 0 to |l|
        invariant AddAll(Snapshot(), l[i..]) == AddAll(old(Snapshot()), l)
      {
        assert l[i..][1..] == l[i + 1..];
        if l[i].id !in ais { ais := ais[l[i].id := l[i]]; }
      }
    }

    method DoRemove(l: seq<AI>)
      requires groupManager.Valid()
      modifies this`ais, groupManager
      ensures groupManager.Valid() && Snapshot() == RemoveAll(old(Snapshot()), l, groupManager.begin)
    {
      for i := 0 to |l|
        invariant groupManager.Valid()
        invariant RemoveAll(Snapshot(), l[i..], groupManager.begin) == RemoveAll(old(Snapshot()), l, groupManager.begin)
      {
        assert l[i..][1..] == l[i + 1..];
        if l[i].id in ais {
          var _ := groupManager.RemoveFromAllGroups(ais[l[i].id].self);
          ais := ais - {l[i].id};
        }
      }
    }

    method DoDestroy(l: seq<int>)
      modifies this`ais
      ensures Snapshot() == DestroyAll(old(Snapshot()), l)
    {
      for i := 0 to |l|
        invariant DestroyAll(Snapshot(), l[i..]) == DestroyAll(old(Snapshot()), l)
      {
        assert l[i..][1..] == l[i + 1..];
        ais := ais - {l[i]};
      }
    }
  }
}
