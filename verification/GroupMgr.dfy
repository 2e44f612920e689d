/** The groups of a zone (GroupMgr.h): a map from groups to their members, and an index from an AI
    to its groups that must agree with it. */
module GroupMgr {

  /** An AIPtr, by identity. */
  type AI = int

  type GroupId = int

  datatype Vec = Vec(x: real, y: real, z: real) {
    function Plus(v: Vec): Vec {
      Vec(x + v.x, y + v.y, z + v.z)
    }

    function Times(f: real): Vec {
      Vec(x * f, y * f, z * f)
    }
  }

  const ZERO := Vec(0.0, 0.0, 0.0)

  datatype Group = Group(leader: AI, members: set<AI>, position: Vec)

  type Groups = map<GroupId, Group>

  /** What `*members.begin()` yields for a set of members. */
  type Begin = set<AI> -> AI

  ghost predicate IsBegin(begin: Begin) {
    forall s :: s != {} ==> begin(s) in s
  }

  // ---------- what the operations do to the groups ----------

  predicate IsMember(groups: Groups, g: GroupId, ai: AI) {
    g in groups && ai in groups[g].members
  }

  function AddTo(groups: Groups, g: GroupId, ai: AI): Groups {
    var group := if g in groups then groups[g] else Group(ai, {}, ZERO);
    groups[g := group.(members := group.members + {ai})]
  }

  /** A group without `ai`; its leader is replaced if it was `ai`. */
  function Without(group: Group, ai: AI, begin: Begin): Group {
    var rest := group.members - {ai};
    Group(if group.leader == ai then begin(rest) else group.leader, rest, group.position)
  }

  /** The group is destroyed when it becomes empty (GroupMgr.h:216; the comment at lines 80 to 84
      says: when one member is left). */
  function RemoveFrom(groups: Groups, g: GroupId, ai: AI, begin: Begin): Groups {
    if !IsMember(groups, g, ai) then groups
    else if groups[g].members == {ai} then groups - {g}
    else groups[g := Without(groups[g], ai, begin)]
  }

  function RemoveEverywhere(groups: Groups, ai: AI, begin: Begin): Groups {
    map g | g in groups && groups[g].members != {ai} ::
      if ai in groups[g].members then Without(groups[g], ai, begin) else groups[g]
  }

  /** Every stored group has members, and its leader is one of them. */
  ghost predicate Healthy(groups: Groups) {
    forall g :: g in groups ==> groups[g].members != {} && groups[g].leader in groups[g].members
  }

  lemma AddHealthy(groups: Groups, g: GroupId, ai: AI)
    requires Healthy(groups)
    ensures Healthy(AddTo(groups, g, ai))
    ensures forall h, x :: IsMember(AddTo(groups, g, ai), h, x) <==> IsMember(groups, h, x) || (h == g && x == ai)
    ensures AddTo(groups, g, ai)[g].leader == if g in groups then groups[g].leader else ai
  {
  }

  lemma WithoutHealthy(group: Group, ai: AI, begin: Begin)
    requires IsBegin(begin) && ai in group.members && group.members != {ai} && group.leader in group.members
    ensures Without(group, ai, begin).members != {}
    ensures Without(group, ai, begin).leader in Without(group, ai, begin).members
  {
    var rest := group.members - {ai};
    assert rest == {} ==> group.members == {ai};
  }

  lemma RemoveHealthy(groups: Groups, g: GroupId, ai: AI, begin: Begin)
    requires Healthy(groups) && IsBegin(begin)
    ensures Healthy(RemoveFrom(groups, g, ai, begin))
    ensures forall h, x ::
              IsMember(RemoveFrom(groups, g, ai, begin), h, x) <==> IsMember(groups, h, x) && !(h == g && x == ai)
  {
    if IsMember(groups, g, ai) && groups[g].members != {ai} {
      WithoutHealthy(groups[g], ai, begin);
    }
  }

  lemma RemoveAllHealthy(groups: Groups, ai: AI, begin: Begin)
    requires Healthy(groups) && IsBegin(begin)
    ensures Healthy(RemoveEverywhere(groups, ai, begin))
    ensures forall h, x :: IsMember(RemoveEverywhere(groups, ai, begin), h, x) <==> IsMember(groups, h, x) && x != ai
  {
    var after := RemoveEverywhere(groups, ai, begin);
    forall g | g in after ensures after[g].members != {} && after[g].leader in after[g].members {
      if ai in groups[g].members { WithoutHealthy(groups[g], ai, begin); }
    }
    forall h, x ensures IsMember(after, h, x) <==> IsMember(groups, h, x) && x != ai {
      if IsMember(groups, h, x) && x != ai { assert groups[h].members != {ai}; }
    }
  }

  // ---------- whole runs ----------

  datatype Event = Add(g: GroupId, ai: AI) | Remove(g: GroupId, ai: AI) | RemoveAll(ai: AI)

  function Step(groups: Groups, e: Event, begin: Begin): Groups {
    match e
    case Add(g, ai) => AddTo(groups, g, ai)
    case Remove(g, ai) => RemoveFrom(groups, g, ai, begin)
    case RemoveAll(ai) => RemoveEverywhere(groups, ai, begin)
  }

  function Run(es: seq<Event>, begin: Begin): Groups {
    if es == [] then map[] else Step(Run(es[..|es| - 1], begin), es[|es| - 1], begin)
  }

  /** The simple thing: an AI is in a group if the last call that concerns both was an add. */
  predicate LastAdded(es: seq<Event>, g: GroupId, ai: AI) {
    if es == [] then false
    else
      match es[|es| - 1]
      case Add(h, x) => (h == g && x == ai) || LastAdded(es[..|es| - 1], g, ai)
      case Remove(h, x) => !(h == g && x == ai) && LastAdded(es[..|es| - 1], g, ai)
      case RemoveAll(x) => x != ai && LastAdded(es[..|es| - 1], g, ai)
  }

  /** For every run: the groups are exactly the ones with members, the members are exactly those last
      added, and every leader is a member. */
  lemma {:induction false} MembersExact(es: seq<Event>, begin: Begin)
    requires IsBegin(begin)
    ensures Healthy(Run(es, begin))
    ensures forall g, ai :: IsMember(Run(es, begin), g, ai) <==> LastAdded(es, g, ai)
    decreases |es|
  {
    if es != [] {
      var before, e := Run(es[..|es| - 1], begin), es[|es| - 1];
      MembersExact(es[..|es| - 1], begin);
      match e {
        case Add(g, ai) => AddHealthy(before, g, ai);
        case Remove(g, ai) => RemoveHealthy(before, g, ai, begin);
        case RemoveAll(ai) => RemoveAllHealthy(before, ai, begin);
      }
    }
  }

  /** A group is stored exactly as long as somebody is in it. */
  lemma GroupsHaveMembers(groups: Groups, g: GroupId)
    requires Healthy(groups)
    ensures g in groups <==> exists ai :: IsMember(groups, g, ai)
  {
    if g in groups { assert IsMember(groups, g, groups[g].leader); }
  }

  /** A leader stays leader as long as it stays in its group. */
  lemma LeaderStays(groups: Groups, e: Event, begin: Begin, g: GroupId)
    requires Healthy(groups) && IsBegin(begin) && g in groups
    ensures var next := Step(groups, e, begin);
            IsMember(next, g, groups[g].leader) ==> next[g].leader == groups[g].leader
  {
  }

  /** Only an update moves a group, and a group whose leader is gone is led by the first of its members. */
  lemma StepKeeps(groups: Groups, e: Event, begin: Begin, g: GroupId)
    requires Healthy(groups) && IsBegin(begin) && g in groups && g in Step(groups, e, begin)
    ensures var next := Step(groups, e, begin);
      && next[g].position == groups[g].position
      && (!IsMember(next, g, groups[g].leader) ==> next[g].leader == begin(next[g].members))
  {
  }

  // ---------- averages ----------

  /** The sum of the members' positions; over the reals the order does not matter. */
  ghost function Sum(members: set<AI>, at: AI -> Vec): Vec {
    if members == {} then ZERO else at(Pick(members)).Plus(Sum(members - {Pick(members)}, at))
  }

  ghost function Pick(members: set<AI>): (ai: AI)
    requires members != {}
    ensures ai in members
  {
    SomeMember(members);
    var ai :| ai in members;
    ai
  }

  lemma SomeMember(members: set<int>)
    requires members != {}
    ensures exists x :: x in members
  {
    assert (forall x :: x !in members) ==> members == {};
  }

  lemma PlusSwap(a: Vec, b: Vec, c: Vec)
    ensures a.Plus(b.Plus(c)) == b.Plus(a.Plus(c))
  {
  }

  lemma {:induction false} SumRemove(members: set<AI>, at: AI -> Vec, x: AI)
    requires x in members
    ensures Sum(members, at) == at(x).Plus(Sum(members - {x}, at))
    decreases members
  {
    var y := Pick(members);
    if x != y {
      SumRemove(members - {y}, at, x);
      SumRemove(members - {x}, at, y);
      assert members - {y} - {x} == members - {x} - {y};
      PlusSwap(at(x), at(y), Sum(members - {x} - {y}, at));
    }
  }

  ghost function Average(members: set<AI>, at: AI -> Vec): Vec
    requires members != {}
  {
    Sum(members, at).Times(1.0 / |members| as real)
  }

  /** The sum of one number per member. */
  ghost function Total(members: set<AI>, f: AI -> real): real {
    if members == {} then 0.0 else f(Pick(members)) + Total(members - {Pick(members)}, f)
  }

  lemma {:induction false} SumInNumbers(members: set<AI>, at: AI -> Vec)
    ensures Sum(members, at).x == Total(members, ai => at(ai).x)
    ensures Sum(members, at).y == Total(members, ai => at(ai).y)
    ensures Sum(members, at).z == Total(members, ai => at(ai).z)
    decreases members
  {
    if members != {} { SumInNumbers(members - {Pick(members)}, at); }
  }

  /** The average position times the size of the group is the sum of its members' positions, in each coordinate. */
  lemma AverageExact(members: set<AI>, at: AI -> Vec)
    requires members != {}
    ensures var a := Average(members, at);
      && |members| as real * a.x == Total(members, ai => at(ai).x)
      && |members| as real * a.y == Total(members, ai => at(ai).y)
      && |members| as real * a.z == Total(members, ai => at(ai).z)
  {
    SumInNumbers(members, at);
    var n, sum := |members| as real, Sum(members, at);
    TimesInverse(n, sum.x);
    TimesInverse(n, sum.y);
    TimesInverse(n, sum.z);
  }

  lemma TimesInverse(n: real, v: real)
    requires n > 0.0
    ensures n * (v * (1.0 / n)) == v
  {
    assert n * (1.0 / n) == 1.0;
    assert n * (v * (1.0 / n)) == v * (n * (1.0 / n));
  }

  // ---------- the code ----------

  /** The index holds the pair (ai, g) exactly once if ai is a member of g, and not at all otherwise. */
  ghost predicate Agree(groups: Groups, pairs: multiset<(AI, GroupId)>) {
    forall ai, g :: pairs[(ai, g)] == if IsMember(groups, g, ai) then 1 else 0
  }

  class Manager {
    var groups: Groups
    var groupMembers: multiset<(AI, GroupId)>
    const begin: Begin

    ghost predicate Valid()
      reads this
    {
      Healthy(groups) && Agree(groups, groupMembers) && IsBegin(begin)
    }

    constructor (begin: Begin)
      requires IsBegin(begin)
      ensures Valid() && groups == map[] && this.begin == begin
    {
      groups, groupMembers := map[], multiset{};
      this.begin := begin;
    }

    method Add(g: GroupId, ai: AI) returns (ok: bool)
      requires Valid()
      modifies this
      ensures Valid() && groups == AddTo(old(groups), g, ai)
      ensures ok <==> !IsMember(old(groups), g, ai)
    {
      AddHealthy(groups, g, ai);
      if g !in groups {
        groups := groups[g := Group(ai, {}, ZERO)];
      }
      var group := groups[g];
      ok := ai !in group.members;
      groups := groups[g := group.(members := group.members + {ai})];
      if ok {
        groupMembers := groupMembers + multiset{(ai, g)};
      }
    }

    method Remove(g: GroupId, ai: AI) returns (ok: bool)
      requires Valid()
      modifies this
      ensures Valid() && groups == RemoveFrom(old(groups), g, ai, begin)
      ensures ok <==> IsMember(old(groups), g, ai)
    {
      RemoveHealthy(groups, g, ai, begin);
      if g !in groups { return false; }
      var group := groups[g];
      if ai !in group.members { return false; }
      group := group.(members := group.members - {ai});
      if group.members == {} {
        assert groups[g].members == {ai};
        groups := groups - {g};
      } else {
        if group.leader == ai {
          group := group.(leader := begin(group.members));
        }
        groups := groups[g := group];
      }
      groupMembers := groupMembers - multiset{(ai, g)};
      return true;
    }

    /** First the ids are collected from the index, then each group is left. */
    method RemoveFromAllGroups(ai: AI) returns (ok: bool)
      requires Valid()
      modifies this
      ensures Valid() && ok && groups == RemoveEverywhere(old(groups), ai, begin)
    {
      var ids := GroupsOf(ai);
      var k := 0;
      while k < |ids|
        invariant k <= |ids| && Valid()
        invariant groups == Left(old(groups), ai, begin, Ids(ids[..k]))
      {
        LeaveOne(old(groups), ai, begin, ids, k);
        var _ := Remove(ids[k], ai);
        k := k + 1;
      }
      LeftAll(old(groups), ai, begin, ids);
      assert ids[..k] == ids;
      return true;
    }

    /** The range of the index for `ai`, in some order. */
    method GroupsOf(ai: AI) returns (ids: seq<GroupId>)
      requires Valid()
      ensures forall g :: g in ids <==> IsMember(groups, g, ai)
      ensures forall i, j :: 0 <= i < j < |ids| ==> ids[i] != ids[j]
    {
      ids := [];
      var rest := groupMembers;
      while rest != multiset{}
        invariant rest <= groupMembers
        invariant forall g :: g in ids <==> (ai, g) in groupMembers && (ai, g) !in rest
        invariant forall i, j :: 0 <= i < j < |ids| ==> ids[i] != ids[j]
        decreases |rest|
      {
        var pair :| pair in rest;
        Once(groups, groupMembers, pair);
        rest := rest - multiset{pair};
        if pair.0 == ai {
          ids := ids + [pair.1];
        }
      }
      assert forall g :: (ai, g) in groupMembers <==> IsMember(groups, g, ai);
    }

    method IsInGroup(g: GroupId, ai: AI) returns (r: bool)
      requires Valid()
      ensures r <==> IsMember(groups, g, ai)
    {
      r := (ai, g) in groupMembers;
    }

    method IsInAnyGroup(ai: AI) returns (r: bool)
      requires Valid()
      ensures r <==> exists g :: IsMember(groups, g, ai)
    {
      var ids := GroupsOf(ai);
      r := ids != [];
      if r { assert IsMember(groups, ids[0], ai); }
    }

    method IsGroupLeader(g: GroupId, ai: AI) returns (r: bool)
      requires Valid()
      ensures r <==> g in groups && groups[g].leader == ai
      ensures r ==> IsMember(groups, g, ai)
    {
      if g !in groups { return false; }
      return groups[g].leader == ai;
    }

    method GetGroupSize(g: GroupId) returns (n: nat)
      requires Valid()
      ensures n == if g in groups then |groups[g].members| else 0
      ensures n == 0 <==> forall ai :: !IsMember(groups, g, ai)
    {
      if g !in groups { return 0; }
      n := |groups[g].members|;
      assert IsMember(groups, g, groups[g].leader);
    }

    /** Average positions; dividing by the size is safe because no stored group is empty. */
    method Update(at: AI -> Vec)
      requires Valid()
      modifies this`groups
      ensures Valid() && Updated(old(groups), groups, {}, at)
    {
      var todo := groups.Keys;
      while todo != {}
        invariant todo <= groups.Keys && Valid() && Updated(old(groups), groups, todo, at)
        decreases |todo|
      {
        SomeMember(todo);
        var g :| g in todo;
        UpdateStep(old(groups), groups, todo, at, g);
        UpdateGroup(g, at);
        todo := todo - {g};
      }
    }

    method UpdateGroup(g: GroupId, at: AI -> Vec)
      requires Valid() && g in groups
      modifies this`groups
      ensures Valid() && groups == old(groups)[g := old(groups)[g].(position := Average(old(groups)[g].members, at))]
    {
      var sum := Accumulate(groups[g].members, at);
      groups := groups[g := groups[g].(position := sum.Times(1.0 / |groups[g].members| as real))];
    }

    /** std::accumulate over the member set. */
    method Accumulate(members: set<AI>, at: AI -> Vec) returns (sum: Vec)
      ensures sum == Sum(members, at)
    {
      sum := ZERO;
      var rest := members;
      while rest != {}
        invariant rest <= members && sum.Plus(Sum(rest, at)) == Sum(members, at)
        decreases |rest|
      {
        SomeMember(rest);
        var ai :| ai in rest;
        SumRemove(rest, at, ai);
        sum := at(ai).Plus(sum);
        rest := rest - {ai};
      }
    }
  }

  lemma Once(groups: Groups, pairs: multiset<(AI, GroupId)>, pair: (AI, GroupId))
    requires Agree(groups, pairs)
    ensures pairs[pair] <= 1
  {
    var (ai, g) := pair;
    assert pairs[(ai, g)] <= 1;
  }

  /** All groups but those in `todo` have their new position. */
  ghost predicate Updated(before: Groups, groups: Groups, todo: set<GroupId>, at: AI -> Vec)
    requires Healthy(before)
  {
    && groups.Keys == before.Keys
    && forall g :: g in before ==>
         groups[g] == if g in todo then before[g] else before[g].(position := Average(before[g].members, at))
  }

  lemma UpdateStep(before: Groups, groups: Groups, todo: set<GroupId>, at: AI -> Vec, g: GroupId)
    requires Healthy(before) && Updated(before, groups, todo, at) && g in todo && g in before
    ensures groups[g].members != {}
    ensures Updated(before, groups[g := groups[g].(position := Average(groups[g].members, at))], todo - {g}, at)
  {
  }

  function Ids(ids: seq<GroupId>): set<GroupId> {
    set g | g in ids
  }

  /** The groups after `ai` has left those in `left`. */
  function Left(groups: Groups, ai: AI, begin: Begin, left: set<GroupId>): Groups {
    map g | g in groups && !(g in left && groups[g].members == {ai}) ::
      if g in left && ai in groups[g].members then Without(groups[g], ai, begin) else groups[g]
  }

  lemma LeaveOne(groups: Groups, ai: AI, begin: Begin, ids: seq<GroupId>, k: nat)
    requires k < |ids| && IsMember(groups, ids[k], ai) && forall i :: 0 <= i < k ==> ids[i] != ids[k]
    ensures RemoveFrom(Left(groups, ai, begin, Ids(ids[..k])), ids[k], ai, begin)
         == Left(groups, ai, begin, Ids(ids[..k + 1]))
  {
    var g := ids[k];
    assert Ids(ids[..k + 1]) == Ids(ids[..k]) + {g};
    assert g !in Ids(ids[..k]);
  }

  lemma LeftAll(groups: Groups, ai: AI, begin: Begin, ids: seq<GroupId>)
    requires forall g :: g in ids <==> IsMember(groups, g, ai)
    ensures Left(groups, ai, begin, Ids(ids)) == RemoveEverywhere(groups, ai, begin)
  {
    forall g | g in groups && ai in groups[g].members ensures g in Ids(ids) {
      assert IsMember(groups, g, ai);
    }
  }
}
