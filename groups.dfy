/**
 * Group rules: member lists at creation, adding a member, member lookup, and
 * the filters `deleteGroup` writes back.
 */
module Groups {
  import opened Outcomes
  import opened Seqs
  import opened Entities
  import opened Expenses
  import opened Balances

  /** The test `id => id !== createdBy`. */
  function IsNot(createdBy: UserId): UserId -> bool {
    (id: UserId) => id != createdBy
  }

  /** `[createdBy, ...memberIds.filter((id) => id !== createdBy)]`. */
  function InitialMembers(createdBy: UserId, memberIds: seq<UserId>): (r: seq<UserId>)
    ensures |r| > 0 && r[0] == createdBy
    ensures forall y :: y in r ==> y == createdBy || y in memberIds
    ensures forall y :: y in memberIds ==> y in r
  {
    [createdBy] + Filter(memberIds, IsNot(createdBy))
  }

  /** The creator occurs exactly once; every other id as often as it was passed, duplicates kept. */
  lemma InitialMembersCount(createdBy: UserId, memberIds: seq<UserId>, y: UserId)
    ensures Count(InitialMembers(createdBy, memberIds), y) == if y == createdBy then 1 else Count(memberIds, y)
  {
    var rest := Filter(memberIds, IsNot(createdBy));
    CountConcat([createdBy], rest, y);
    FilterCount(memberIds, IsNot(createdBy), y);
    assert [createdBy][..0] == [];
  }

  /** The ids after the creator keep the order they were passed in. */
  lemma InitialMembersOrder(createdBy: UserId, memberIds: seq<UserId>)
    ensures IsSubsequence(InitialMembers(createdBy, memberIds)[1..], memberIds)
  {
    FilterIsSubsequence(memberIds, IsNot(createdBy));
    assert InitialMembers(createdBy, memberIds)[1..] == Filter(memberIds, IsNot(createdBy));
  }

  /** `createGroup("Trip", A, [B, B, C])` yields members A, B, B, C. */
  lemma TripMembers()
    ensures InitialMembers("A", ["B", "B", "C"]) == ["A", "B", "B", "C"]
  {
    var ids := ["B", "B", "C"];
    assert ids[1..] == ["B", "C"] && ids[1..][1..] == ["C"] && ids[1..][1..][1..] == [];
  }

  /** Every group lists its creator among its members. */
  predicate CreatorsAreMembers(groups: seq<Group>) {
    forall g :: g in groups ==> g.createdBy in g.members
  }

  /** `addGroupMember` on the group record: append unless already a member. */
  function AddMember(g: Group, userId: UserId): (r: Group)
    ensures r.(members := g.members) == g
    ensures userId in r.members && g.members <= r.members
    ensures forall x :: x in r.members ==> x in g.members || x == userId
    ensures |r.members| <= |g.members| + 1
    ensures userId in g.members ==> r == g
    ensures Distinct(g.members) ==> Distinct(r.members)
  {
    if userId in g.members then g else g.(members := g.members + [userId])
  }

  /** The test `group => group.members.includes(userId)`. */
  function HasMember(userId: UserId): Group -> bool {
    (g: Group) => userId in g.members
  }

  /** `getUserGroups(userId)`: the groups listing the user, in store order. */
  function GroupsOf(groups: seq<Group>, userId: UserId): (r: seq<Group>)
    ensures forall g :: g in r ==> g in groups && userId in g.members
    ensures forall g :: g in groups && userId in g.members ==> g in r
    ensures IsSubsequence(r, groups)
    ensures forall g :: Count(r, g) == if userId in g.members then Count(groups, g) else 0
  {
    FilterIsSubsequence(groups, HasMember(userId));
    assert forall g :: Count(Filter(groups, HasMember(userId)), g) == if userId in g.members then Count(groups, g) else 0 by {
      forall g
        ensures Count(Filter(groups, HasMember(userId)), g) == if userId in g.members then Count(groups, g) else 0
      {
        FilterCount(groups, HasMember(userId), g);
      }
    }
    Filter(groups, HasMember(userId))
  }

  /** `getGroupById(id)`: the first group with that id. */
  function FindGroup(groups: seq<Group>, id: GroupId): (r: Option<Group>)
    ensures r.Some? ==> r.value in groups && r.value.id == id
    ensures forall i :: 0 <= i < |groups| && groups[i].id == id && (forall j :: 0 <= j < i ==> groups[j].id != id)
              ==> r == Some(groups[i])
    ensures r.None? <==> forall g :: g in groups ==> g.id != id
  {
    Find(groups, (g: Group) => g.id == id)
  }

  /** `getUserById(id)`: the first user with that id. */
  function FindUser(users: seq<User>, id: UserId): (r: Option<User>)
    ensures r.Some? ==> r.value in users && r.value.id == id
    ensures forall i :: 0 <= i < |users| && users[i].id == id && (forall j :: 0 <= j < i ==> users[j].id != id)
              ==> r == Some(users[i])
    ensures r.None? <==> forall u :: u in users ==> u.id != id
  {
    Find(users, (u: User) => u.id == id)
  }

  /** `ids.map(getUserById).filter(u => u !== undefined)`. */
  function ResolveMembers(ids: seq<UserId>, users: seq<User>): (r: seq<User>)
    ensures |r| <= |ids|
    ensures ids == [] ==> r == []
    ensures forall u :: u in r ==> u in users && u.id in ids
    ensures (forall id :: id in ids ==> exists u :: u in users && u.id == id) ==>
              |r| == |ids| && forall i :: 0 <= i < |r| ==> r[i].id == ids[i]
    decreases |ids|
  {
    if ids == [] then []
    else
      assert ids[0] in ids && forall id :: id in ids[1..] ==> id in ids;
      assert forall i :: 0 <= i < |ids| - 1 ==> ids[1..][i] == ids[i + 1];
      var rest := ResolveMembers(ids[1..], users);
      match FindUser(users, ids[0])
      case None => rest
      case Some(u) =>
        assert forall i :: 0 < i <= |rest| ==> ([u] + rest)[i] == rest[i - 1];
        [u] + rest
  }

  /** Resolving a non-empty list resolves its head, then its tail. */
  lemma ResolveFirst(ids: seq<UserId>, users: seq<User>)
    requires ids != []
    ensures ResolveMembers(ids, users) == ResolveMembers([ids[0]], users) + ResolveMembers(ids[1..], users)
  {
    var one := [ids[0]];
    assert one[0] == ids[0] && one[1..] == [];
    var rest := ResolveMembers(ids[1..], users);
    match FindUser(users, ids[0])
    case None =>
      assert ResolveMembers(one, users) == [];
      assert ResolveMembers(ids, users) == rest;
    case Some(u) =>
      assert ResolveMembers(one, users) == [u];
      assert ResolveMembers(ids, users) == [u] + rest;
  }

  /** Resolving a concatenation resolves each part: member order is kept. */
  lemma {:induction false} ResolveMembersConcat(a: seq<UserId>, b: seq<UserId>, users: seq<User>)
    ensures ResolveMembers(a + b, users) == ResolveMembers(a, users) + ResolveMembers(b, users)
    decreases |a|
  {
    if a == [] {
      assert a + b == b;
    } else {
      ConcatSplit(a, b);
      ResolveFirst(a + b, users);
      ResolveFirst(a, users);
      ResolveMembersConcat(a[1..], b, users);
      ConcatAssoc(ResolveMembers([a[0]], users), ResolveMembers(a[1..], users), ResolveMembers(b, users));
    }
  }

  /** One id resolves to its first user, or to nothing when no user has it. */
  lemma ResolveMember(id: UserId, users: seq<User>)
    ensures ResolveMembers([id], users) == match FindUser(users, id) case None => [] case Some(u) => [u]
  {
    assert [id][1..] == [];
  }

  /** `getGroupMembers(groupId)`: the group's users in member order; none for an unknown group. */
  function MembersOf(users: seq<User>, groups: seq<Group>, groupId: GroupId): (r: seq<User>)
    ensures (forall g :: g in groups ==> g.id != groupId) ==> r == []
    ensures forall i :: 0 <= i < |groups| && groups[i].id == groupId && (forall j :: 0 <= j < i ==> groups[j].id != groupId)
              ==> r == ResolveMembers(groups[i].members, users)
    ensures forall u :: u in r ==> u in users
    ensures forall u :: u in r ==> exists g :: g in groups && g.id == groupId && u.id in g.members
  {
    match FindGroup(groups, groupId)
    case None => []
    case Some(g) => ResolveMembers(g.members, users)
  }

  /** `groupExpenses.some((e) => e.status === "pending")`. */
  predicate HasPending(exps: seq<Expense>, g: GroupId)
    ensures HasPending(exps, g) <==> GroupPending(exps, g) != []
  {
    var r := GroupPending(exps, g);
    assert r != [] ==> r[0] in r;
    exists e :: e in exps && e.groupId == g && e.status == Pending
  }

  /** The test `g => g.id !== groupId`. */
  function OtherGroup(groupId: GroupId): Group -> bool {
    (g: Group) => g.id != groupId
  }

  /** The test `e => e.groupId !== groupId`. */
  function OfOtherGroup(groupId: GroupId): Expense -> bool {
    (e: Expense) => e.groupId != groupId
  }

  /** The groups `deleteGroup` writes back. */
  function WithoutGroup(groups: seq<Group>, groupId: GroupId): (r: seq<Group>)
    ensures forall g :: g in r ==> g in groups && g.id != groupId
    ensures forall g :: g in groups && g.id != groupId ==> g in r
    ensures forall g :: Count(r, g) == if g.id != groupId then Count(groups, g) else 0
  {
    assert forall g :: Count(Filter(groups, OtherGroup(groupId)), g) == if g.id != groupId then Count(groups, g) else 0 by {
      forall g
        ensures Count(Filter(groups, OtherGroup(groupId)), g) == if g.id != groupId then Count(groups, g) else 0
      {
        FilterCount(groups, OtherGroup(groupId), g);
      }
    }
    Filter(groups, OtherGroup(groupId))
  }

  /** The expenses `deleteGroup` writes back. */
  function WithoutGroupExpenses(exps: seq<Expense>, groupId: GroupId): (r: seq<Expense>)
    ensures forall e :: e in r ==> e in exps && e.groupId != groupId
    ensures forall e :: e in exps && e.groupId != groupId ==> e in r
    ensures WellFormed(exps) ==> WellFormed(r)
  {
    Filter(exps, OfOtherGroup(groupId))
  }

  /** What survives a deletion keeps its order, and nothing of another group is lost. */
  lemma DeletionKeepsOrder(groups: seq<Group>, exps: seq<Expense>, groupId: GroupId)
    ensures IsSubsequence(WithoutGroup(groups, groupId), groups)
    ensures IsSubsequence(WithoutGroupExpenses(exps, groupId), exps)
    ensures (forall g :: g in groups ==> g.id != groupId) ==> WithoutGroup(groups, groupId) == groups
    ensures (forall e :: e in exps ==> e.groupId != groupId) ==> WithoutGroupExpenses(exps, groupId) == exps
  {
    FilterIsSubsequence(groups, OtherGroup(groupId));
    FilterIsSubsequence(exps, OfOtherGroup(groupId));
    if forall g :: g in groups ==> g.id != groupId {
      FilterKeepsAll(groups, OtherGroup(groupId));
    }
    if forall e :: e in exps ==> e.groupId != groupId {
      FilterKeepsAll(exps, OfOtherGroup(groupId));
    }
  }

  /** A pending 50 between A and B blocks deletion; once cancelled, deletion removes it. */
  lemma TaxiDeletion()
    ensures var taxi := Expense("y", "g", "taxi", 50.0, "A", ["A", "B"], Pending, []);
            && HasPending([taxi], "g")
            && !HasPending(CancelIn([taxi], "y"), "g")
            && WithoutGroupExpenses(CancelIn([taxi], "y"), "g") == []
  {
    var taxi := Expense("y", "g", "taxi", 50.0, "A", ["A", "B"], Pending, []);
    assert taxi in [taxi];
    assert IsFirst([taxi], "y", 0);
    CancelInPending([taxi], "y", 0);
    var after := CancelIn([taxi], "y");
    assert after == [taxi.(status := Cancelled)];
    assert forall e :: e in WithoutGroupExpenses(after, "g") ==> e in after && e.groupId != "g";
  }

  /** A group without pending expenses shows no balances: `deleteGroup` only removes groups that owe nothing. */
  lemma SettledGroupHasNoBalances(exps: seq<Expense>, g: GroupId)
    requires WellFormed(exps) && !HasPending(exps, g)
    ensures GroupBalances(exps, g) == map[]
  {
    var mine := GroupExpenses(exps, g);
    assert forall j :: 0 <= j < |mine| ==> mine[j] in mine;
    FilterNone(mine, IsPending());
  }

  /** Deleting a group leaves the expenses and the balances of every other group as they were. */
  lemma DeletionKeepsOtherBalances(exps: seq<Expense>, g: GroupId, h: GroupId)
    requires WellFormed(exps) && h != g
    ensures GroupExpenses(WithoutGroupExpenses(exps, g), h) == GroupExpenses(exps, h)
    ensures GroupBalances(WithoutGroupExpenses(exps, g), h) == GroupBalances(exps, h)
  {
    FilterOfFilter(exps, OfOtherGroup(g), InGroup(h));
  }
}
