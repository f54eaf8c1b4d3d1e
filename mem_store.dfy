/**
 * The in-memory store: four JavaScript `Map`s keyed by id (users, groups,
 * expenses) and by session id (sessions). `Map` values iterate in
 * first-insertion order, which fixes the order of every listing.
 */
module MemStore {
  import opened Outcomes
  import opened Seqs
  import opened Entities
  import opened Expenses
  import opened Balances
  import opened Groups
  import opened Users
  import opened OrderedMaps

  /** Every user is stored under its own id (`users.set(user.id, user)`). */
  ghost predicate UsersById(m: OrderedMap<User>) {
    forall k :: k in m.entries ==> m.entries[k].id == k
  }

  ghost predicate GroupsById(m: OrderedMap<Group>) {
    forall k :: k in m.entries ==> m.entries[k].id == k
  }

  ghost predicate ExpensesById(m: OrderedMap<Expense>) {
    forall k :: k in m.entries ==> m.entries[k].id == k
  }

  /** No group lists a member twice, and every group lists its creator. */
  ghost predicate MembersSound(m: OrderedMap<Group>) {
    forall k :: k in m.entries ==> Distinct(m.entries[k].members) && m.entries[k].createdBy in m.entries[k].members
  }

  /** `getSessionUser(sessionId)`: the session's user id, when truthy, looked up among the users. */
  function SessionUser(sessions: map<string, UserId>, users: OrderedMap<User>, sessionId: string): (r: Option<User>)
    ensures r.Some? ==> sessionId in sessions && sessions[sessionId] in users.entries
                        && r.value == users.entries[sessions[sessionId]]
    ensures UsersById(users) && r.Some? ==> r.value.id == sessions[sessionId]
    ensures r.None? <==> sessionId !in sessions || sessions[sessionId] == "" || sessions[sessionId] !in users.entries
  {
    if sessionId in sessions && sessions[sessionId] != "" then OrderedMaps.Get(users, sessions[sessionId]) else None
  }

  /** After `createSession(u)` the new session yields `u`'s user, and no other session changes. */
  lemma SessionAfterCreate(sessions: map<string, UserId>, users: OrderedMap<User>, sessionId: string, userId: UserId, other: string)
    requires UsersById(users) && userId in users.entries && userId != "" && other != sessionId
    ensures SessionUser(sessions[sessionId := userId], users, sessionId) == Some(users.entries[userId])
    ensures SessionUser(sessions[sessionId := userId], users, sessionId).value.id == userId
    ensures SessionUser(sessions[sessionId := userId], users, other) == SessionUser(sessions, users, other)
  {
  }

  /** After `deleteSession(s)`, `s` yields nothing and no other session changes. */
  lemma SessionAfterDelete(sessions: map<string, UserId>, users: OrderedMap<User>, sessionId: string, other: string)
    requires other != sessionId
    ensures SessionUser(sessions - {sessionId}, users, sessionId) == None
    ensures SessionUser(sessions - {sessionId}, users, other) == SessionUser(sessions, users, other)
  {
  }

  /** A session stored for the empty user id yields nothing, since `""` is falsy. */
  lemma EmptyUserIdSession(sessions: map<string, UserId>, users: OrderedMap<User>, sessionId: string)
    ensures SessionUser(sessions[sessionId := ""], users, sessionId) == None
  {
  }

  /** The user map is keyed by id, in a consistent order, with unique logins. */
  ghost predicate UsersSound(m: OrderedMap<User>) {
    Consistent(m) && UsersById(m) && UniqueLogins(Values(m))
  }

  /** The group map is keyed by id, in a consistent order, with sound member lists. */
  ghost predicate GroupsSound(m: OrderedMap<Group>) {
    Consistent(m) && GroupsById(m) && MembersSound(m)
  }

  /** The expense map is keyed by id, in a consistent order, with non-empty splits. */
  ghost predicate ExpensesSound(m: OrderedMap<Expense>) {
    Consistent(m) && ExpensesById(m) && WellFormed(Values(m))
  }

  /** Setting a user who clashes with nobody keeps the user map sound; a new id appends. */
  lemma StoreUser(m: OrderedMap<User>, u: User)
    requires UsersSound(m) && !Clashes(Values(m), u.email, u.username)
    ensures UsersSound(Set(m, u.id, u))
    ensures u.id !in m.entries ==> Values(Set(m, u.id, u)) == Values(m) + [u]
  {
    if u.id in m.entries {
      var k := KeyIndex(m, u.id);
      ValuesOfExistingKey(m, u.id, u, k);
      ReplaceKeepsLoginsUnique(Values(m), k, u);
    } else {
      ValuesOfNewKey(m, u.id, u);
      SignUpKeepsLoginsUnique(Values(m), u);
    }
  }

  /** Setting a group with a sound member list keeps the group map sound. */
  lemma StoreGroup(m: OrderedMap<Group>, g: Group)
    requires GroupsSound(m) && Distinct(g.members) && g.createdBy in g.members
    ensures GroupsSound(Set(m, g.id, g))
  {
  }

  /** Setting an expense with a non-empty split keeps the expense map sound; a new id appends. */
  lemma StoreExpense(m: OrderedMap<Expense>, e: Expense)
    requires ExpensesSound(m) && |e.splitWith| > 0
    ensures ExpensesSound(Set(m, e.id, e))
    ensures e.id !in m.entries ==> Values(Set(m, e.id, e)) == Values(m) + [e]
  {
    var vs := Values(m);
    if e.id in m.entries {
      var k := KeyIndex(m, e.id);
      ValuesOfExistingKey(m, e.id, e, k);
      assert forall x :: x in vs[k := e] ==> x in vs || x == e;
    } else {
      ValuesOfNewKey(m, e.id, e);
      assert forall x :: x in vs + [e] ==> x in vs || x == e;
    }
  }

  /** In a map keyed by expense id, the value at a key's index is the first expense with that id. */
  lemma ExpenseAt(m: OrderedMap<Expense>, id: ExpenseId) returns (k: nat)
    requires Consistent(m) && ExpensesById(m) && id in m.entries
    ensures k < |m.keys| && m.keys[k] == id
    ensures IsFirst(Values(m), id, k) && Values(m)[k] == m.entries[id]
  {
    k := KeyIndex(m, id);
    var vs := Values(m);
    forall j | 0 <= j < k
      ensures vs[j].id != id
    {
      assert vs[j] == m.entries[m.keys[j]];
    }
  }

  /** Paying a stored pending expense in place is `PayIn` on the listing. */
  lemma PayPendingStored(m: OrderedMap<Expense>, id: ExpenseId, userId: UserId)
    requires ExpensesSound(m) && id in m.entries && m.entries[id].status == Pending
    ensures |m.entries[id].splitWith| > 0
    ensures ExpensesSound(Set(m, id, Pay(m.entries[id], userId)))
    ensures Set(m, id, Pay(m.entries[id], userId)).keys == m.keys
    ensures Values(Set(m, id, Pay(m.entries[id], userId))) == PayIn(Values(m), id, userId)
  {
    var k := ExpenseAt(m, id);
    var vs := Values(m);
    assert vs[k] in vs;
    FindExpenseIsFirst(vs, id, k);
    ValuesOfExistingKey(m, id, Pay(m.entries[id], userId), k);
  }

  /** `PayIn` and `CancelIn` leave the listing alone when the id is missing or its expense is settled. */
  lemma NotPendingStored(m: OrderedMap<Expense>, id: ExpenseId, userId: UserId)
    requires ExpensesSound(m) && !(id in m.entries && m.entries[id].status == Pending)
    ensures PayIn(Values(m), id, userId) == Values(m)
    ensures CancelIn(Values(m), id) == Values(m)
  {
    if id in m.entries {
      var k := ExpenseAt(m, id);
      FindExpenseIsFirst(Values(m), id, k);
    }
  }

  /** Both cases of `payExpense` on the map. */
  lemma PayStored(m: OrderedMap<Expense>, id: ExpenseId, userId: UserId)
    requires ExpensesSound(m)
    ensures id in m.entries && m.entries[id].status == Pending ==>
              && |m.entries[id].splitWith| > 0
              && ExpensesSound(Set(m, id, Pay(m.entries[id], userId)))
              && Set(m, id, Pay(m.entries[id], userId)).keys == m.keys
              && Values(Set(m, id, Pay(m.entries[id], userId))) == PayIn(Values(m), id, userId)
    ensures !(id in m.entries && m.entries[id].status == Pending) ==> PayIn(Values(m), id, userId) == Values(m)
  {
    if id in m.entries && m.entries[id].status == Pending {
      PayPendingStored(m, id, userId);
    } else {
      NotPendingStored(m, id, userId);
    }
  }

  /** Cancelling a stored pending expense in place is `CancelIn` on the listing. */
  lemma CancelPendingStored(m: OrderedMap<Expense>, id: ExpenseId)
    requires ExpensesSound(m) && id in m.entries && m.entries[id].status == Pending
    ensures ExpensesSound(Set(m, id, m.entries[id].(status := Cancelled)))
    ensures Set(m, id, m.entries[id].(status := Cancelled)).keys == m.keys
    ensures Values(Set(m, id, m.entries[id].(status := Cancelled))) == CancelIn(Values(m), id)
  {
    var k := ExpenseAt(m, id);
    var vs := Values(m);
    assert vs[k] in vs;
    FindExpenseIsFirst(vs, id, k);
    ValuesOfExistingKey(m, id, m.entries[id].(status := Cancelled), k);
  }

  /** Both cases of `cancelExpense` on the map. */
  lemma CancelStored(m: OrderedMap<Expense>, id: ExpenseId)
    requires ExpensesSound(m)
    ensures id in m.entries && m.entries[id].status == Pending ==>
              && ExpensesSound(Set(m, id, m.entries[id].(status := Cancelled)))
              && Set(m, id, m.entries[id].(status := Cancelled)).keys == m.keys
              && Values(Set(m, id, m.entries[id].(status := Cancelled))) == CancelIn(Values(m), id)
    ensures !(id in m.entries && m.entries[id].status == Pending) ==> CancelIn(Values(m), id) == Values(m)
  {
    if id in m.entries && m.entries[id].status == Pending {
      CancelPendingStored(m, id);
    } else {
      NotPendingStored(m, id, "");
    }
  }

  class MemStore {
    var users: OrderedMap<User>
    var groups: OrderedMap<Group>
    var expenses: OrderedMap<Expense>
    var sessions: map<string, UserId>

    /** What every operation keeps. */
    ghost predicate Valid()
      reads this
    {
      UsersSound(users) && GroupsSound(groups) && ExpensesSound(expenses)
    }

    /** Empty maps. */
    constructor()
      ensures users == Empty() && groups == Empty() && expenses == Empty() && sessions == map[]
      ensures Valid()
    {
      users := Empty();
      groups := Empty();
      expenses := Empty();
      sessions := map[];
    }

    /** `createUser`: a loop over the users refuses a taken email or username; else the user is set under its id. */
    method CreateUser(id: UserId, email: string, username: string, name: string, password: string)
      returns (r: Result<User, StoreError>)
      modifies this
      requires Valid()
      ensures Valid()
      ensures Clashes(Values(old(users)), email, username) ==> r == Err(UserAlreadyExists) && users == old(users)
      ensures !Clashes(Values(old(users)), email, username) ==>
                r == Ok(User(id, email, username, name, password)) && users == Set(old(users), id, r.value)
      ensures r.Ok? && id !in old(users).entries ==> Values(users) == Values(old(users)) + [r.value]
      ensures groups == old(groups) && expenses == old(expenses) && sessions == old(sessions)
    {
      var all := Values(users);
      var i := 0;
      while i < |all|
        invariant 0 <= i <= |all|
        invariant forall j :: 0 <= j < i ==> all[j].email != email && all[j].username != username
      {
        if all[i].email == email || all[i].username == username {
          assert all[i] in all;
          return Err(UserAlreadyExists);
        }
        i := i + 1;
      }
      var user := User(id, email, username, name, password);
      assert !Clashes(all, email, username) by {
        forall u | u in all
          ensures u.email != email && u.username != username
        {
          var j :| 0 <= j < |all| && all[j] == u;
        }
      }
      StoreUser(users, user);
      users := Set(users, id, user);
      return Ok(user);
    }

    /** `findUserByEmail`: the loop returns the first user, in insertion order, with that email. */
    method FindUserByEmail(email: string) returns (r: Option<User>)
      requires Valid()
      ensures r == FindByEmail(Values(users), email)
    {
      var all := Values(users);
      var i := 0;
      while i < |all|
        invariant 0 <= i <= |all|
        invariant forall j :: 0 <= j < i ==> all[j].email != email
      {
        if all[i].email == email {
          return Some(all[i]);
        }
        i := i + 1;
      }
      return None;
    }

    /** `findUserByUsername`: the loop returns the first user, in insertion order, with that username. */
    method FindUserByUsername(username: string) returns (r: Option<User>)
      requires Valid()
      ensures r == FindByUsername(Values(users), username)
    {
      var all := Values(users);
      var i := 0;
      while i < |all|
        invariant 0 <= i <= |all|
        invariant forall j :: 0 <= j < i ==> all[j].username != username
      {
        if all[i].username == username {
          return Some(all[i]);
        }
        i := i + 1;
      }
      return None;
    }

    /** `findUserByEmailOrUsername`: an email match wins over a username match. */
    method FindUserByEmailOrUsername(identifier: string) returns (r: Option<User>)
      requires Valid()
      ensures r == FindByEmailThenUsername(Values(users), identifier)
    {
      r := FindUserByEmail(identifier);
      if r.None? {
        r := FindUserByUsername(identifier);
      }
    }

    /** `createSession(userId)` under the session id drawn by the caller. */
    method CreateSession(sessionId: string, userId: UserId) returns (sid: string)
      modifies this
      requires Valid()
      ensures Valid()
      ensures sid == sessionId && sessions == old(sessions)[sessionId := userId]
      ensures users == old(users) && groups == old(groups) && expenses == old(expenses)
    {
      sessions := sessions[sessionId := userId];
      sid := sessionId;
    }

    /** `getSessionUser(sessionId)`. */
    method GetSessionUser(sessionId: string) returns (r: Option<User>)
      requires Valid()
      ensures r == SessionUser(sessions, users, sessionId)
      ensures r.Some? ==> r.value in Values(users) && r.value.id == sessions[sessionId]
    {
      r := None;
      if sessionId in sessions {
        var userId := sessions[sessionId];
        if userId != "" && userId in users.entries {
          ValuesListed(users);
          r := Some(users.entries[userId]);
        }
      }
    }

    /** `deleteSession(sessionId)`. */
    method DeleteSession(sessionId: string)
      modifies this
      requires Valid()
      ensures Valid()
      ensures sessions == old(sessions) - {sessionId}
      ensures users == old(users) && groups == old(groups) && expenses == old(expenses)
    {
      sessions := sessions - {sessionId};
    }

    /** `createGroup(name, createdBy)`: the creator is the only member. */
    method CreateGroup(id: GroupId, name: string, createdBy: UserId) returns (g: Group)
      modifies this
      requires Valid()
      ensures Valid()
      ensures g == Group(id, name, [createdBy], createdBy)
      ensures groups == Set(old(groups), id, g)
      ensures users == old(users) && expenses == old(expenses) && sessions == old(sessions)
    {
      g := Group(id, name, [createdBy], createdBy);
      StoreGroup(groups, g);
      groups := Set(groups, id, g);
    }

    /** `addGroupMember(groupId, userId)`: nothing for a missing group, else `AddMember` in place. */
    method AddGroupMember(groupId: GroupId, userId: UserId)
      modifies this
      requires Valid()
      ensures Valid()
      ensures groupId !in old(groups).entries ==> groups == old(groups)
      ensures groupId in old(groups).entries ==>
                groups == Set(old(groups), groupId, AddMember(old(groups).entries[groupId], userId))
      ensures users == old(users) && expenses == old(expenses) && sessions == old(sessions)
    {
      if groupId in groups.entries {
        var g := groups.entries[groupId];
        StoreGroup(groups, AddMember(g, userId));
        groups := Set(groups, groupId, AddMember(g, userId));
      }
    }

    /** `createExpense`: a pending expense with no payments, set under its id. */
    method CreateExpense(id: ExpenseId, groupId: GroupId, description: string, amount: real,
                         paidBy: UserId, splitWith: seq<UserId>) returns (e: Expense)
      modifies this
      requires Valid() && |splitWith| > 0
      ensures Valid()
      ensures e == Expense(id, groupId, description, amount, paidBy, splitWith, Pending, [])
      ensures expenses == Set(old(expenses), id, e)
      ensures id !in old(expenses).entries ==> Values(expenses) == Values(old(expenses)) + [e]
      ensures users == old(users) && groups == old(groups) && sessions == old(sessions)
    {
      e := Expense(id, groupId, description, amount, paidBy, splitWith, Pending, []);
      StoreExpense(expenses, e);
      expenses := Set(expenses, id, e);
    }

    /** `payExpense`: the expense under the id, when pending, is paid in place; the listing changes as `PayIn` says. */
    method PayExpense(expenseId: ExpenseId, userId: UserId)
      modifies this
      requires Valid()
      ensures Valid()
      ensures expenses.keys == old(expenses).keys
      ensures Values(expenses) == PayIn(Values(old(expenses)), expenseId, userId)
      ensures users == old(users) && groups == old(groups) && sessions == old(sessions)
    {
      ghost var before := expenses;
      PayStored(before, expenseId, userId);
      if expenseId in expenses.entries && expenses.entries[expenseId].status == Pending {
        var e := expenses.entries[expenseId];
        expenses := Set(expenses, expenseId, Pay(e, userId));
      }
    }

    /** `cancelExpense`: the expense under the id, when pending, is cancelled in place. */
    method CancelExpense(expenseId: ExpenseId)
      modifies this
      requires Valid()
      ensures Valid()
      ensures expenses.keys == old(expenses).keys
      ensures Values(expenses) == CancelIn(Values(old(expenses)), expenseId)
      ensures users == old(users) && groups == old(groups) && sessions == old(sessions)
    {
      ghost var before := expenses;
      CancelStored(before, expenseId);
      if expenseId in expenses.entries && expenses.entries[expenseId].status == Pending {
        var e := expenses.entries[expenseId];
        expenses := Set(expenses, expenseId, e.(status := Cancelled));
      }
    }

    /** `calculateGroupBalances` over the expenses in insertion order. */
    method CalculateGroupBalances(groupId: GroupId) returns (balances: map<UserId, real>)
      requires Valid()
      ensures balances == GroupBalances(Values(expenses), groupId)
      ensures SumMap(balances) == 0.0
    {
      balances := Balances.CalculateGroupBalances(Values(expenses), groupId);
    }
  }
}
