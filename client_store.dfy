/**
 * The browser store: three JSON arrays in `localStorage`, read, changed and
 * written back by every operation. The arrays are the fields of one object.
 */
module ClientStore {
  import opened Outcomes
  import opened Entities
  import opened Expenses
  import opened Balances
  import opened Groups
  import opened Users

  class LocalStore {
    var users: seq<User>
    var groups: seq<Group>
    var expenses: seq<Expense>

    /** What every operation keeps: unique logins, a creator in each group, a non-empty split on each expense. */
    ghost predicate Valid()
      reads this
    {
      UniqueLogins(users) && CreatorsAreMembers(groups) && WellFormed(expenses)
    }

    /** Empty storage. */
    constructor()
      ensures users == [] && groups == [] && expenses == []
      ensures Valid()
    {
      users := [];
      groups := [];
      expenses := [];
    }

    /** `createUser`: refused when the email or the username is taken, else appended. */
    method CreateUser(id: UserId, email: string, username: string, name: string, password: string)
      returns (r: Result<User, StoreError>)
      modifies this
      requires Valid()
      ensures Valid()
      ensures Clashes(old(users), email, username) ==> r == Err(UserAlreadyExists) && users == old(users)
      ensures !Clashes(old(users), email, username) ==>
                r == Ok(User(id, email, username, name, password)) && users == old(users) + [r.value]
      ensures groups == old(groups) && expenses == old(expenses)
    {
      if Clashes(users, email, username) {
        return Err(UserAlreadyExists);
      }
      var user := User(id, email, username, name, password);
      SignUpKeepsLoginsUnique(users, user);
      users := users + [user];
      return Ok(user);
    }

    /** `createGroup`: the creator first, then the other ids passed. */
    method CreateGroup(id: GroupId, name: string, createdBy: UserId, memberIds: seq<UserId>) returns (g: Group)
      modifies this
      requires Valid()
      ensures Valid()
      ensures g == Group(id, name, InitialMembers(createdBy, memberIds), createdBy)
      ensures groups == old(groups) + [g]
      ensures users == old(users) && expenses == old(expenses)
    {
      g := Group(id, name, InitialMembers(createdBy, memberIds), createdBy);
      groups := groups + [g];
    }

    /** `createExpense`: a new pending expense with no payments, appended. */
    method CreateExpense(id: ExpenseId, groupId: GroupId, description: string, amount: real,
                         paidBy: UserId, splitWith: seq<UserId>) returns (e: Expense)
      modifies this
      requires Valid() && |splitWith| > 0
      ensures Valid()
      ensures e == Expense(id, groupId, description, amount, paidBy, splitWith, Pending, [])
      ensures expenses == old(expenses) + [e]
      ensures users == old(users) && groups == old(groups)
    {
      e := Expense(id, groupId, description, amount, paidBy, splitWith, Pending, []);
      expenses := expenses + [e];
    }

    /** `payExpense`: record one share on the first expense with the id, if it is pending. */
    method PayExpense(expenseId: ExpenseId, userId: UserId)
      modifies this
      requires Valid()
      ensures Valid()
      ensures expenses == PayIn(old(expenses), expenseId, userId)
      ensures users == old(users) && groups == old(groups)
    {
      expenses := PayIn(expenses, expenseId, userId);
    }

    /** `cancelExpense`: cancel the first expense with the id, if it is pending. */
    method CancelExpense(expenseId: ExpenseId)
      modifies this
      requires Valid()
      ensures Valid()
      ensures expenses == CancelIn(old(expenses), expenseId)
      ensures users == old(users) && groups == old(groups)
    {
      expenses := CancelIn(expenses, expenseId);
    }

    /** `calculateGroupBalances` over the stored expenses. */
    method CalculateGroupBalances(groupId: GroupId) returns (balances: map<UserId, real>)
      requires Valid()
      ensures balances == GroupBalances(expenses, groupId)
      ensures SumMap(balances) == 0.0
    {
      balances := Balances.CalculateGroupBalances(expenses, groupId);
    }
  }
}
