/**
 * The three record types every store variant holds. Timestamps (`createdAt`,
 * `paidAt`) are dropped; amounts are exact reals.
 */
module Entities {

  type UserId = string
  type GroupId = string
  type ExpenseId = string

  /** A registered user. The password is stored, never interpreted by the ledger. */
  datatype User = User(id: UserId, email: string, username: string, name: string, password: string)

  /** A group: `members` is an ordered list of user ids, `createdBy` the creator. */
  datatype Group = Group(id: GroupId, name: string, members: seq<UserId>, createdBy: UserId)

  /** The lifecycle of an expense: pending, then paid or cancelled for good. */
  datatype Status = Pending | Paid | Cancelled

  /** One recorded payment of a share. */
  datatype Payment = Payment(userId: UserId, amount: real)

  /** An expense paid by `paidBy` and owed in equal shares by the entries of `splitWith`. */
  datatype Expense = Expense(
    id: ExpenseId,
    groupId: GroupId,
    description: string,
    amount: real,
    paidBy: UserId,
    splitWith: seq<UserId>,
    status: Status,
    payments: seq<Payment>)
}
