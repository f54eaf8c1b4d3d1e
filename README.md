# amen-cash ledger model

A Dafny model of the shared-expense ledger of amen-cash. Users sign up with a
unique email and username, form groups, and record expenses that one member
paid and several members split. Each split member pays back one share. Once
everyone except the payer has paid, the expense is settled. A pending expense
can also be cancelled. A group's balances are a fresh recompute over its
pending expenses. The server store can also delete a group, but only when the
group has no pending expense.

The repository keeps three copies of this logic. The model keeps all three:

- `ClientStore.LocalStore` is the browser store (`lib/client-store.ts`). It keeps
  three arrays in `localStorage`.
- `KvStore.KvStore` is the server store (`lib/kv-store.ts`). It keeps three arrays
  in Redis, and it is the only store with `deleteGroup`.
- `MemStore.MemStore` is the in-memory store (`lib/store.ts`). It keeps four
  JavaScript `Map`s: users, groups, expenses, and sessions.

In the two array stores, each collection is a `seq` field of a class. An
operation that reads, changes and writes back a collection becomes a method.
That method assigns the field a pure function of its old value. In the in-memory
store, the users, groups and expenses `Map`s are `OrderedMap`s: the entries plus
the keys in the order they were first set. This order is the iteration order of a
JavaScript `Map`, so `Map.values()` is `OrderedMaps.Values`. The sessions `Map` is
a plain Dafny `map`, because nothing iterates over it.

The shared logic is pure:

- `Expenses`: paying and cancelling one expense, and doing so on a whole collection.
- `Balances`: the balance recompute.
- `Groups`: member lists, member lookup, and group deletion.
- `Users`: sign-up clashes, identifier lookup, and search.
- `Seqs`: `Array.prototype` helpers.

The read queries of the two array stores are modelled once, as functions of the
collections, because both stores use the same `filter`/`find`/`map` expressions.
These queries are `getUserGroups`, `getGroupExpenses`, `getGroupMembers`,
`findUserByEmailOrUsername` and `searchUsers`. The in-memory store differs:

- Its `getUserGroups` and `getGroupExpenses` filter `Array.from(m.values())`.
  They are the same functions applied to `OrderedMaps.Values`.
- Its `findUserByEmailOrUsername` runs two loops, by email first and then by
  username. These are the methods `FindUserByEmail` and `FindUserByUsername`.
- It has no `getGroupMembers` and no `searchUsers`.

Balances have two definitions:

- A reference definition, `Balances.Balance`. For each expense, the payer is
  credited the amount. Each entry of `splitWith` is debited one share.
- The source's loop, written step by step as `Balances.Fold`.

`Balances.FoldIsBalances` proves the two agree. The loop method
`Balances.CalculateGroupBalances` is proved against the reference. The values
always sum to zero, because amounts are exact reals.

Ids, which the source draws at random, are method parameters. They carry no
freshness precondition. As in the source, the following hold when ids collide:

- `find` acts on the first record with the id.
- `Map.set` overwrites the old value in place.

Some behaviours of the source are kept as they are and proved:

- Group creation in the array stores keeps duplicate member ids.
  `Groups.TripMembers` shows `createGroup("Trip", A, [B, B, C])` giving
  `[A, B, B, C]`.
- `payExpense` neither checks that the payer is in the split nor ignores repeat
  payers.
- The in-memory store looks a user up by email first, then by username. The
  other two stores take the first user matching either field. Sign-up only
  compares emails with emails and usernames with usernames. So one user's
  email can equal another user's username, and then the lookups disagree.
  `Users.LookupsDisagree` gives such a pair of users.

Two behaviours of the code are modelled as written, although a reader might
expect otherwise:

- Group members are not deduplicated. `createGroup` removes only the creator
  from the ids it is passed and keeps every other id as often as it is passed.
- `deleteGroup` does not report why it refused. It returns `false` when the
  group still has a pending expense.

## Model

| member | source | states |
|---|---|---|
| `Users.Clashes` | lib/client-store.ts:84 | sign-up is refused exactly when a user with the email or a user with the username can be found |
| `Users.SignUpKeepsLoginsUnique` | lib/client-store.ts:84-97 | appending a user who passed the clash check keeps every email unique and every username unique |
| `Users.ReplaceKeepsLoginsUnique` | lib/store.ts:57 | the same when a `Map.set` under a colliding id overwrites another user in place |
| `Users.FindByEmailOrUsername` | lib/client-store.ts:102-105 | returns the first user whose email or username equals the identifier; returns none exactly when no user has either |
| `Users.FindByEmail` | lib/store.ts:61-66 | returns the first user, in iteration order, with that email; returns none exactly when no user has it |
| `Users.FindByUsername` | lib/store.ts:68-73 | returns the first user with that username; returns none exactly when no user has it |
| `Users.FindByEmailThenUsername` | lib/store.ts:75-77 | when a user has the identifier as email, returns a user with that email; any result matches on email or username; returns none exactly when no user matches either way |
| `Users.SignUpThenFind` | lib/store.ts:41-77 | a user who signed up without a clash is found again by email, by username, and by the email-first lookup |
| `Users.LookupsDisagree` | lib/store.ts:75-77 | two users pass the sign-up check, and then the two identifier lookups return different users for the same identifier |
| `Users.Lower` | lib/client-store.ts:122-123 | keeps the length; no ASCII upper-case letter remains; an upper-case letter becomes its lower-case letter and every other character is kept |
| `Users.Contains` | lib/client-store.ts:122-123 | a string that includes another is at least as long; a prefix and a suffix are both included |
| `Users.SearchUsers` | lib/client-store.ts:116-126 | returns the first five matching users other than the excluded id, in store order, or all of them when there are fewer than five: the result is a prefix of the matches, of length five or the number of matches; each is stored, not the excluded id, and matches the query |
| `Users.SearchKeepsOrder` | lib/client-store.ts:118-125 | search results are a subsequence of the users, in store order |
| `Users.EmptyQueryMatches` | lib/client-store.ts:122-123 | the empty query matches every user, because every string includes `""` |
| `Expenses.Pay` | lib/client-store.ts:239-254 | appends exactly one payment of the amount divided by the split length for the payer, with no membership or repeat check; the status becomes paid iff every split member is the payer of the expense, the paying user, or someone who paid before; otherwise it stays pending; no other field changes |
| `Expenses.PaidUserIdsAppend` | lib/client-store.ts:249 | after the push, the set of paid ids is the old paid ids plus the new payer |
| `Expenses.FindExpense` | lib/client-store.ts:236 | returns the first index holding the id; returns none exactly when no expense has the id |
| `Expenses.FindExpenseIsFirst` | lib/client-store.ts:236 | the first expense with the id is the one `find` returns |
| `Expenses.PayIn` | lib/client-store.ts:234-257 | keeps the length and the non-empty splits; expenses with another id and settled or cancelled expenses are unchanged; only status and payments ever change; no expense moves out of paid or cancelled; a pending expense never becomes cancelled; an unknown id changes nothing |
| `Expenses.CancelIn` | lib/client-store.ts:259-266 | keeps the length and the splits; expenses that have another id or are not pending are unchanged; any other expense is unchanged or is the same record cancelled; an unknown id changes nothing |
| `Expenses.PayInPending` | lib/client-store.ts:236-254 | on the first expense with the id, when pending, the collection equals the input with only that expense paid: one share payment is appended, and the status is paid iff every split member is covered, otherwise pending; every other expense, a later one with the same id included, is unchanged |
| `Expenses.PayInNoop` | lib/client-store.ts:235-237 | a missing id, or a first match that is not pending, leaves the whole collection unchanged |
| `Expenses.CancelInPending` | lib/client-store.ts:259-266 | cancels exactly the first expense with the id and keeps its payments |
| `Expenses.CancelInNoop` | lib/client-store.ts:261-262 | a missing id, or a first match that is not pending, leaves the whole collection unchanged |
| `Expenses.CancelIdempotent` | lib/client-store.ts:259-266 | cancelling twice equals cancelling once |
| `Expenses.Terminal` | lib/client-store.ts:237 | a paid or cancelled expense is never changed again by pay or cancel |
| `Expenses.DinnerFirstPayment` | lib/client-store.ts:239-254 | on 90 paid by A and split between A, B and C, B's payment records 30, and the expense stays pending |
| `Expenses.DinnerSecondPayment` | lib/client-store.ts:249-254 | C's payment then records 30 and settles the expense |
| `Balances.GroupExpenses` | lib/client-store.ts:229-232 | returns exactly the expenses of the group, as a subsequence of the store in store order, each as often as it is stored |
| `Balances.GroupPending` | lib/client-store.ts:270 | returns exactly the pending expenses of the group |
| `Balances.GroupPendingCount` | lib/client-store.ts:270 | each pending expense of the group is selected as often as it is stored, and no other expense is selected |
| `Balances.GroupPendingConcat` | lib/client-store.ts:270 | the pending selection of a concatenation is the concatenation of the selections |
| `Balances.DebitValue` | lib/client-store.ts:280-283 | the inner loop takes one share per occurrence of the user in `splitWith` from that user's balance |
| `Balances.DebitKeys` | lib/client-store.ts:280-283 | the inner loop adds a key for every split member |
| `Balances.DebitSum` | lib/client-store.ts:280-283 | the inner loop lowers the total by one share per split entry |
| `Balances.FoldValue` | lib/client-store.ts:272-284 | the loop's value for a user is the user's reference balance: amounts paid, less a share per occurrence in each split |
| `Balances.FoldKeys` | lib/client-store.ts:272-284 | the loop's keys are exactly the payers and split members |
| `Balances.ExpenseNetsZero` | lib/client-store.ts:273-283 | one expense's credit and debits leave the total unchanged |
| `Balances.FoldSum` | lib/client-store.ts:272-284 | the loop's values sum to zero |
| `Balances.FoldIsBalances` | lib/client-store.ts:268-287 | the loop computes exactly the reference balance map |
| `Balances.GroupBalancesSumToZero` | lib/client-store.ts:268-287 | a group's balances sum to zero |
| `Balances.Credit` | lib/client-store.ts:275-277 | the payer's balance grows by the amount and gains a key; every other balance is unchanged |
| `Balances.Debit` | lib/client-store.ts:280-283 | users outside the split keep their balance; no key is lost, and the only new keys are split members |
| `Balances.Fold` | lib/client-store.ts:272-284 | only payers and split members of the expenses get a key |
| `Balances.FoldStep` | lib/client-store.ts:272-284 | one more expense is one credit followed by its debits |
| `Balances.PendingFold` | lib/client-store.ts:268-287 | the loop over the group's pending expenses yields the specified balances, which sum to zero |
| `Balances.DebitEach` | lib/client-store.ts:280-283 | the inner `for` loop computes the debit of the whole split |
| `Balances.CalculateGroupBalances` | lib/client-store.ts:268-287 | the nested loops return the reference balances of the group's pending expenses, and these sum to zero |
| `Balances.OnlyPendingOfGroupCount` | lib/kv-store.ts:234 | inserting a settled or cancelled expense, or one of another group, changes no balance |
| `Balances.SingleExpense` | lib/client-store.ts:272-284 | for one expense, the balances are its contributions and the participants are its payer and split members |
| `Balances.DinnerShares` | lib/client-store.ts:273 | the example split lists each of A, B and C once, at 30 a share |
| `Balances.DinnerBalances` | lib/client-store.ts:268-287 | 90 paid by A and split between A, B and C gives A +60, B -30 and C -30 |
| `Balances.SettledDinnerBalances` | lib/client-store.ts:270 | the record that the second payment produces, settled with the payments of B and C, leaves the group with no balances |
| `Groups.InitialMembers` | lib/client-store.ts:159 | the creator comes first; every member is the creator or a passed id; every passed id is a member |
| `Groups.InitialMembersCount` | lib/client-store.ts:159 | the creator occurs exactly once; any other id occurs as often as it was passed, so duplicates are kept |
| `Groups.InitialMembersOrder` | lib/kv-store.ts:113 | the ids after the creator keep the order in which they were passed |
| `Groups.TripMembers` | lib/client-store.ts:157-172 | `createGroup("Trip", A, [B, B, C])` yields members A, B, B, C |
| `Groups.AddMember` | lib/store.ts:116-121 | a member already present leaves the group unchanged; otherwise the user is appended; only the members change; old members stay, as a prefix; a duplicate-free list stays duplicate-free |
| `Groups.GroupsOf` | lib/client-store.ts:174-177 | returns exactly the stored groups that list the user, as a subsequence of the store in store order, each as often as it is stored |
| `Groups.FindGroup` | lib/client-store.ts:179-182 | returns the first stored group with the id; returns none exactly when no group has the id |
| `Groups.FindUser` | lib/client-store.ts:107-110 | returns the first stored user with the id; returns none exactly when no user has the id |
| `Groups.ResolveMembers` | lib/client-store.ts:188 | no ids give no users; every result is a stored user whose id is listed; when every id has a user there is one user per id, in order |
| `Groups.ResolveMembersConcat` | lib/client-store.ts:188 | resolving a concatenation of id lists is the concatenation of the resolved parts, so member order is kept |
| `Groups.ResolveMember` | lib/client-store.ts:188 | one id resolves to the first user with that id, or to nothing when no user has it; with the concatenation lemma this fixes the whole result |
| `Groups.MembersOf` | lib/kv-store.ts:138-144 | an unknown group gives no users; otherwise the result is the resolved member list of the first group with the id; every result is a stored user listed in that group |
| `Groups.HasPending` | lib/kv-store.ts:215 | the group has a pending expense exactly when its pending selection is non-empty |
| `Groups.WithoutGroup` | lib/kv-store.ts:221-223 | exactly the groups with another id remain, each as often as it was stored |
| `Groups.WithoutGroupExpenses` | lib/kv-store.ts:226-227 | exactly the expenses of other groups remain, with their splits |
| `Groups.DeletionKeepsOrder` | lib/kv-store.ts:220-229 | the surviving groups and expenses keep their order; when nothing belongs to the group, nothing changes |
| `Groups.TaxiDeletion` | lib/kv-store.ts:210-230 | a pending 50 split between A and B blocks deletion; once it is cancelled, deletion leaves no expense of the group |
| `Groups.SettledGroupHasNoBalances` | lib/kv-store.ts:214-218 | a group that passes the deletion check shows no balances |
| `Groups.DeletionKeepsOtherBalances` | lib/kv-store.ts:225-227 | deleting a group leaves the expenses and the balances of every other group unchanged |
| `ClientStore.LocalStore.CreateUser` | lib/client-store.ts:80-100 | on a clash of email or username, returns an error and leaves the users unchanged; otherwise appends exactly the new user; logins stay unique; groups and expenses are untouched |
| `ClientStore.LocalStore.CreateGroup` | lib/client-store.ts:157-172 | appends one group whose members are the creator, then the other passed ids |
| `ClientStore.LocalStore.CreateExpense` | lib/client-store.ts:203-227 | appends one pending expense with no payments; earlier expenses are unchanged |
| `ClientStore.LocalStore.PayExpense` | lib/client-store.ts:234-257 | the expenses become `PayIn` of the old expenses; nothing else changes |
| `ClientStore.LocalStore.CancelExpense` | lib/client-store.ts:259-266 | the expenses become `CancelIn` of the old expenses; nothing else changes |
| `ClientStore.LocalStore.CalculateGroupBalances` | lib/client-store.ts:268-287 | returns the group's reference balances, which sum to zero |
| `KvStore.KvStore.CreateUser` | lib/kv-store.ts:67-86 | the same uniqueness rule: a clash returns an error and leaves users unchanged; otherwise one user is appended |
| `KvStore.KvStore.CreateGroup` | lib/kv-store.ts:111-126 | appends one group with the creator first; the creator is always a member |
| `KvStore.KvStore.CreateExpense` | lib/kv-store.ts:147-171 | appends one pending expense with no payments |
| `KvStore.KvStore.PayExpense` | lib/kv-store.ts:178-199 | the expenses become `PayIn` of the old expenses |
| `KvStore.KvStore.CancelExpense` | lib/kv-store.ts:201-208 | the expenses become `CancelIn` of the old expenses |
| `KvStore.KvStore.DeleteGroup` | lib/kv-store.ts:210-230 | succeeds iff the group has no pending expense; on failure groups and expenses are unchanged; on success exactly the group and all of its expenses are removed; users are untouched |
| `KvStore.KvStore.CalculateGroupBalances` | lib/kv-store.ts:232-249 | returns the group's reference balances, which sum to zero |
| `OrderedMaps.Values` | lib/store.ts:124 | `Array.from(m.values())` lists one value per key |
| `OrderedMaps.Empty` | lib/store.ts:32-35 | a new `Map` is consistent and empty |
| `OrderedMaps.Set` | lib/store.ts:57 | `Map.set` keeps the map consistent; the key then maps to the value; every other key keeps its value |
| `OrderedMaps.ValuesListed` | lib/store.ts:43 | the listing of `Map.values()` holds each stored value at its key's index, and every stored value |
| `OrderedMaps.ValuesOfNewKey` | lib/store.ts:150 | setting a new key appends its value to the listing |
| `OrderedMaps.ValuesOfExistingKey` | lib/store.ts:57 | setting an existing key replaces its value in place in the listing |
| `OrderedMaps.KeyIndex` | lib/store.ts:159 | a stored key sits at exactly one index |
| `MemStore.SessionUser` | lib/store.ts:94-97 | a user is returned only for a stored session whose user id is stored, and it has that id; nothing is returned when the session is missing, its user id is empty, or that user is not stored |
| `MemStore.SessionAfterCreate` | lib/store.ts:88-97 | after a session is created for a stored, non-empty user id, it yields that user; other sessions are unaffected |
| `MemStore.SessionAfterDelete` | lib/store.ts:94-101 | after a session is deleted it yields nothing; other sessions are unaffected |
| `MemStore.EmptyUserIdSession` | lib/store.ts:96 | a session stored for the empty user id yields nothing, because `""` is falsy |
| `MemStore.StoreUser` | lib/store.ts:57 | setting a user who clashes with nobody keeps users keyed by id and logins unique; a new id appends to the listing |
| `MemStore.StoreGroup` | lib/store.ts:112 | setting a group whose creator is a member and does not repeat keeps the group map sound |
| `MemStore.StoreExpense` | lib/store.ts:150 | setting an expense with a non-empty split keeps the expense map sound; a new id appends to the listing |
| `MemStore.ExpenseAt` | lib/store.ts:159 | the value stored under an id is the first expense with that id in the listing |
| `MemStore.PayPendingStored` | lib/store.ts:158-178 | paying the stored pending expense in place is `PayIn` on the listing, and the keys keep their order |
| `MemStore.NotPendingStored` | lib/store.ts:160 | for a missing or settled expense, both `PayIn` and `CancelIn` leave the listing unchanged |
| `MemStore.PayStored` | lib/store.ts:158-178 | in both cases of the guard, the map `payExpense` leaves lists `PayIn` of the old listing |
| `MemStore.CancelPendingStored` | lib/store.ts:180-185 | cancelling the stored pending expense in place is `CancelIn` on the listing |
| `MemStore.CancelStored` | lib/store.ts:180-185 | in both cases of the guard, the map `cancelExpense` leaves lists `CancelIn` of the old listing |
| `MemStore.MemStore.CreateUser` | lib/store.ts:41-59 | the loop refuses a taken email or username, with the users map unchanged; otherwise the user is set under its id, and appended when the id is new; logins stay unique |
| `MemStore.MemStore.FindUserByEmail` | lib/store.ts:61-66 | the loop returns `FindByEmail` of the users in iteration order |
| `MemStore.MemStore.FindUserByUsername` | lib/store.ts:68-73 | the loop returns `FindByUsername` of the users in iteration order |
| `MemStore.MemStore.FindUserByEmailOrUsername` | lib/store.ts:75-77 | returns the email-first lookup, so an email match wins over a username match |
| `MemStore.MemStore.CreateSession` | lib/store.ts:88-92 | maps the session id to the user id; nothing else changes |
| `MemStore.MemStore.GetSessionUser` | lib/store.ts:94-97 | returns `SessionUser`; a returned user is stored and has the session's user id |
| `MemStore.MemStore.DeleteSession` | lib/store.ts:99-101 | removes exactly that session |
| `MemStore.MemStore.CreateGroup` | lib/store.ts:104-114 | sets a group whose members are exactly `[createdBy]` |
| `MemStore.MemStore.AddGroupMember` | lib/store.ts:116-121 | a missing group changes nothing; otherwise the group becomes `AddMember` of itself; member lists stay duplicate-free and keep the creator |
| `MemStore.MemStore.CreateExpense` | lib/store.ts:132-152 | sets a pending expense with no payments under its id, appended to the listing when the id is new |
| `MemStore.MemStore.PayExpense` | lib/store.ts:158-178 | keys keep their order, and the listing becomes `PayIn` of the old listing, the same transition as the array stores |
| `MemStore.MemStore.CancelExpense` | lib/store.ts:180-185 | keys keep their order, and the listing becomes `CancelIn` of the old listing |
| `MemStore.MemStore.CalculateGroupBalances` | lib/store.ts:192-211 | returns the reference balances over the expenses in insertion order, which sum to zero |

## Left out

- Persistence: `localStorage`, the `@vercel/kv` client, the `typeof window` guards and JSON encoding. Each collection is a field, and a save is an assignment. A missing key (`|| []`) is an empty field.
- Demo seeding (`initializeStorage`, `initializeKV`, `seedData`) and `console.log`. Seeding is start-up data, not ledger logic.
- `async`/`await` and the lost updates that interleaved server calls can cause. The model is sequential, so `deleteGroup` is atomic in it, which the source does not guarantee.
- `Math.random` ids and `new Date()` timestamps. Ids are parameters, and `createdAt`/`paidAt` are dropped.
- Floating-point `number` and the `toFixed` display. Amounts are exact reals, so balances sum to exactly zero here, where floating-point rounding in the source can leave a small remainder.
- Users.SearchUsers: matching lowercases only ASCII `A`-`Z`, because Unicode case mapping of `toLowerCase` is not modelled.
- The order of the returned balance `Map`. `calculateGroupBalances` returns a JavaScript `Map` that iterates in the order users were first set, and the model returns an unordered `map`. No caller in the source iterates over that result.
- An empty `splitWith`. The source would divide by zero, giving `Infinity` or `NaN`. The stores require a non-empty split, which the UI enforces before calling them.
- The current-user operations of the browser store (`setCurrentUser`, `getCurrentUser`, `clearCurrentUser`). They store one JSON value and are session plumbing.
- `getAllUsers`, and the `Map.get` lookups `getUserById`, `getGroupById` and `getExpenseById` of the in-memory store. Each returns a stored collection or entry unchanged.
- Aliasing. The source returns live objects that a caller could mutate; the model returns values.
- Thrown errors. They are modelled as an `Err` result.
- Authentication, cookies and the password check at login (`lib/api.ts`, `app/auth`). The React components and the translation tables are not part of this model.
