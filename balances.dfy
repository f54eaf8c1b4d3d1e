/**
 * `calculateGroupBalances`: a fresh recompute over the pending expenses of one
 * group. The payer is credited the full amount, every `splitWith` entry is
 * debited one share. Balances are exact reals, so they sum to exactly zero.
 */
module Balances {
  import opened Seqs
  import opened Entities
  import opened Expenses

  /** `balances.get(u) || 0`. */
  function Get(m: map<UserId, real>, u: UserId): real {
    if u in m then m[u] else 0.0
  }

  /** `getGroupExpenses(groupId)`: the group's expenses, in store order. */
  function GroupExpenses(exps: seq<Expense>, g: GroupId): (r: seq<Expense>)
    ensures forall e :: e in r ==> e in exps && e.groupId == g
    ensures forall e :: e in exps && e.groupId == g ==> e in r
    ensures IsSubsequence(r, exps)
    ensures forall e :: Count(r, e) == if e.groupId == g then Count(exps, e) else 0
    ensures WellFormed(exps) ==> WellFormed(r)
  {
    FilterIsSubsequence(exps, InGroup(g));
    assert forall e :: Count(Filter(exps, InGroup(g)), e) == if e.groupId == g then Count(exps, e) else 0 by {
      forall e
        ensures Count(Filter(exps, InGroup(g)), e) == if e.groupId == g then Count(exps, e) else 0
      {
        FilterCount(exps, InGroup(g), e);
      }
    }
    Filter(exps, InGroup(g))
  }

  /** The test `e => e.groupId === groupId`. */
  function InGroup(g: GroupId): Expense -> bool {
    (e: Expense) => e.groupId == g
  }

  /** The test `e => e.status === "pending"`. */
  function IsPending(): Expense -> bool {
    (e: Expense) => e.status == Pending
  }

  /** `getGroupExpenses(groupId).filter(e => e.status === "pending")`. */
  function GroupPending(exps: seq<Expense>, g: GroupId): (r: seq<Expense>)
    ensures forall e :: e in r ==> e in exps && e.groupId == g && e.status == Pending
    ensures forall e :: e in exps && e.groupId == g && e.status == Pending ==> e in r
    ensures WellFormed(exps) ==> WellFormed(r)
  {
    Filter(GroupExpenses(exps, g), IsPending())
  }

  /** Each pending expense of the group is selected as often as it is stored; every other expense is not selected. */
  lemma GroupPendingCount(exps: seq<Expense>, g: GroupId, e: Expense)
    ensures Count(GroupPending(exps, g), e) == if e.groupId == g && e.status == Pending then Count(exps, e) else 0
  {
    FilterCount(GroupExpenses(exps, g), IsPending(), e);
  }

  lemma GroupPendingConcat(a: seq<Expense>, b: seq<Expense>, g: GroupId)
    ensures GroupPending(a + b, g) == GroupPending(a, g) + GroupPending(b, g)
  {
    FilterConcat(a, b, InGroup(g));
    FilterConcat(GroupExpenses(a, g), GroupExpenses(b, g), IsPending());
  }

  /** What one expense adds to `u`'s balance: the amount if `u` paid, minus one share per occurrence. */
  function Contribution(e: Expense, u: UserId): real
    requires |e.splitWith| > 0
  {
    (if e.paidBy == u then e.amount else 0.0) - Debits(Share(e), Count(e.splitWith, u))
  }

  /** What `n` debits of `share` take away: `n` times `share`. */
  function Debits(share: real, n: nat): real {
    if n == 0 then 0.0 else Debits(share, n - 1) + share
  }

  lemma {:induction false} DebitsIsProduct(share: real, n: nat)
    ensures Debits(share, n) == share * (n as real)
  {
    if n > 0 {
      DebitsIsProduct(share, n - 1);
      ScaleSucc(share, n - 1);
    }
  }

  /** The reference definition: `u`'s balance is the sum of the contributions of all expenses. */
  function Balance(s: seq<Expense>, u: UserId): real
    requires WellFormed(s)
    decreases |s|
  {
    if s == [] then 0.0
    else
      assert forall e :: e in s[..|s| - 1] ==> e in s;
      Balance(s[..|s| - 1], u) + Contribution(s[|s| - 1], u)
  }

  /** The ids an expense is split between. */
  function SplitSet(e: Expense): set<UserId> {
    set u | u in e.splitWith
  }

  /** Everyone who paid or shares one of the expenses. */
  function Participants(s: seq<Expense>): set<UserId>
    decreases |s|
  {
    if s == [] then {}
    else Participants(s[..|s| - 1]) + {s[|s| - 1].paidBy} + SplitSet(s[|s| - 1])
  }

  /** The specification of the returned map: a key per participant, holding that participant's balance. */
  function GroupBalances(exps: seq<Expense>, g: GroupId): (r: map<UserId, real>)
    requires WellFormed(exps)
  {
    BalanceMap(GroupPending(exps, g))
  }

  /** A key per participant of `s`, holding that participant's balance. */
  function BalanceMap(s: seq<Expense>): map<UserId, real>
    requires WellFormed(s)
  {
    map u | u in Participants(s) :: Balance(s, u)
  }

  // The recompute step by step: credit the payer, then debit each split member.

  /** `balances.set(paidBy, payerBalance + amount)`. */
  function Credit(m: map<UserId, real>, e: Expense): (r: map<UserId, real>)
    ensures Get(r, e.paidBy) == Get(m, e.paidBy) + e.amount
    ensures forall u :: u != e.paidBy ==> Get(r, u) == Get(m, u)
    ensures r.Keys == m.Keys + {e.paidBy}
  {
    m[e.paidBy := Get(m, e.paidBy) + e.amount]
  }

  /** The inner loop: debit one share from each entry of `splits`, in order. */
  function Debit(m: map<UserId, real>, splits: seq<UserId>, share: real): (r: map<UserId, real>)
    ensures forall u :: u !in splits ==> Get(r, u) == Get(m, u)
    ensures m.Keys <= r.Keys
    ensures forall u :: u in r ==> u in m || u in splits
    decreases |splits|
  {
    if splits == [] then m
    else
      assert forall x :: x in splits[..|splits| - 1] ==> x in splits;
      var p := Debit(m, splits[..|splits| - 1], share);
      var u := splits[|splits| - 1];
      p[u := Get(p, u) - share]
  }

  /** The outer loop over the expenses `s`. */
  function Fold(s: seq<Expense>): (r: map<UserId, real>)
    requires WellFormed(s)
    ensures forall u :: u in r ==> u in Participants(s)
    decreases |s|
  {
    if s == [] then map[]
    else
      var e := s[|s| - 1];
      assert e in s && forall x :: x in s[..|s| - 1] ==> x in s;
      Debit(Credit(Fold(s[..|s| - 1]), e), e.splitWith, Share(e))
  }

  /** The sum of the values of a map. */
  ghost function SumMap(m: map<UserId, real>): real
    decreases |m|
  {
    if m == map[] then 0.0 else var k :| k in m; m[k] + SumMap(m - {k})
  }

  lemma {:induction false} SumMapRemove(m: map<UserId, real>, k: UserId)
    requires k in m
    ensures SumMap(m) == m[k] + SumMap(m - {k})
    decreases |m|
  {
    var j :| j in m && SumMap(m) == m[j] + SumMap(m - {j});
    if j != k {
      SumMapRemove(m - {j}, k);
      SumMapRemove(m - {k}, j);
      assert m - {j} - {k} == m - {k} - {j};
    }
  }

  /** Setting one key changes the sum by the difference at that key. */
  lemma SumMapUpdate(m: map<UserId, real>, k: UserId, v: real)
    ensures SumMap(m[k := v]) == SumMap(m) - Get(m, k) + v
  {
    SumMapRemove(m[k := v], k);
    assert m[k := v] - {k} == m - {k};
    if k in m {
      SumMapRemove(m, k);
    } else {
      assert m - {k} == m;
    }
  }

  lemma ScaleSucc(share: real, c: nat)
    ensures share * ((c + 1) as real) == share * (c as real) + share
  {
  }

  lemma {:induction false} DebitValue(m: map<UserId, real>, splits: seq<UserId>, share: real, u: UserId)
    ensures Get(Debit(m, splits, share), u) == Get(m, u) - Debits(share, Count(splits, u))
    decreases |splits|
  {
    if splits != [] {
      var init := splits[..|splits| - 1];
      var last := splits[|splits| - 1];
      var p := Debit(m, init, share);
      DebitValue(m, init, share, u);
      assert Count(splits, u) == Count(init, u) + (if last == u then 1 else 0);
    }
  }

  lemma {:induction false} DebitKeys(m: map<UserId, real>, splits: seq<UserId>, share: real)
    ensures Debit(m, splits, share).Keys == m.Keys + (set u | u in splits)
    decreases |splits|
  {
    if splits != [] {
      var init := splits[..|splits| - 1];
      DebitKeys(m, init, share);
      assert splits == init + [splits[|splits| - 1]];
      assert (set u | u in splits) == (set u | u in init) + {splits[|splits| - 1]};
    }
  }

  lemma {:induction false} DebitSum(m: map<UserId, real>, splits: seq<UserId>, share: real)
    ensures SumMap(Debit(m, splits, share)) == SumMap(m) - Debits(share, |splits|)
    decreases |splits|
  {
    if splits != [] {
      var init := splits[..|splits| - 1];
      var p := Debit(m, init, share);
      var u := splits[|splits| - 1];
      assert Debit(m, splits, share) == p[u := Get(p, u) - share];
      DebitSum(m, init, share);
      SumMapUpdate(p, u, Get(p, u) - share);
    }
  }

  lemma {:induction false} FoldValue(s: seq<Expense>, u: UserId)
    requires WellFormed(s)
    ensures Get(Fold(s), u) == Balance(s, u)
    decreases |s|
  {
    if s != [] {
      var e := s[|s| - 1];
      assert e in s && forall x :: x in s[..|s| - 1] ==> x in s;
      FoldValue(s[..|s| - 1], u);
      DebitValue(Credit(Fold(s[..|s| - 1]), e), e.splitWith, Share(e), u);
    }
  }

  lemma {:induction false} FoldKeys(s: seq<Expense>)
    requires WellFormed(s)
    ensures Fold(s).Keys == Participants(s)
    decreases |s|
  {
    if s != [] {
      var e := s[|s| - 1];
      assert e in s && forall x :: x in s[..|s| - 1] ==> x in s;
      FoldKeys(s[..|s| - 1]);
      DebitKeys(Credit(Fold(s[..|s| - 1]), e), e.splitWith, Share(e));
    }
  }

  lemma ShareTimesCount(e: Expense)
    requires |e.splitWith| > 0
    ensures Share(e) * (|e.splitWith| as real) == e.amount
  {
  }

  /** One expense credits its amount once and debits it back share by share: the sum is unchanged. */
  lemma ExpenseNetsZero(m: map<UserId, real>, e: Expense)
    requires |e.splitWith| > 0
    ensures SumMap(Debit(Credit(m, e), e.splitWith, Share(e))) == SumMap(m)
  {
    var c := Credit(m, e);
    SumMapUpdate(m, e.paidBy, Get(m, e.paidBy) + e.amount);
    assert SumMap(c) == SumMap(m) + e.amount;
    DebitSum(c, e.splitWith, Share(e));
    DebitsOfShare(e);
  }

  /** The shares of one expense add back up to its amount. */
  lemma DebitsOfShare(e: Expense)
    requires |e.splitWith| > 0
    ensures Debits(Share(e), |e.splitWith|) == e.amount
  {
    DebitsIsProduct(Share(e), |e.splitWith|);
    ShareTimesCount(e);
  }

  /** The balances the loop builds always sum to zero. */
  lemma {:induction false} FoldSum(s: seq<Expense>)
    requires WellFormed(s)
    ensures SumMap(Fold(s)) == 0.0
    decreases |s|
  {
    if s != [] {
      var e := s[|s| - 1];
      assert e in s && forall x :: x in s[..|s| - 1] ==> x in s;
      FoldSum(s[..|s| - 1]);
      ExpenseNetsZero(Fold(s[..|s| - 1]), e);
    }
  }

  /** Folding the expenses into a balance map, crediting each payer and debiting each split member, gives the reference balances. */
  lemma FoldIsBalances(s: seq<Expense>)
    requires WellFormed(s)
    ensures Fold(s) == BalanceMap(s)
  {
    FoldKeys(s);
    forall u | u in Participants(s) ensures Fold(s)[u] == Balance(s, u) {
      FoldValue(s, u);
    }
  }

  /** Balances of a group always sum to zero. */
  lemma GroupBalancesSumToZero(exps: seq<Expense>, g: GroupId)
    requires WellFormed(exps)
    ensures SumMap(GroupBalances(exps, g)) == 0.0
  {
    var p := GroupPending(exps, g);
    FoldIsBalances(p);
    FoldSum(p);
  }

  /** One more turn of the outer loop. */
  lemma FoldStep(s: seq<Expense>, k: nat)
    requires WellFormed(s) && k < |s|
    ensures WellFormed(s[..k]) && |s[k].splitWith| > 0
    ensures Fold(s[..k + 1]) == Debit(Credit(Fold(s[..k]), s[k]), s[k].splitWith, Share(s[k]))
  {
    assert s[k] in s;
    assert forall x :: x in s[..k] ==> x in s;
    assert s[..k + 1][..k] == s[..k];
  }

  /** The outer loop's result is the specified map, and it sums to zero. */
  lemma PendingFold(exps: seq<Expense>, g: GroupId)
    requires WellFormed(exps)
    ensures Fold(GroupPending(exps, g)) == GroupBalances(exps, g)
    ensures SumMap(GroupBalances(exps, g)) == 0.0
  {
    FoldIsBalances(GroupPending(exps, g));
    GroupBalancesSumToZero(exps, g);
  }

  /** The inner loop of `calculateGroupBalances`: debit one share per entry of `splits`. */
  method DebitEach(m: map<UserId, real>, splits: seq<UserId>, share: real) returns (balances: map<UserId, real>)
    ensures balances == Debit(m, splits, share)
  {
    balances := m;
    var j := 0;
    while j < |splits|
      invariant 0 <= j <= |splits|
      invariant balances == Debit(m, splits[..j], share)
    {
      var u := splits[j];
      assert splits[..j + 1][..j] == splits[..j];
      balances := balances[u := Get(balances, u) - share];
      j := j + 1;
    }
    assert splits[..j] == splits;
  }

  /** `calculateGroupBalances(groupId)`: the loop over the group's pending expenses. */
  method CalculateGroupBalances(exps: seq<Expense>, g: GroupId) returns (balances: map<UserId, real>)
    requires WellFormed(exps)
    ensures balances == GroupBalances(exps, g)
    ensures SumMap(balances) == 0.0
  {
    var pending := GroupPending(exps, g);
    balances := map[];
    var k := 0;
    while k < |pending|
      invariant 0 <= k <= |pending|
      invariant balances == Fold(pending[..k])
    {
      var e := pending[k];
      FoldStep(pending, k);
      balances := Credit(balances, e);
      balances := DebitEach(balances, e.splitWith, Share(e));
      k := k + 1;
    }
    assert pending[..k] == pending;
    PendingFold(exps, g);
  }

  /** Paid or cancelled expenses, and those of other groups, contribute nothing. */
  lemma OnlyPendingOfGroupCount(a: seq<Expense>, e: Expense, b: seq<Expense>, g: GroupId)
    requires WellFormed(a + [e] + b)
    requires e.groupId != g || e.status != Pending
    ensures WellFormed(a + b)
    ensures GroupBalances(a + [e] + b, g) == GroupBalances(a + b, g)
  {
    assert forall x :: x in a + b ==> x in a + [e] + b;
    GroupPendingConcat(a + [e], b, g);
    GroupPendingConcat(a, [e], g);
    GroupPendingConcat(a, b, g);
    assert GroupPending([e], g) == [] by {
      assert forall x :: x in GroupPending([e], g) ==> x == e;
    }
    assert GroupPending(a, g) + [] == GroupPending(a, g);
  }

  /** A single expense: its contributions are the balances, its payer and split the participants. */
  lemma SingleExpense(e: Expense)
    requires |e.splitWith| > 0
    ensures forall u :: Balance([e], u) == Contribution(e, u)
    ensures Participants([e]) == {e.paidBy} + SplitSet(e)
  {
    assert [e][..0] == [];
  }

  /** The dinner's split lists each of A, B and C once, at 30 a share. */
  lemma DinnerShares()
    ensures Count(Dinner.splitWith, "A") == 1 && Count(Dinner.splitWith, "B") == 1 && Count(Dinner.splitWith, "C") == 1
    ensures Share(Dinner) == 30.0
    ensures SplitSet(Dinner) == {"A", "B", "C"}
  {
    var split := Dinner.splitWith;
    assert split[..2][..1] == ["A"] && split[..2] == ["A", "B"] && split[..3] == split;
  }

  /** 90 paid by A and split between A, B and C gives A +60, B -30, C -30. */
  lemma DinnerBalances()
    ensures GroupBalances([Dinner], "g") == map["A" := 60.0, "B" := -30.0, "C" := -30.0]
  {
    var s := [Dinner];
    assert GroupPending(s, "g") == s by {
      FilterKeepsAll(s, InGroup("g"));
      FilterKeepsAll(s, IsPending());
    }
    SingleExpense(Dinner);
    DinnerShares();
    assert Contribution(Dinner, "A") == 60.0;
    assert Contribution(Dinner, "B") == -30.0;
    assert Contribution(Dinner, "C") == -30.0;
  }

  /** Once B and C have paid, the settled dinner leaves the balance view. */
  lemma SettledDinnerBalances()
    ensures GroupBalances([Dinner.(payments := [Payment("B", 30.0), Payment("C", 30.0)], status := Paid)], "g") == map[]
  {
    var s := [Dinner.(payments := [Payment("B", 30.0), Payment("C", 30.0)], status := Paid)];
    assert forall x :: x in GroupPending(s, "g") ==> x in s && x.status == Pending;
    assert GroupPending(s, "g") == [];
  }
}
