/**
 * The expense lifecycle shared by all three stores: paying a share, settling,
 * cancelling, each located by the first expense carrying the requested id.
 */
module Expenses {
  import opened Outcomes
  import opened Seqs
  import opened Entities

  /** Every expense can be shared: its split list is not empty. */
  predicate WellFormed(exps: seq<Expense>) {
    forall e :: e in exps ==> |e.splitWith| > 0
  }

  /** `amount / splitWith.length`. */
  function Share(e: Expense): real
    requires |e.splitWith| > 0
  {
    e.amount / (|e.splitWith| as real)
  }

  /** The ids that have at least one recorded payment. */
  function PaidUserIds(payments: seq<Payment>): set<UserId> {
    set p | p in payments :: p.userId
  }

  /** Every split member other than the payer has paid something. */
  predicate AllPaid(e: Expense) {
    forall m :: m in e.splitWith ==> m == e.paidBy || m in PaidUserIds(e.payments)
  }

  /** `m` had a payment recorded before. */
  predicate HasPaid(payments: seq<Payment>, m: UserId) {
    exists i :: 0 <= i < |payments| && payments[i].userId == m
  }

  /** Paying a pending expense: one payment of a share, then settle if everyone is covered. */
  function Pay(e: Expense, userId: UserId): (r: Expense)
    requires e.status == Pending && |e.splitWith| > 0
    ensures r.payments == e.payments + [Payment(userId, e.amount / (|e.splitWith| as real))]
    ensures r.status == Paid <==>
              forall m :: m in e.splitWith ==> m == e.paidBy || m == userId || HasPaid(e.payments, m)
    ensures r.status != Paid ==> r.status == Pending
    ensures r.(status := e.status, payments := e.payments) == e
  {
    var withPayment := e.(payments := e.payments + [Payment(userId, Share(e))]);
    PaidUserIdsAppend(e.payments, Payment(userId, Share(e)));
    if AllPaid(withPayment) then withPayment.(status := Paid) else withPayment
  }

  lemma PaidUserIdsAppend(payments: seq<Payment>, p: Payment)
    ensures forall m :: m in PaidUserIds(payments + [p]) <==> m == p.userId || HasPaid(payments, m)
  {
    forall m ensures m in PaidUserIds(payments + [p]) <==> m == p.userId || HasPaid(payments, m) {
      if HasPaid(payments, m) {
        var i :| 0 <= i < |payments| && payments[i].userId == m;
        assert (payments + [p])[i] == payments[i];
      }
      if m in PaidUserIds(payments + [p]) && m != p.userId {
        var q :| q in payments + [p] && q.userId == m;
        var i :| 0 <= i < |payments + [p]| && (payments + [p])[i] == q;
        assert i < |payments|;
        assert payments[i] == q;
      }
    }
  }

  /** The index `payExpense`/`cancelExpense` act on (`expenses.find(e => e.id === id)`). */
  function FindExpense(exps: seq<Expense>, id: ExpenseId): (r: Option<nat>)
    ensures r.Some? ==> r.value < |exps| && exps[r.value].id == id
    ensures r.Some? ==> forall j :: 0 <= j < r.value ==> exps[j].id != id
    ensures r.None? <==> forall j :: 0 <= j < |exps| ==> exps[j].id != id
  {
    FirstIndex(exps, (e: Expense) => e.id == id)
  }

  /** `i` is the first expense with id `id`. */
  predicate IsFirst(exps: seq<Expense>, id: ExpenseId, i: nat) {
    i < |exps| && exps[i].id == id && forall j :: 0 <= j < i ==> exps[j].id != id
  }

  lemma FindExpenseIsFirst(exps: seq<Expense>, id: ExpenseId, i: nat)
    requires IsFirst(exps, id, i)
    ensures FindExpense(exps, id) == Some(i)
  {
  }

  /** Only status and payments of an expense ever change. */
  predicate SameRecord(e: Expense, e': Expense) {
    e'.(status := e.status, payments := e.payments) == e
  }

  /** The allowed status moves: stay, or leave pending. */
  predicate StatusStep(s: Status, s': Status) {
    s' == s || s == Pending
  }

  /** `payExpense(expenseId, userId)` on the whole expense collection. */
  function PayIn(exps: seq<Expense>, id: ExpenseId, userId: UserId): (r: seq<Expense>)
    requires WellFormed(exps)
    ensures |r| == |exps| && WellFormed(r)
    ensures forall j :: 0 <= j < |exps| && exps[j].status != Pending ==> r[j] == exps[j]
    ensures forall j :: 0 <= j < |exps| && exps[j].id != id ==> r[j] == exps[j]
    ensures forall j :: 0 <= j < |exps| ==> SameRecord(exps[j], r[j])
    ensures forall j :: 0 <= j < |exps| && exps[j].status == Pending ==> r[j].status != Cancelled
    ensures forall j :: 0 <= j < |exps| ==> StatusStep(exps[j].status, r[j].status)
    ensures (forall j :: 0 <= j < |exps| ==> exps[j].id != id) ==> r == exps
  {
    match FindExpense(exps, id)
    case None => exps
    case Some(i) =>
      if exps[i].status != Pending then exps
      else
        assert exps[i] in exps;
        var r := exps[i := Pay(exps[i], userId)];
        assert forall e :: e in r ==> e in exps || e == r[i];
        r
  }

  /** `cancelExpense(expenseId)` on the whole expense collection. */
  function CancelIn(exps: seq<Expense>, id: ExpenseId): (r: seq<Expense>)
    ensures |r| == |exps|
    ensures WellFormed(exps) ==> WellFormed(r)
    ensures forall j :: 0 <= j < |exps| && (exps[j].status != Pending || exps[j].id != id) ==> r[j] == exps[j]
    ensures forall j :: 0 <= j < |exps| ==> r[j] == exps[j] || r[j] == exps[j].(status := Cancelled)
    ensures forall j :: 0 <= j < |exps| ==> StatusStep(exps[j].status, r[j].status)
    ensures (forall j :: 0 <= j < |exps| ==> exps[j].id != id) ==> r == exps
  {
    match FindExpense(exps, id)
    case None => exps
    case Some(i) =>
      if exps[i].status != Pending then exps
      else
        var r := exps[i := exps[i].(status := Cancelled)];
        assert forall e :: e in r ==> e in exps || e == r[i];
        r
  }

  /**
   * Paying the first expense with the id, when pending, changes that expense alone:
   * it records one share and settles iff everyone is covered.
   */
  lemma PayInPending(exps: seq<Expense>, id: ExpenseId, userId: UserId, i: nat)
    requires WellFormed(exps) && IsFirst(exps, id, i) && exps[i].status == Pending
    ensures PayIn(exps, id, userId) == exps[i := Pay(exps[i], userId)]
    ensures PayIn(exps, id, userId)[i].payments
         == exps[i].payments + [Payment(userId, exps[i].amount / (|exps[i].splitWith| as real))]
    ensures PayIn(exps, id, userId)[i].status == Paid <==>
              forall m :: m in exps[i].splitWith ==> m == exps[i].paidBy || m == userId || HasPaid(exps[i].payments, m)
    ensures PayIn(exps, id, userId)[i].status != Paid ==> PayIn(exps, id, userId)[i].status == Pending
  {
    FindExpenseIsFirst(exps, id, i);
    assert exps[i] in exps;
  }

  /** No expense with the id, or the first one is settled or cancelled: nothing changes. */
  lemma PayInNoop(exps: seq<Expense>, id: ExpenseId, userId: UserId)
    requires WellFormed(exps)
    requires (forall j :: 0 <= j < |exps| ==> exps[j].id != id)
          || (exists i: nat :: IsFirst(exps, id, i) && exps[i].status != Pending)
    ensures PayIn(exps, id, userId) == exps
  {
    if exists i: nat :: IsFirst(exps, id, i) && exps[i].status != Pending {
      var i: nat :| IsFirst(exps, id, i) && exps[i].status != Pending;
      FindExpenseIsFirst(exps, id, i);
    }
  }

  /** Cancelling the first expense with the id, when pending, changes its status and nothing else. */
  lemma CancelInPending(exps: seq<Expense>, id: ExpenseId, i: nat)
    requires IsFirst(exps, id, i) && exps[i].status == Pending
    ensures CancelIn(exps, id) == exps[i := exps[i].(status := Cancelled)]
  {
    FindExpenseIsFirst(exps, id, i);
  }

  /** No expense with the id, or the first one is not pending: nothing changes. */
  lemma CancelInNoop(exps: seq<Expense>, id: ExpenseId)
    requires (forall j :: 0 <= j < |exps| ==> exps[j].id != id)
          || (exists i: nat :: IsFirst(exps, id, i) && exps[i].status != Pending)
    ensures CancelIn(exps, id) == exps
  {
    if exists i: nat :: IsFirst(exps, id, i) && exps[i].status != Pending {
      var i: nat :| IsFirst(exps, id, i) && exps[i].status != Pending;
      FindExpenseIsFirst(exps, id, i);
    }
  }

  /** Cancelling twice is cancelling once. */
  lemma CancelIdempotent(exps: seq<Expense>, id: ExpenseId)
    ensures CancelIn(CancelIn(exps, id), id) == CancelIn(exps, id)
  {
    var r := CancelIn(exps, id);
    match FindExpense(exps, id)
    case None =>
    case Some(i) =>
      if exps[i].status == Pending {
        CancelInPending(exps, id, i);
        assert IsFirst(r, id, i);
        CancelInNoop(r, id);
      }
  }

  /** A paid or cancelled expense is never touched again by either operation. */
  lemma Terminal(exps: seq<Expense>, id: ExpenseId, userId: UserId, j: nat)
    requires WellFormed(exps) && j < |exps| && exps[j].status != Pending
    ensures PayIn(exps, id, userId)[j] == exps[j]
    ensures CancelIn(exps, id)[j] == exps[j]
  {
  }

  /** A dinner of 90 paid by A and split between A, B and C. */
  const Dinner := Expense("x", "g", "dinner", 90.0, "A", ["A", "B", "C"], Pending, [])

  /** B pays 30; C is still uncovered, so the expense stays pending. */
  lemma DinnerFirstPayment()
    ensures PayIn([Dinner], "x", "B") == [Dinner.(payments := [Payment("B", 30.0)])]
  {
    var e := Dinner;
    assert IsFirst([e], "x", 0);
    assert e.amount / (|e.splitWith| as real) == 30.0;
    PayInPending([e], "x", "B", 0);
    var r := PayIn([e], "x", "B");
    assert "C" in e.splitWith && "C" != "A" && "C" != "B" && !HasPaid(e.payments, "C");
    assert r[0].status == Pending;
    assert SameRecord(e, r[0]);
    assert e.payments + [Payment("B", 30.0)] == [Payment("B", 30.0)];
  }

  /** C pays 30; A fronted the money and B has paid, so the expense is settled. */
  lemma DinnerSecondPayment()
    ensures PayIn([Dinner.(payments := [Payment("B", 30.0)])], "x", "C")
         == [Dinner.(payments := [Payment("B", 30.0), Payment("C", 30.0)], status := Paid)]
  {
    var e := Dinner.(payments := [Payment("B", 30.0)]);
    assert IsFirst([e], "x", 0);
    assert e.amount / (|e.splitWith| as real) == 30.0;
    PayInPending([e], "x", "C", 0);
    assert HasPaid(e.payments, "B");
    assert forall m :: m in e.splitWith ==> m == "A" || m == "B" || m == "C";
    var r := PayIn([e], "x", "C");
    assert r[0].status == Paid;
    assert SameRecord(e, r[0]);
    assert r[0].payments == [Payment("B", 30.0), Payment("C", 30.0)];
    assert r[0] == Dinner.(payments := [Payment("B", 30.0), Payment("C", 30.0)], status := Paid);
  }
}
