/**
  What each event does, in the terms of the provider contract: which status an event of each
  kind leaves, which refund events credit, and what a payment or an order is opened with.
  Everything is said of the event's and the rows' fields.
 */
module LedgerRules {
  import opened Common
  import opened Ledger
  import opened LedgerRefunds

  function PaymentOf(e: Event): Key { Key(e.scope, e.paymentRef) }

  function RefundOf(e: Event): Key {
    Key(e.scope, if e.refundRef != "" then e.refundRef else "event:" + e.externalId)
  }

  /** The amount a refund event reports. */
  function Reported(e: Event): nat { if e.refundAmount != 0 then e.refundAmount else e.amount }

  function StatusOf(t: Tables, k: Key): PaymentStatus {
    if k in t.payments then t.payments[k].status else Created
  }

  predicate OnRefund(e: Event) { e.kind in {RefundCreated, RefundFailed, RefundUpdated} }

  // ---------------------------------------------------------------- payment status

  /** What the kinds of payment event make of a status. */
  predicate Leaves(kind: EventKind, before: PaymentStatus, after: PaymentStatus) {
    && (kind in {PaymentCreated, ConnectorHealth} ==> after == before)
    && (kind == PaymentAuthorized ==> after == if before in {Success, Refunded} then before else Authorized)
    && (kind == PaymentFailed ==> after == if before in {Success, Refunded} then before else Failed)
    && (kind == PaymentTimeout ==> after == if before in {Success, Refunded, Failed} then before else TimedOut)
    && (kind in {PaymentSuccess, OrderPaid} ==> after == Refunded || (after == Success && before != Refunded))
  }

  lemma {:induction false} SettlingOnlyRefunds(p: Payment, refunds: map<Key, Refund>, k: Key, order: seq<Key>)
    ensures SettleAll(p, refunds, k, order).0.status in {p.status, Refunded}
    decreases |order|
  {
    if order != [] {
      if Held(refunds, order[0], k) {
        var row := refunds[order[0]];
        SettlingOnlyRefunds(SettledPayment(p, row), refunds[order[0] := SettledRow(p, row)], k, order[1..]);
      } else {
        SettlingOnlyRefunds(p, refunds, k, order[1..]);
      }
    }
  }

  lemma RowLeaves(t: Tables, e: Event)
    ensures Leaves(e.kind, EnsuredPayment(t.payments, e).status, PaymentAfter(t, e).status)
  {
    var p := EnsuredPayment(t.payments, e);
    if !Blocked(p, e) && IsCapture(e.kind) {
      SettlingOnlyRefunds(Advanced(p, e), t.refunds, PaymentKey(e), t.refundOrder);
    }
  }

  /** The status a payment event leaves: a capture is for good, the others move as far as they may. */
  lemma StatusAfter(t: Tables, e: Event)
    ensures Leaves(e.kind, StatusOf(t, PaymentOf(e)), StatusOf(Apply(t, e), PaymentOf(e)))
  {
    hide Apply, PaymentAfter;
    RowLeaves(t, e);
    OnlyOnePaymentChanges(t, e);
  }

  /** A capture ends in `refunded` exactly if the refunds held for it come to the whole amount. */
  lemma CaptureStatus(t: Tables, e: Event)
    requires SoundLedger(t) && e.kind in {PaymentSuccess, OrderPaid} && StatusOf(t, PaymentOf(e)) != Refunded
    ensures var p := Apply(t, e).payments[PaymentOf(e)];
      p.amount > 0 ==> (p.status == Refunded <==> p.refunded == p.amount)
  {
    SoundStep(t, e);
    OnlyOnePaymentChanges(t, e);
  }

  /** No other payment of any tenant changes. */
  lemma OthersStay(t: Tables, e: Event, k: Key)
    requires k != PaymentOf(e)
    ensures k in Apply(t, e).payments <==> k in t.payments
    ensures k in t.payments ==> Apply(t, e).payments[k] == t.payments[k]
  {
    OnlyOnePaymentChanges(t, e);
  }

  // ---------------------------------------------------------------- payment rows

  /** The status event the payment refuses, in the terms of its status before. */
  predicate Refused(t: Tables, e: Event) {
    var before := StatusOf(t, PaymentOf(e));
    || (e.kind == PaymentCreated && before != Created)
    || (e.kind in {PaymentAuthorized, PaymentFailed} && before in {Success, Refunded})
    || (e.kind == PaymentTimeout && before in {Failed, Success, Refunded})
    || (e.kind in {PaymentSuccess, OrderPaid} && before == Refunded)
  }

  lemma RefusedExactly(t: Tables, e: Event)
    ensures Blocked(EnsuredPayment(t.payments, e), e) <==> Refused(t, e)
  {
    assert EnsuredPayment(t.payments, e).status == StatusOf(t, PaymentOf(e));
  }

  /** A payment is opened with the principal the event gives, or else the event's own amount. */
  lemma PaymentOpened(t: Tables, e: Event)
    requires PaymentOf(e) !in t.payments
    ensures var p := Apply(t, e).payments[PaymentOf(e)];
      && p.amount == (if e.paymentAmount != 0 then e.paymentAmount else e.amount)
      && p.orderRef == e.orderRef && p.occurredAt == e.occurredAt
      && (OnRefund(e) ==> p.status == Created && p.refunded == 0)
  {
    OnlyOnePaymentChanges(t, e);
    RowKept(t, e);
  }

  /** An event on record keeps the principal, and completes the order reference only if there is none. */
  lemma PaymentUpdated(t: Tables, e: Event)
    requires PaymentOf(e) in t.payments
    ensures var p, q := t.payments[PaymentOf(e)], Apply(t, e).payments[PaymentOf(e)];
      && q.amount == p.amount
      && q.orderRef == (if p.orderRef == "" then e.orderRef else p.orderRef)
      && q.occurredAt == (if Refused(t, e) || e.occurredAt < p.occurredAt then p.occurredAt else e.occurredAt)
  {
    RefusedExactly(t, e);
    OnlyOnePaymentChanges(t, e);
    RowKept(t, e);
  }

  lemma RowKept(t: Tables, e: Event)
    ensures var p, q := EnsuredPayment(t.payments, e), PaymentAfter(t, e);
      && q.amount == p.amount && q.orderRef == p.orderRef
      && q.occurredAt == (if Blocked(p, e) then p.occurredAt else Max(p.occurredAt, e.occurredAt))
  {
    var p := EnsuredPayment(t.payments, e);
    if !Blocked(p, e) && IsCapture(e.kind) {
      SettleAllKeepsRest(Advanced(p, e), t.refunds, PaymentKey(e), t.refundOrder);
    }
  }

  lemma {:induction false} SettleAllKeepsRest(p: Payment, refunds: map<Key, Refund>, k: Key, order: seq<Key>)
    ensures var q := SettleAll(p, refunds, k, order).0;
      q.amount == p.amount && q.orderRef == p.orderRef && q.occurredAt == p.occurredAt
    decreases |order|
  {
    if order != [] {
      if Held(refunds, order[0], k) {
        var row := refunds[order[0]];
        SettleAllKeepsRest(SettledPayment(p, row), refunds[order[0] := SettledRow(p, row)], k, order[1..]);
      } else {
        SettleAllKeepsRest(p, refunds, k, order[1..]);
      }
    }
  }

  // ---------------------------------------------------------------- refunds

  /**
    The event says that the refund went through: explicitly, or by `refund.created` without a
    status from a provider that sends it only then, which Razorpay is not.
   */
  predicate SaysProcessed(e: Event) {
    e.kind == RefundCreated &&
      (e.refundStatus == Some(RProcessed) || (e.refundStatus == None && e.scope.provider != "razorpay"))
  }

  /** The reference is new, or known for the reported amount. */
  predicate SameAmount(t: Tables, e: Event) {
    RefundOf(e) in t.refunds ==> t.refunds[RefundOf(e)].amount == Reported(e)
  }

  predicate ProcessedBefore(t: Tables, e: Event) {
    RefundOf(e) in t.refunds && t.refunds[RefundOf(e)].status == RProcessed
  }

  /** The event's payment is captured, and what it has not yet refunded covers the reported amount. */
  predicate Covers(t: Tables, e: Event) {
    && StatusOf(t, PaymentOf(e)) in {Success, Refunded}
    && t.payments[PaymentOf(e)].refunded + Reported(e) <= t.payments[PaymentOf(e)].amount
  }

  /** The event credits its refund. */
  predicate Earns(t: Tables, e: Event) {
    SaysProcessed(e) && SameAmount(t, e) && !ProcessedBefore(t, e) && Covers(t, e)
  }

  lemma RefundApplied(t: Tables, e: Event)
    requires OnRefund(e)
    ensures Apply(t, e).refunds ==
      t.refunds[RefundOf(e) := RefundRowAfter(EnsuredPayment(t.payments, e), EnsuredRefund(t.refunds, e), e)]
    ensures Apply(t, e).payments == t.payments[PaymentOf(e) :=
      Touched(RefundPaymentAfter(EnsuredPayment(t.payments, e), EnsuredRefund(t.refunds, e), e), e)]
  {}

  /** A refund event turns its row processed, and credits its payment, exactly if it earns that. */
  lemma CreditsExactly(t: Tables, e: Event)
    requires OnRefund(e)
    ensures var u, k, r := Apply(t, e), PaymentOf(e), RefundOf(e);
      && r in u.refunds && k in u.payments
      && (u.refunds[r].status == RProcessed && !ProcessedBefore(t, e) <==> Earns(t, e))
      && u.payments[k].refunded == (if k in t.payments then t.payments[k].refunded else 0)
                                   + (if Earns(t, e) then Reported(e) else 0)
      && u.payments[k].status == if Earns(t, e) && u.payments[k].refunded == u.payments[k].amount then Refunded
                                 else StatusOf(t, k)
  {
    hide Apply;
    RefundApplied(t, e);
  }

  /** A new refund row belongs to the event's payment, for the reported amount; a known one keeps both. */
  lemma RefundRow(t: Tables, e: Event)
    requires OnRefund(e)
    ensures var u, r := Apply(t, e), RefundOf(e);
      && r in u.refunds
      && (u.refunds[r].payment == if r in t.refunds then t.refunds[r].payment else PaymentOf(e))
      && (u.refunds[r].amount == if r in t.refunds then t.refunds[r].amount else Reported(e))
      && forall x :: x != r ==>
           (x in u.refunds <==> x in t.refunds) && (x in t.refunds ==> u.refunds[x] == t.refunds[x])
  {
    hide Apply;
    RefundApplied(t, e);
  }

  /** A changed amount, or a failure, is final; an update or an open status never credits. */
  lemma RefusedStatuses(t: Tables, e: Event)
    requires OnRefund(e)
    ensures var after := Apply(t, e).refunds[RefundOf(e)].status;
      && (!SameAmount(t, e) ==> after == RRejected)
      && (e.kind == RefundFailed && SameAmount(t, e) ==> after == RFailed)
      && (e.kind == RefundUpdated && SameAmount(t, e) ==>
            after == if ProcessedBefore(t, e) then RProcessed else RUpdated)
  {
    hide Apply;
    RefundApplied(t, e);
  }

  /** The row status `refund.created` leaves, for each status it may carry. */
  lemma CreatedStatuses(t: Tables, e: Event)
    requires e.kind == RefundCreated && SameAmount(t, e)
    ensures var after := Apply(t, e).refunds[RefundOf(e)].status;
      && (SaysProcessed(e) ==>
            after == if ProcessedBefore(t, e) || Covers(t, e) then RProcessed
                     else if StatusOf(t, PaymentOf(e)) in {Success, Refunded} then RRejected
                     else RPendingReconciliation)
      && (e.refundStatus == None && e.scope.provider == "razorpay" ==>
            after == if ProcessedBefore(t, e) then RProcessed else RCreated)
      && (e.refundStatus.Some? && e.refundStatus.value in {RCreated, RPending, RUpdated} ==>
            after == if ProcessedBefore(t, e) then RProcessed else e.refundStatus.value)
      && (e.refundStatus.Some? && e.refundStatus.value !in {RProcessed, RCreated, RPending, RUpdated} ==>
            after == e.refundStatus.value)
  {
    hide Apply;
    RefundApplied(t, e);
  }

  // ---------------------------------------------------------------- held refunds at the capture

  predicate Waiting(refunds: map<Key, Refund>, r: Key, k: Key) {
    r in refunds && refunds[r].payment == k && refunds[r].status == RPendingReconciliation
  }

  /** What the refunds that were waiting, of these, and are processed now come to. */
  function SettledSum(before: map<Key, Refund>, after: map<Key, Refund>, k: Key, order: seq<Key>): nat {
    if order == [] then 0
    else
      var r := order[|order| - 1];
      SettledSum(before, after, k, order[..|order| - 1])
      + if Waiting(before, r, k) && r in after && after[r].status == RProcessed then before[r].amount else 0
  }

  lemma {:induction false} SettleAllSnoc(p: Payment, refunds: map<Key, Refund>, k: Key, order: seq<Key>, r: Key)
    ensures SettleAll(p, refunds, k, order + [r]) ==
      var (q, rs) := SettleAll(p, refunds, k, order);
      if Held(rs, r, k) then (SettledPayment(q, rs[r]), rs[r := SettledRow(q, rs[r])]) else (q, rs)
    decreases |order|
  {
    if order == [] {
      assert [] + [r] == [r];
    } else {
      assert (order + [r])[0] == order[0] && (order + [r])[1..] == order[1..] + [r];
      if Held(refunds, order[0], k) {
        var row := refunds[order[0]];
        SettleAllSnoc(SettledPayment(p, row), refunds[order[0] := SettledRow(p, row)], k, order[1..], r);
      } else {
        SettleAllSnoc(p, refunds, k, order[1..], r);
      }
    }
  }

  ghost predicate AllDifferent(order: seq<Key>) {
    forall i, j :: 0 <= i < j < |order| ==> order[i] != order[j]
  }

  lemma {:induction false} SettledSumFrame(
    before: map<Key, Refund>, after: map<Key, Refund>, k: Key, order: seq<Key>, r: Key, row: Refund)
    requires r !in order
    ensures SettledSum(before, after[r := row], k, order) == SettledSum(before, after, k, order)
  {
    if order != [] {
      assert order[|order| - 1] in order;
      SettledSumFrame(before, after, k, order[..|order| - 1], r, row);
    }
  }

  /** Rows not in the list are left alone. */
  lemma {:induction false} SettleAllFrame(p: Payment, refunds: map<Key, Refund>, k: Key, order: seq<Key>, r: Key)
    requires r !in order && r in refunds
    ensures var rs := SettleAll(p, refunds, k, order).1; r in rs && rs[r] == refunds[r]
    decreases |order|
  {
    if order != [] {
      if Held(refunds, order[0], k) {
        var row := refunds[order[0]];
        SettleAllFrame(SettledPayment(p, row), refunds[order[0] := SettledRow(p, row)], k, order[1..], r);
      } else {
        SettleAllFrame(p, refunds, k, order[1..], r);
      }
    }
  }

  lemma {:induction false} SettledAmount(p: Payment, refunds: map<Key, Refund>, k: Key, order: seq<Key>)
    requires AllDifferent(order) && forall r :: r in order ==> r in refunds
    ensures var (q, rs) := SettleAll(p, refunds, k, order);
      q.amount == p.amount && q.refunded == p.refunded + SettledSum(refunds, rs, k, order)
  {
    if order != [] {
      var init, r := order[..|order| - 1], order[|order| - 1];
      assert order == init + [r] && r !in init;
      SettledAmount(p, refunds, k, init);
      SettleAllSnoc(p, refunds, k, init, r);
      SettleAllFrame(p, refunds, k, init, r);
      var (q, rs) := SettleAll(p, refunds, k, init);
      SettledSumFrame(refunds, rs, k, init, r, SettledRow(q, refunds[r]));
    }
  }

  /**
    Oldest first: a waiting refund is processed exactly if it fits into what the older ones
    have left of the principal, and is rejected otherwise.
   */
  lemma {:induction false} OldestFirst(p: Payment, refunds: map<Key, Refund>, k: Key, order: seq<Key>, j: nat)
    requires AllDifferent(order) && (forall r :: r in order ==> r in refunds)
    requires j < |order| && Waiting(refunds, order[j], k)
    ensures var rs := SettleAll(p, refunds, k, order).1;
      && order[j] in rs
      && rs[order[j]].status ==
         if p.refunded + SettledSum(refunds, rs, k, order[..j]) + refunds[order[j]].amount <= p.amount then RProcessed
         else RRejected
  {
    var init, r := order[..|order| - 1], order[|order| - 1];
    var (q, rs) := SettleAll(p, refunds, k, init);
    assert order == init + [r] && r !in init;
    SettleAllSnoc(p, refunds, k, init, r);
    SettleAllFrame(p, refunds, k, init, r);
    if j == |init| {
      SettledAmount(p, refunds, k, init);
      SettledSumFrame(refunds, rs, k, init, r, SettledRow(q, refunds[r]));
      assert order[..j] == init;
    } else {
      OldestFirst(p, refunds, k, init, j);
      assert init[j] == order[j] && init[..j] == order[..j] && r !in order[..j];
      SettledSumFrame(refunds, rs, k, order[..j], r, SettledRow(q, refunds[r]));
    }
  }

  // ---------------------------------------------------------------- the repair

  /** Those of the refunds that wait for a payment's capture. */
  function WaitingOf(refunds: map<Key, Refund>, k: Key, order: seq<Key>): set<Key> {
    set r | r in order && Waiting(refunds, r, k)
  }

  lemma WaitingSnoc(refunds: map<Key, Refund>, k: Key, init: seq<Key>, last: Key)
    requires last !in init
    ensures |WaitingOf(refunds, k, init + [last])| ==
      |WaitingOf(refunds, k, init)| + if Waiting(refunds, last, k) then 1 else 0
  {
    hide Waiting;
    var before, after := WaitingOf(refunds, k, init), WaitingOf(refunds, k, init + [last]);
    assert forall r :: r in init + [last] <==> r in init || r == last;
    assert after == before + if Waiting(refunds, last, k) then {last} else {};
  }

  lemma {:induction false} HeldCountExactly(refunds: map<Key, Refund>, k: Key, order: seq<Key>)
    requires AllDifferent(order)
    ensures HeldCount(refunds, k, order) == |WaitingOf(refunds, k, order)|
  {
    if order != [] {
      hide WaitingOf;
      var init, last := order[..|order| - 1], order[|order| - 1];
      assert order == init + [last] && last !in init;
      HeldCountExactly(refunds, k, init);
      WaitingSnoc(refunds, k, init, last);
    }
  }

  /** The row is what the repair makes of a refund, given what is already refunded of the principal. */
  predicate Repaired(before: Refund, after: Refund, principal: nat, refunded: nat) {
    after == before.(status := if refunded + before.amount <= principal then RProcessed else RRejected)
  }

  /** The waiting refunds are settled one by one, the oldest first, as far as the principal goes. */
  ghost predicate SettlesInOrder(
    p: Payment, before: map<Key, Refund>, after: map<Key, Refund>, k: Key, order: seq<Key>)
  {
    forall j :: 0 <= j < |order| && Waiting(before, order[j], k) ==>
      && order[j] in after
      && Repaired(before[order[j]], after[order[j]], p.amount, p.refunded + SettledSum(before, after, k, order[..j]))
  }

  lemma AllSettle(p: Payment, refunds: map<Key, Refund>, k: Key, order: seq<Key>)
    requires Listed(refunds, order)
    ensures SettlesInOrder(p, refunds, SettleAll(p, refunds, k, order).1, k, order)
  {
    hide SettleAll, SettledSum;
    SettleAllKeepsRows(p, refunds, k, order);
    forall j | 0 <= j < |order| && Waiting(refunds, order[j], k)
      ensures
        var after := SettleAll(p, refunds, k, order).1;
        && order[j] in after
        && Repaired(
             refunds[order[j]], after[order[j]], p.amount, p.refunded + SettledSum(refunds, after, k, order[..j]))
    {
      OldestFirst(p, refunds, k, order, j);
    }
  }

  /**
    The repair of a captured payment reports its waiting refunds and settles them, and
    touches nothing else; it leaves a payment that is not captured alone.
   */
  lemma RepairExactly(t: Tables, k: Key)
    requires Listed(t.refunds, t.refundOrder)
    ensures var u := Reconcile(t, k);
      if StatusOf(t, k) !in {Success, Refunded} then u == t && Examined(t, k) == 0
      else
        var p, q := t.payments[k], if k in u.payments then u.payments[k] else t.payments[k];
        && Examined(t, k) == |WaitingOf(t.refunds, k, t.refundOrder)|
        && u == t.(payments := t.payments[k := q], refunds := u.refunds) && u.refunds.Keys == t.refunds.Keys
        && q.amount == p.amount && q.refunded == p.refunded + SettledSum(t.refunds, u.refunds, k, t.refundOrder)
        && (forall r :: r in t.refunds && !Waiting(t.refunds, r, k) ==> u.refunds[r] == t.refunds[r])
        && SettlesInOrder(p, t.refunds, u.refunds, k, t.refundOrder)
  {
    hide SettleAll, SettledSum, SettlesInOrder, HeldCount, WaitingOf;
    if StatusOf(t, k) in {Success, Refunded} {
      var p := t.payments[k];
      SettledAmount(p, t.refunds, k, t.refundOrder);
      SettleAllKeepsRows(p, t.refunds, k, t.refundOrder);
      HeldCountExactly(t.refunds, k, t.refundOrder);
      AllSettle(p, t.refunds, k, t.refundOrder);
    }
  }

  // ---------------------------------------------------------------- orders

  /** The order an event is about: the one it names, or else its payment's. */
  function OrderNamed(t: Tables, e: Event): string {
    if e.orderRef != "" then e.orderRef
    else if PaymentOf(e) in t.payments then t.payments[PaymentOf(e)].orderRef
    else ""
  }

  function Principal(t: Tables, e: Event): nat {
    if PaymentOf(e) in t.payments then t.payments[PaymentOf(e)].amount
    else if e.paymentAmount != 0 then e.paymentAmount
    else e.amount
  }

  /**
    An event opens, or changes, only the order it is about, and none if it is refused. A new
    order gets the order amount the event gives, or else the payment's principal, which also
    fills in a missing amount.
   */
  lemma OrderOpened(t: Tables, e: Event, o: Key)
    ensures var u := Apply(t, e);
      var about := !Refused(t, e) && OrderNamed(t, e) != "" && o == Key(e.scope, OrderNamed(t, e));
      && (o in u.orders <==> o in t.orders || about)
      && (!about && o in t.orders ==> u.orders[o] == t.orders[o])
      && (about && o !in t.orders ==>
            u.orders[o].amount == if e.orderAmount != 0 then e.orderAmount else Principal(t, e))
      && (about && o in t.orders ==>
            u.orders[o].amount == if t.orders[o].amount == 0 then Principal(t, e) else t.orders[o].amount)
  {
    RefusedExactly(t, e);
    assert EnsuredPayment(t.payments, e).amount == Principal(t, e);
  }

  /** An order is marked paid exactly by a capture that is not refused, with the payment's principal if that is more. */
  lemma OrderPaidExactly(t: Tables, e: Event, o: Key)
    requires o in Apply(t, e).orders
    ensures var p, q := if o in t.orders then t.orders[o] else Order(0, false, 0, None), Apply(t, e).orders[o];
      var pays := e.kind in {PaymentSuccess, OrderPaid} && !Refused(t, e) && OrderNamed(t, e) != ""
                  && o == Key(e.scope, OrderNamed(t, e));
      && (q.paid <==> p.paid || pays)
      && q.amountPaid == (if pays && Principal(t, e) > p.amountPaid then Principal(t, e) else p.amountPaid)
      && q.paidAt == if pays && p.paidAt == None then Some(e.occurredAt) else p.paidAt
  {
    RefusedExactly(t, e);
    RowLeaves(t, e);
    RowKept(t, e);
    assert EnsuredPayment(t.payments, e).amount == Principal(t, e);
  }
}
