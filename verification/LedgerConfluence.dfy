/**
  Confluence: a payment with one agreed principal, captured once, whose processed
  refunds have distinct references and total at most the principal, ends in the same
  state whatever the order of its events, however often each is repeated, and whatever
  happens to other payments in between.
 */
module LedgerConfluence {
  import opened Ledger
  import opened LedgerRefunds

  /** What the events of one payment agree on. */
  datatype Case = Case(payment: Key, principal: nat, refunds: map<Key, nat>)

  /** An event of the payment that fits the case. */
  predicate Fits(c: Case, e: Event) {
    && PaymentKey(e) == c.payment && Or(e.paymentAmount, e.amount) == c.principal
    && (IsRefund(e.kind) ==>
          ProviderStatus(e) == RProcessed && RefundKey(e) in c.refunds && RefundAmount(e) == c.refunds[RefundKey(e)])
  }

  /** An event of another payment that does not use the case's refund references. */
  predicate Unrelated(c: Case, e: Event) {
    PaymentKey(e) != c.payment && (IsRefund(e.kind) ==> RefundKey(e) !in c.refunds)
  }

  ghost predicate Consistent(c: Case, trace: seq<Event>) {
    forall e :: e in trace ==> Fits(c, e) || Unrelated(c, e)
  }

  // ---------------------------------------------------------------- sums over sets

  ghost function Total(amounts: map<Key, nat>, keys: set<Key>): nat
    requires keys <= amounts.Keys
  {
    if keys == {} then 0
    else amounts[Pick(keys)] + Total(amounts, keys - {Pick(keys)})
  }

  ghost function Pick(keys: set<Key>): (k: Key)
    requires keys != {}
    ensures k in keys
  {
    var x :| x in keys; x
  }

  lemma {:induction false} TotalRemove(amounts: map<Key, nat>, keys: set<Key>, x: Key)
    requires keys <= amounts.Keys && x in keys
    ensures Total(amounts, keys) == amounts[x] + Total(amounts, keys - {x})
  {
    var k := Pick(keys);
    if k != x {
      TotalRemove(amounts, keys - {k}, x);
      TotalRemove(amounts, keys - {x}, k);
      assert keys - {k} - {x} == keys - {x} - {k};
    }
  }

  lemma TotalAdd(amounts: map<Key, nat>, keys: set<Key>, x: Key)
    requires keys <= amounts.Keys && x in amounts && x !in keys
    ensures Total(amounts, keys + {x}) == Total(amounts, keys) + amounts[x]
  {
    TotalRemove(amounts, keys + {x}, x);
    assert keys + {x} - {x} == keys;
  }

  lemma {:induction false} TotalMonotone(amounts: map<Key, nat>, small: set<Key>, big: set<Key>)
    requires small <= big <= amounts.Keys
    ensures Total(amounts, small) <= Total(amounts, big)
    decreases big
  {
    if x :| x in big && x !in small {
      TotalRemove(amounts, big, x);
      TotalMonotone(amounts, small, big - {x});
    } else {
      assert small == big;
    }
  }

  // ---------------------------------------------------------------- the state of a case

  /**
    The tables after some events of the case: `seen` are the refunds delivered so far and
    `captured` tells whether the capture was. Held refunds are credited as soon as it is.
   */
  ghost predicate At(c: Case, t: Tables, seen: set<Key>, captured: bool) {
    && seen <= c.refunds.Keys
    && (captured || seen != {} ==> c.payment in t.payments)
    && (c.payment in t.payments ==> PaymentAt(c, t.payments[c.payment], seen, captured))
    && (forall r :: RowAt(c, t.refunds, seen, captured, r))
  }

  predicate RowAt(c: Case, refunds: map<Key, Refund>, seen: set<Key>, captured: bool, r: Key)
    requires seen <= c.refunds.Keys
  {
    && (r in c.refunds ==> (r in refunds <==> r in seen))
    && (r in seen ==>
          refunds[r] == Refund(c.payment, c.refunds[r], if captured then RProcessed else RPendingReconciliation))
    && (r in refunds && refunds[r].payment == c.payment ==> r in seen)
  }

  ghost predicate PaymentAt(c: Case, p: Payment, seen: set<Key>, captured: bool)
    requires seen <= c.refunds.Keys
  {
    && p.amount == c.principal
    && p.refunded == (if captured then Total(c.refunds, seen) else 0)
    && (if captured then p.status == FinalStatus(c, seen) else !Captured(p.status))
  }

  ghost function FinalStatus(c: Case, seen: set<Key>): PaymentStatus
    requires seen <= c.refunds.Keys
  {
    if seen != {} && Total(c.refunds, seen) == c.principal then Refunded else Success
  }

  // ---------------------------------------------------------------- settling the held refunds

  /** Settling fits: every held refund is credited, and the payment is refunded once full. */
  lemma {:induction false} SettleHeld(
    c: Case, p: Payment, refunds: map<Key, Refund>, order: seq<Key>, done: set<Key>, all: set<Key>)
    requires done <= all <= c.refunds.Keys && Total(c.refunds, all) <= c.principal
    requires PaymentAt(c, p, done, true)
    requires forall i, j :: 0 <= i < j < |order| ==> order[i] != order[j]
    requires forall r :: r in order ==> (Held(refunds, r, c.payment) <==> r in all - done)
    requires forall r :: r in all - done ==>
               r in order && r in refunds && refunds[r] == Refund(c.payment, c.refunds[r], RPendingReconciliation)
    ensures var (q, rs) := SettleAll(p, refunds, c.payment, order);
      && PaymentAt(c, q, all, true) && rs.Keys == refunds.Keys
      && (forall r :: r in all - done ==> rs[r] == Refund(c.payment, c.refunds[r], RProcessed))
      && (forall r :: r in refunds && r !in all - done ==> rs[r] == refunds[r])
    decreases |order|
  {
    if order == [] {
      assert all == done;
    } else {
      var r := order[0];
      if Held(refunds, r, c.payment) {
        TotalAdd(c.refunds, done, r);
        TotalMonotone(c.refunds, done + {r}, all);
        var row := refunds[r];
        SettleHeld(c, SettledPayment(p, row), refunds[r := SettledRow(p, row)], order[1..], done + {r}, all);
      } else {
        SettleHeld(c, p, refunds, order[1..], done, all);
      }
    }
  }

  // ---------------------------------------------------------------- one event

  lemma StatusEventStep(c: Case, t: Tables, e: Event, seen: set<Key>, captured: bool)
    requires At(c, t, seen, captured) && Fits(c, e) && !IsRefund(e.kind) && !IsCapture(e.kind)
    ensures At(c, Apply(t, e), seen, captured)
  {
    assert Apply(t, e).refunds == t.refunds;
    assert forall r :: RowAt(c, t.refunds, seen, captured, r);
    assert PaymentAt(c, PaymentAfter(t, e), seen, captured);
  }

  lemma FirstCapture(c: Case, t: Tables, e: Event, seen: set<Key>)
    requires Listed(t.refunds, t.refundOrder) && At(c, t, seen, false) && Fits(c, e) && IsCapture(e.kind)
    requires Total(c.refunds, c.refunds.Keys) <= c.principal
    ensures At(c, Apply(t, e), seen, true)
  {
    var p := EnsuredPayment(t.payments, e);
    assert !Blocked(p, e) && PaymentAt(c, Advanced(p, e), {}, true);
    TotalMonotone(c.refunds, seen, c.refunds.Keys);
    assert seen - {} == seen;
    assert Total(c.refunds, {}) == 0;
    forall r | r in t.refundOrder || r in seen
      ensures Held(t.refunds, r, c.payment) <==> r in seen
      ensures r in seen ==>
                r in t.refunds && r in t.refundOrder
                && t.refunds[r] == Refund(c.payment, c.refunds[r], RPendingReconciliation)
    {
      assert RowAt(c, t.refunds, seen, false, r);
    }
    SettleHeld(c, Advanced(p, e), t.refunds, t.refundOrder, {}, seen);
    forall r ensures RowAt(c, Apply(t, e).refunds, seen, true, r) {
      assert RowAt(c, t.refunds, seen, false, r);
    }
  }

  lemma CaptureAgain(c: Case, t: Tables, e: Event, seen: set<Key>)
    requires Listed(t.refunds, t.refundOrder) && At(c, t, seen, true) && Fits(c, e) && IsCapture(e.kind)
    ensures At(c, Apply(t, e), seen, true)
  {
    var p := EnsuredPayment(t.payments, e);
    if !Blocked(p, e) {
      assert Advanced(p, e) == p;
      forall r | r in t.refundOrder ensures !Held(t.refunds, r, c.payment) {
        assert RowAt(c, t.refunds, seen, true, r);
      }
      SettleNothing(p, t.refunds, c.payment, t.refundOrder);
    }
    forall r ensures RowAt(c, Apply(t, e).refunds, seen, true, r) {
      assert RowAt(c, t.refunds, seen, true, r);
    }
  }

  lemma NewRefund(c: Case, t: Tables, e: Event, seen: set<Key>, captured: bool)
    requires At(c, t, seen, captured) && Fits(c, e) && IsRefund(e.kind) && RefundKey(e) !in seen
    requires Total(c.refunds, c.refunds.Keys) <= c.principal
    ensures At(c, Apply(t, e), seen + {RefundKey(e)}, captured)
  {
    var r, p := RefundKey(e), EnsuredPayment(t.payments, e);
    TotalAdd(c.refunds, seen, r);
    TotalMonotone(c.refunds, seen + {r}, c.refunds.Keys);
    var row := EnsuredRefund(t.refunds, e);
    assert RowAt(c, t.refunds, seen, captured, r);
    assert row == Refund(c.payment, c.refunds[r], RCreated);
    assert PaymentAt(c, p, seen, captured);
    assert PaymentAt(c, RefundPaymentAfter(p, row, e), seen + {r}, captured);
    var status := if captured then RProcessed else RPendingReconciliation;
    assert RefundRowAfter(p, row, e) == Refund(c.payment, c.refunds[r], status);
    forall r ensures RowAt(c, Apply(t, e).refunds, seen + {RefundKey(e)}, captured, r) {
      assert RowAt(c, t.refunds, seen, captured, r);
    }
  }

  lemma RefundAgain(c: Case, t: Tables, e: Event, seen: set<Key>, captured: bool)
    requires At(c, t, seen, captured) && Fits(c, e) && IsRefund(e.kind) && RefundKey(e) in seen
    ensures At(c, Apply(t, e), seen, captured)
  {
    var r, p := RefundKey(e), EnsuredPayment(t.payments, e);
    var row := EnsuredRefund(t.refunds, e);
    assert RowAt(c, t.refunds, seen, captured, r);
    assert RefundPaymentAfter(p, row, e) == p && RefundRowAfter(p, row, e) == row;
    forall r ensures RowAt(c, Apply(t, e).refunds, seen, captured, r) {
      assert RowAt(c, t.refunds, seen, captured, r);
    }
  }

  lemma UnrelatedRefund(c: Case, t: Tables, e: Event, seen: set<Key>, captured: bool)
    requires At(c, t, seen, captured) && Unrelated(c, e) && IsRefund(e.kind)
    ensures At(c, Apply(t, e), seen, captured)
  {
    forall r ensures RowAt(c, Apply(t, e).refunds, seen, captured, r) {
      assert RowAt(c, t.refunds, seen, captured, r);
    }
  }

  lemma UnrelatedStep(c: Case, t: Tables, e: Event, seen: set<Key>, captured: bool)
    requires At(c, t, seen, captured) && Unrelated(c, e) && !IsRefund(e.kind)
    ensures At(c, Apply(t, e), seen, captured)
  {
    var p := EnsuredPayment(t.payments, e);
    if !Blocked(p, e) && IsCapture(e.kind) {
      SettleAllKeepsRows(Advanced(p, e), t.refunds, PaymentKey(e), t.refundOrder);
    }
    forall r ensures RowAt(c, Apply(t, e).refunds, seen, captured, r) {
      assert RowAt(c, t.refunds, seen, captured, r);
    }
  }

  lemma StepAt(c: Case, t: Tables, e: Event, seen: set<Key>, captured: bool)
    requires Listed(t.refunds, t.refundOrder)
    requires At(c, t, seen, captured) && (Fits(c, e) || Unrelated(c, e))
      && Total(c.refunds, c.refunds.Keys) <= c.principal
    ensures At(c, Apply(t, e), seen + NewRefunds(c, e), captured || (Fits(c, e) && IsCapture(e.kind)))
  {
    assert seen + {} == seen;
    if !Fits(c, e) && IsRefund(e.kind) {
      UnrelatedRefund(c, t, e, seen, captured);
    } else if !Fits(c, e) {
      UnrelatedStep(c, t, e, seen, captured);
    } else if IsRefund(e.kind) {
      if RefundKey(e) in seen {
        assert seen + {RefundKey(e)} == seen;
        RefundAgain(c, t, e, seen, captured);
      } else {
        NewRefund(c, t, e, seen, captured);
      }
    } else if IsCapture(e.kind) {
      if captured {
        CaptureAgain(c, t, e, seen);
      } else {
        FirstCapture(c, t, e, seen);
      }
    } else {
      StatusEventStep(c, t, e, seen, captured);
    }
  }

  function NewRefunds(c: Case, e: Event): set<Key> {
    if Fits(c, e) && IsRefund(e.kind) then {RefundKey(e)} else {}
  }

  // ---------------------------------------------------------------- the theorem

  function Refunds(c: Case, trace: seq<Event>): set<Key> {
    set e | e in trace && Fits(c, e) && IsRefund(e.kind) :: RefundKey(e)
  }

  predicate HasCapture(c: Case, trace: seq<Event>) {
    exists i :: 0 <= i < |trace| && Fits(c, trace[i]) && IsCapture(trace[i].kind)
  }

  lemma RefundsSnoc(c: Case, init: seq<Event>, e: Event)
    ensures Refunds(c, init + [e]) == Refunds(c, init) + NewRefunds(c, e)
    ensures HasCapture(c, init + [e]) == (HasCapture(c, init) || (Fits(c, e) && IsCapture(e.kind)))
  {
    var all := init + [e];
    assert forall x :: x in all <==> x in init || x == e;
    assert forall i :: 0 <= i < |init| ==> all[i] == init[i];
    assert all[|init|] == e;
  }

  lemma {:induction false} RunAt(c: Case, t: Tables, trace: seq<Event>)
    requires Listed(t.refunds, t.refundOrder) && At(c, t, {}, false) && Consistent(c, trace)
    requires Total(c.refunds, c.refunds.Keys) <= c.principal
    ensures Listed(Run(t, trace).refunds, Run(t, trace).refundOrder)
    ensures At(c, Run(t, trace), Refunds(c, trace), HasCapture(c, trace))
  {
    if trace == [] {
      assert Refunds(c, trace) == {};
    } else {
      var init, e := trace[..|trace| - 1], trace[|trace| - 1];
      assert trace == init + [e] && e in trace;
      RunAt(c, t, init);
      RefundsSnoc(c, init, e);
      ListedStep(Run(t, init), e);
      StepAt(c, Run(t, init), e, Refunds(c, init), HasCapture(c, init));
    }
  }

  /** A trace that delivers the whole case: the capture and every refund, in any order and number. */
  ghost predicate Delivers(c: Case, trace: seq<Event>) {
    Consistent(c, trace) && HasCapture(c, trace) && Refunds(c, trace) == c.refunds.Keys
  }

  /** The one end state: principal kept, every refund credited, refunded once full. */
  ghost predicate EndsIn(c: Case, t: Tables) {
    && c.payment in t.payments
    && t.payments[c.payment].amount == c.principal
    && t.payments[c.payment].refunded == Total(c.refunds, c.refunds.Keys)
    && t.payments[c.payment].status == FinalStatus(c, c.refunds.Keys)
    && forall r :: r in c.refunds ==> r in t.refunds && t.refunds[r] == Refund(c.payment, c.refunds[r], RProcessed)
  }

  /** Where every delivery of the case ends, whatever the order. */
  lemma Settled(c: Case, t: Tables, trace: seq<Event>)
    requires Listed(t.refunds, t.refundOrder) && At(c, t, {}, false)
    requires Delivers(c, trace) && Total(c.refunds, c.refunds.Keys) <= c.principal
    ensures EndsIn(c, Run(t, trace))
  {
    RunAt(c, t, trace);
    var u := Run(t, trace);
    assert PaymentAt(c, u.payments[c.payment], c.refunds.Keys, true);
    forall r | r in c.refunds ensures r in u.refunds && u.refunds[r] == Refund(c.payment, c.refunds[r], RProcessed) {
      assert RowAt(c, u.refunds, c.refunds.Keys, true, r);
    }
  }

  /** Any two deliveries of one case leave the payment and its refunds in the same state. */
  lemma Confluence(c: Case, a: seq<Event>, b: seq<Event>)
    requires Delivers(c, a) && Delivers(c, b) && Total(c.refunds, c.refunds.Keys) <= c.principal
    ensures var s, t := Run(EMPTY, a), Run(EMPTY, b);
      && c.payment in s.payments && c.payment in t.payments
      && s.payments[c.payment].status == t.payments[c.payment].status
      && s.payments[c.payment].refunded == t.payments[c.payment].refunded
      && forall r :: r in c.refunds ==> r in s.refunds && r in t.refunds && s.refunds[r] == t.refunds[r]
  {
    Settled(c, EMPTY, a);
    Settled(c, EMPTY, b);
  }
}
