/**
  The repair sweep over every run of the ledger. It has nothing to do exactly while each
  held refund waits for the capture of its payment, and that lasts exactly until an event
  wakes it.
 */
module LedgerSweep {
  import opened Common
  import opened Ledger
  import opened LedgerRefunds

  // ---------------------------------------------------------------- held refunds

  predicate Waits(t: Tables, r: Key) {
    r in t.refunds && t.refunds[r].status == RPendingReconciliation ==>
      !CapturedPayment(t, t.refunds[r].payment)
  }

  predicate CapturedPayment(t: Tables, k: Key) {
    k in t.payments && Captured(t.payments[k].status)
  }

  /** A held refund waits for its payment to be captured, and for nothing else. */
  ghost predicate HeldOnlyBeforeCapture(t: Tables) {
    forall r :: Waits(t, r)
  }

  /** The row of a refund event is left held by it. */
  predicate LeavesHeld(p: Payment, row: Refund, e: Event) {
    && row.amount == RefundAmount(e)
    && (ProviderStatus(e) == RPendingReconciliation
        || (ProviderStatus(e) == RProcessed && row.status != RProcessed && !Captured(p.status)))
  }

  /**
    A refund event that leaves its row held although the payment of the row is captured:
    it names another payment, or says the ledger's own internal status.
   */
  predicate Wakes(t: Tables, e: Event) {
    var row := EnsuredRefund(t.refunds, e);
    IsRefund(e.kind) && CapturedPayment(t, row.payment) && LeavesHeld(EnsuredPayment(t.payments, e), row, e)
  }

  lemma LeftHeld(p: Payment, row: Refund, e: Event)
    ensures RefundRowAfter(p, row, e).status == RPendingReconciliation <==> LeavesHeld(p, row, e)
    ensures RefundRowAfter(p, row, e).payment == row.payment
    ensures Captured(RefundPaymentAfter(p, row, e).status) <==> Captured(p.status)
  {}

  /** A refund event captures nothing, and touches one refund row. */
  lemma RefundStep(t: Tables, e: Event)
    requires IsRefund(e.kind)
    ensures forall k :: CapturedPayment(Apply(t, e), k) <==> CapturedPayment(t, k)
    ensures Apply(t, e).refunds ==
      t.refunds[RefundKey(e) := RefundRowAfter(EnsuredPayment(t.payments, e), EnsuredRefund(t.refunds, e), e)]
  {
    LeftHeld(EnsuredPayment(t.payments, e), EnsuredRefund(t.refunds, e), e);
  }

  lemma RefundHeldExactly(t: Tables, e: Event)
    requires IsRefund(e.kind) && HeldOnlyBeforeCapture(t)
    ensures HeldOnlyBeforeCapture(Apply(t, e)) <==> !Wakes(t, e)
  {
    var u, row := Apply(t, e), EnsuredRefund(t.refunds, e);
    RefundStep(t, e);
    LeftHeld(EnsuredPayment(t.payments, e), row, e);
    assert Waits(u, RefundKey(e)) <==> !Wakes(t, e);
    forall r | r != RefundKey(e) ensures Waits(u, r) {
      assert Waits(t, r);
    }
  }

  lemma OtherHeld(t: Tables, e: Event, r: Key)
    requires !IsRefund(e.kind) && Listed(t.refunds, t.refundOrder) && Waits(t, r)
    ensures Waits(Apply(t, e), r)
  {
    var p := EnsuredPayment(t.payments, e);
    if !Blocked(p, e) && IsCapture(e.kind) {
      SettleAllKeepsRows(Advanced(p, e), t.refunds, PaymentKey(e), t.refundOrder);
    }
  }

  /** One event leaves every held refund waiting if and only if it does not wake the sweep. */
  lemma HeldStep(t: Tables, e: Event)
    requires Listed(t.refunds, t.refundOrder) && HeldOnlyBeforeCapture(t)
    ensures HeldOnlyBeforeCapture(Apply(t, e)) <==> !Wakes(t, e)
  {
    if IsRefund(e.kind) {
      RefundHeldExactly(t, e);
    } else {
      forall r ensures Waits(Apply(t, e), r) {
        assert Waits(t, r);
        OtherHeld(t, e, r);
      }
    }
  }

  // ---------------------------------------------------------------- the sweep

  /** The sweep, over any payments, changes nothing and reports nothing. */
  ghost predicate Idle(t: Tables) {
    forall keys :: Sweep(t, keys) == (t, 0)
  }

  lemma {:induction false} NothingHeld(refunds: map<Key, Refund>, k: Key, order: seq<Key>)
    requires forall r :: r in order ==> !Held(refunds, r, k)
    ensures HeldCount(refunds, k, order) == 0
  {
    if order != [] {
      NothingHeld(refunds, k, order[..|order| - 1]);
    }
  }

  lemma ReconcileIsNoOp(t: Tables, k: Key)
    requires HeldOnlyBeforeCapture(t)
    ensures Reconcile(t, k) == t && Examined(t, k) == 0
  {
    if CapturedPayment(t, k) {
      assert forall r :: r in t.refundOrder ==> Waits(t, r);
      NothingHeld(t.refunds, k, t.refundOrder);
      SettleNothing(t.payments[k], t.refunds, k, t.refundOrder);
      assert t.payments == t.payments[k := t.payments[k]];
    }
  }

  lemma {:induction false} SweepFindsNothing(t: Tables, keys: seq<Key>)
    requires HeldOnlyBeforeCapture(t)
    ensures Sweep(t, keys) == (t, 0)
  {
    if keys != [] {
      SweepFindsNothing(t, keys[..|keys| - 1]);
      ReconcileIsNoOp(t, keys[|keys| - 1]);
    }
  }

  /** The sweep is idle if and only if each held refund waits for its payment's capture. */
  lemma IdleExactly(t: Tables)
    requires Listed(t.refunds, t.refundOrder)
    ensures Idle(t) <==> HeldOnlyBeforeCapture(t)
  {
    if Idle(t) {
      forall r ensures Waits(t, r) {
        if r in t.refunds && CapturedPayment(t, t.refunds[r].payment) {
          var k := t.refunds[r].payment;
          assert [k][..0] == [] && Sweep(t, []) == (t, 0);
          assert Sweep(t, [k]) == (t, 0) && Examined(t, k) == 0;
          NoneHeld(t.refunds, k, t.refundOrder);
        }
      }
    }
    if HeldOnlyBeforeCapture(t) {
      forall keys ensures Sweep(t, keys) == (t, 0) {
        SweepFindsNothing(t, keys);
      }
    }
  }

  // ---------------------------------------------------------------- over a run

  /** The sweep is idle after every event of the trace. */
  ghost predicate AlwaysIdle(trace: seq<Event>) {
    && Idle(Run(EMPTY, trace))
    && (trace != [] ==> AlwaysIdle(trace[..|trace| - 1]))
  }

  predicate NeverWakes(trace: seq<Event>) {
    trace != [] ==>
      !Wakes(Run(EMPTY, trace[..|trace| - 1]), trace[|trace| - 1]) && NeverWakes(trace[..|trace| - 1])
  }

  lemma {:induction false} RunListed(trace: seq<Event>)
    ensures Listed(Run(EMPTY, trace).refunds, Run(EMPTY, trace).refundOrder)
  {
    if trace != [] {
      RunListed(trace[..|trace| - 1]);
      ListedStep(Run(EMPTY, trace[..|trace| - 1]), trace[|trace| - 1]);
    }
  }

  /** All along a run, whatever its events, the sweep has nothing to do if and only if no event wakes it. */
  lemma {:induction false} SweepExact(trace: seq<Event>)
    ensures AlwaysIdle(trace) <==> NeverWakes(trace)
  {
    var t := Run(EMPTY, trace);
    RunListed(trace);
    IdleExactly(t);
    if trace != [] {
      var init, e := trace[..|trace| - 1], trace[|trace| - 1];
      SweepExact(init);
      RunListed(init);
      if Idle(Run(EMPTY, init)) {
        IdleExactly(Run(EMPTY, init));
        HeldStep(Run(EMPTY, init), e);
      }
    }
  }

  /** No provider sends the ledger's own internal status. */
  predicate ProviderOwn(e: Event) {
    e.refundStatus != Some(RPendingReconciliation)
  }

  lemma OwnReferencesNeverWake(t: Tables, e: Event)
    requires NamesItsPayment(t, e) && ProviderOwn(e)
    ensures !Wakes(t, e)
  {}

  lemma {:induction false} OneOwnerNeverWakes(trace: seq<Event>, owner: Key -> Key)
    requires OneOwner(trace, owner) && forall e :: e in trace ==> ProviderOwn(e)
    ensures NeverWakes(trace)
  {
    if trace != [] {
      var init, last := trace[..|trace| - 1], trace[|trace| - 1];
      OneOwnerNeverWakes(init, owner);
      OneOwnerConserves(init, PaymentKey(last), owner);
      OwnersStep(Run(EMPTY, init), last, owner);
      OwnReferencesNeverWake(Run(EMPTY, init), last);
    }
  }

  /** So where each reference names one payment, the sweep is idle in every reachable state. */
  lemma SweepIsNoOp(trace: seq<Event>, owner: Key -> Key)
    requires OneOwner(trace, owner) && forall e :: e in trace ==> ProviderOwn(e)
    ensures AlwaysIdle(trace)
  {
    OneOwnerNeverWakes(trace, owner);
    SweepExact(trace);
  }
}
