/**
  Where the ledger falls short of what it promises, as concrete runs, each beside the
  exact condition under which the promise is kept.
 */
module LedgerFindings {
  import opened Common
  import opened Ledger
  import opened LedgerRefunds
  import LedgerCredits
  import LedgerSweep

  // ---------------------------------------------------------------- held refunds

  /**
    A refund event for this row that does not say `processed` again for the same amount, or
    says so for another payment that is captured.
   */
  predicate Overwrites(t: Tables, e: Event, r: Key)
    requires r in t.refunds
  {
    IsRefund(e.kind) && RefundKey(e) == r &&
      (t.refunds[r].amount != RefundAmount(e) || ProviderStatus(e) !in {RProcessed, RPendingReconciliation}
       || (ProviderStatus(e) == RProcessed && LedgerSweep.CapturedPayment(t, PaymentKey(e))))
  }

  predicate HeldUncaptured(t: Tables, r: Key) {
    && r in t.refunds && t.refunds[r].status == RPendingReconciliation
    && t.refunds[r].payment in t.payments && !Captured(t.payments[t.refunds[r].payment].status)
  }

  lemma OverwriteStep(t: Tables, e: Event, r: Key)
    requires HeldUncaptured(t, r) && IsRefund(e.kind)
    ensures r in Apply(t, e).refunds
    ensures Apply(t, e).refunds[r].status == RPendingReconciliation <==> !Overwrites(t, e, r)
  {
    LedgerSweep.RefundStep(t, e);
    LedgerSweep.LeftHeld(EnsuredPayment(t.payments, e), EnsuredRefund(t.refunds, e), e);
  }

  /**
    A held refund of an uncaptured payment leaves `pending_reconciliation` exactly when its
    payment is captured or a refund event overwrites its status, whatever that status is.
   */
  lemma HeldRefundFate(t: Tables, e: Event, r: Key)
    requires HeldUncaptured(t, r) && Listed(t.refunds, t.refundOrder)
    ensures r in Apply(t, e).refunds
    ensures Apply(t, e).refunds[r].status == RPendingReconciliation <==>
      !Overwrites(t, e, r) && !(IsCapture(e.kind) && PaymentKey(e) == t.refunds[r].payment)
  {
    if IsRefund(e.kind) {
      OverwriteStep(t, e, r);
    } else {
      var p := EnsuredPayment(t.payments, e);
      if !Blocked(p, e) && IsCapture(e.kind) {
        SettleAllKeepsRows(Advanced(p, e), t.refunds, PaymentKey(e), t.refundOrder);
      }
    }
  }

  // ---------------------------------------------------------------- concrete runs

  const A := Key(SHOP, "A")
  const REFUND := Key(SHOP, "rfnd")

  function Capture(id: string): Event {
    Event(PaymentSuccess, SHOP, id, 0, "A", 1000, "", 1000, 0, "", 0, None)
  }

  /** A refund of 300 with one reference, reported for the payment `ref`. */
  function RefundOf(id: string, ref: string, status: RefundStatus): Event {
    Event(RefundCreated, SHOP, id, 0, ref, 300, "", 1000, 0, "rfnd", 300, Some(status))
  }

  function PaymentA(refunded: nat, status: PaymentStatus): Payment {
    Payment("", 1000, refunded, status, 0)
  }

  /** Tables with payment A of 1000, and its refund of 300 in the given status. */
  function WithRefund(refunded: nat, status: PaymentStatus, row: RefundStatus): Tables {
    Tables(map[A := PaymentA(refunded, status)], map[REFUND := Refund(A, 300, row)], [REFUND], map[])
  }

  const CAPTURED := Tables(map[A := PaymentA(0, Success)], map[], [], map[])

  lemma RunSnoc(t: Tables, trace: seq<Event>, e: Event)
    ensures Run(t, trace + [e]) == Apply(Run(t, trace), e)
  {
    assert (trace + [e])[..|trace|] == trace;
  }

  lemma ThreeEvents(a: Event, b: Event, c: Event)
    ensures Run(EMPTY, [a] + [b] + [c]) == Apply(Apply(Apply(EMPTY, a), b), c)
  {
    RunSnoc(EMPTY, [], a);
    RunSnoc(EMPTY, [a], b);
    RunSnoc(EMPTY, [a] + [b], c);
  }

  lemma ReceivableSnoc(trace: seq<Event>, e: Event)
    requires Receivable(trace) && WellFormed(e) && forall i :: 0 <= i < |trace| ==> trace[i].externalId != e.externalId
    ensures Receivable(trace + [e])
  {}

  lemma Ids()
    ensures "evt_1" != "evt_2" && "evt_1" != "evt_3" && "evt_2" != "evt_3"
    ensures "evt_1" != "evt_4" && "evt_2" != "evt_4" && "evt_3" != "evt_4"
  {
    assert "evt_1"[4] == '1' && "evt_2"[4] == '2' && "evt_3"[4] == '3' && "evt_4"[4] == '4';
  }

  lemma ThreeReceivable(a: Event, b: Event, c: Event)
    requires WellFormed(a) && WellFormed(b) && WellFormed(c)
    requires a.externalId != b.externalId && a.externalId != c.externalId && b.externalId != c.externalId
    ensures Receivable([a] + [b] + [c])
  {
    ReceivableSnoc([], a);
    assert [] + [a] == [a];
    ReceivableSnoc([a], b);
    ReceivableSnoc([a] + [b], c);
  }

  predicate DistinctIds(a: Event, b: Event, c: Event, d: Event) {
    && a.externalId != b.externalId && a.externalId != c.externalId && b.externalId != c.externalId
    && a.externalId != d.externalId && b.externalId != d.externalId && c.externalId != d.externalId
  }

  lemma FourReceivable(a: Event, b: Event, c: Event, d: Event)
    requires WellFormed(a) && WellFormed(b) && WellFormed(c) && WellFormed(d) && DistinctIds(a, b, c, d)
    ensures Receivable([a] + [b] + [c] + [d])
  {
    ThreeReceivable(a, b, c);
    ReceivableSnoc([a] + [b] + [c], d);
  }

  lemma FirstEvent(id: string)
    ensures Apply(EMPTY, Capture(id)) == CAPTURED
    ensures Apply(EMPTY, RefundOf(id, "A", RProcessed)) == WithRefund(0, Created, RPendingReconciliation)
  {}

  lemma FirstRefund(id: string)
    ensures Apply(CAPTURED, RefundOf(id, "A", RProcessed)) == WithRefund(300, Success, RProcessed)
    ensures Apply(CAPTURED, RefundOf(id, "A", RFailed)) == WithRefund(0, Success, RFailed)
  {}

  lemma SettleOne(p: Payment, refunds: map<Key, Refund>, k: Key, r: Key)
    ensures SettleAll(p, refunds, k, [r]) ==
      if Held(refunds, r, k) then (SettledPayment(p, refunds[r]), refunds[r := SettledRow(p, refunds[r])])
      else (p, refunds)
  {}

  /** Capturing with one refund on file credits it only if it is held. */
  lemma CaptureStep(id: string, row: RefundStatus)
    requires row in {RPending, RPendingReconciliation}
    ensures Apply(WithRefund(0, Created, row), Capture(id)) ==
      if row == RPending then WithRefund(0, Success, RPending) else WithRefund(300, Success, RProcessed)
  {
    var t, p := WithRefund(0, Created, row), PaymentA(0, Success);
    SettleOne(p, t.refunds, A, REFUND);
    assert Advanced(EnsuredPayment(t.payments, Capture(id)), Capture(id)) == p;
  }

  lemma RefundStep(id: string, refunded: nat, status: PaymentStatus, row: RefundStatus, next: RefundStatus)
    requires refunded <= 600
    ensures var u := Apply(WithRefund(refunded, status, row), RefundOf(id, "A", next));
      && (next == RFailed ==> u == WithRefund(refunded, status, RFailed))
      && (next == RPending ==> u == WithRefund(refunded, status, if row == RProcessed then row else RPending))
      && (next == RProcessed && row == RFailed && Captured(status) ==>
            u == WithRefund(refunded + 300, status, RProcessed))
  {}

  /**
    A processed refund that arrives before the capture is lost when a late `pending` update
    of it comes in between; after the capture the same update is harmless.
   */
  lemma HeldRefundLost()
    ensures var done, late := RefundOf("evt_1", "A", RProcessed), RefundOf("evt_2", "A", RPending);
      var capture := Capture("evt_3");
      && Receivable([done] + [late] + [capture]) && Credit(Run(EMPTY, [done] + [late] + [capture]), A) == 0
      && Receivable([done] + [capture] + [late]) && Credit(Run(EMPTY, [done] + [capture] + [late]), A) == 300
  {
    var done, late := RefundOf("evt_1", "A", RProcessed), RefundOf("evt_2", "A", RPending);
    var capture := Capture("evt_3");
    FirstEvent("evt_1");
    CaptureStep("evt_3", RPending);
    CaptureStep("evt_3", RPendingReconciliation);
    RefundStep("evt_2", 0, Created, RPendingReconciliation, RPending);
    RefundStep("evt_2", 300, Success, RProcessed, RPending);
    ThreeEvents(done, late, capture);
    ThreeEvents(done, capture, late);
    Ids();
    ThreeReceivable(done, late, capture);
    ThreeReceivable(done, capture, late);
  }

  lemma CreditsSnoc(trace: seq<Event>, e: Event)
    ensures LedgerCredits.TimesCredited(trace + [e], REFUND) ==
      LedgerCredits.TimesCredited(trace, REFUND)
      + if LedgerCredits.CreditsRefund(Run(EMPTY, trace), e, REFUND) then 1 else 0
  {
    assert (trace + [e])[..|trace|] == trace;
  }

  lemma TwoCredits(a: Event, b: Event, c: Event, d: Event)
    requires Run(EMPTY, [a]) == CAPTURED && Run(EMPTY, [a] + [b]) == WithRefund(300, Success, RProcessed)
    requires Run(EMPTY, [a] + [b] + [c]) == WithRefund(300, Success, RFailed)
    requires Run(EMPTY, [a] + [b] + [c] + [d]) == WithRefund(600, Success, RProcessed)
    ensures LedgerCredits.TimesCredited([a] + [b] + [c] + [d], REFUND) == 2
  {
    RunSnoc(EMPTY, [], a);
    CreditsSnoc([], a);
    RunSnoc(EMPTY, [a], b);
    CreditsSnoc([a], b);
    RunSnoc(EMPTY, [a] + [b], c);
    CreditsSnoc([a] + [b], c);
    RunSnoc(EMPTY, [a] + [b] + [c], d);
    CreditsSnoc([a] + [b] + [c], d);
  }

  /** One provider refund credited twice: processed, failed, processed again. */
  lemma CreditedTwice()
    ensures var capture, done := Capture("evt_1"), RefundOf("evt_2", "A", RProcessed);
      var failed, again := RefundOf("evt_3", "A", RFailed), RefundOf("evt_4", "A", RProcessed);
      && Receivable([capture] + [done] + [failed] + [again])
      && Run(EMPTY, [capture] + [done] + [failed] + [again]) == WithRefund(600, Success, RProcessed)
      && LedgerCredits.TimesCredited([capture] + [done] + [failed] + [again], REFUND) == 2
  {
    var capture, done := Capture("evt_1"), RefundOf("evt_2", "A", RProcessed);
    var failed, again := RefundOf("evt_3", "A", RFailed), RefundOf("evt_4", "A", RProcessed);
    FirstEvent("evt_1");
    FirstRefund("evt_2");
    RefundStep("evt_3", 300, Success, RProcessed, RFailed);
    RefundStep("evt_4", 300, Success, RFailed, RProcessed);
    RunSnoc(EMPTY, [], capture);
    RunSnoc(EMPTY, [capture], done);
    RunSnoc(EMPTY, [capture] + [done], failed);
    RunSnoc(EMPTY, [capture] + [done] + [failed], again);
    Ids();
    FourReceivable(capture, done, failed, again);
    TwoCredits(capture, done, failed, again);
  }

  lemma OtherPaymentStep(id: string)
    ensures var t := Apply(WithRefund(0, Success, RFailed), RefundOf(id, "B", RProcessed));
      && A in t.payments && t.payments[A] == PaymentA(0, Success)
      && t.refunds == map[REFUND := Refund(A, 300, RPendingReconciliation)] && t.refundOrder == [REFUND]
  {}

  /** A captured payment with a held refund of 300: the sweep reports it and credits it. */
  lemma SweepCredits(t: Tables)
    requires A in t.payments && t.payments[A] == PaymentA(0, Success)
    requires t.refunds == map[REFUND := Refund(A, 300, RPendingReconciliation)] && t.refundOrder == [REFUND]
    ensures var (u, held) := Sweep(t, [A]); held == 1 && Credit(u, A) == 300
  {
    SettleOne(t.payments[A], t.refunds, A, REFUND);
    assert [A][..0] == [] && Sweep(t, []) == (t, 0);
    assert [REFUND][..0] == [] && HeldCount(t.refunds, A, []) == 0 && HeldCount(t.refunds, A, [REFUND]) == 1;
  }

  /**
    A refund reference used for two payments can leave a captured payment with a held
    refund, which the repair sweep then credits.
   */
  lemma SharedReferenceWakesSweep()
    ensures var capture, failed := Capture("evt_1"), RefundOf("evt_2", "A", RFailed);
      var other := RefundOf("evt_3", "B", RProcessed);
      var t := Run(EMPTY, [capture] + [failed] + [other]);
      && Receivable([capture] + [failed] + [other])
      && Credit(t, A) == 0 && (var (u, held) := Sweep(t, [A]); held == 1 && Credit(u, A) == 300)
      && !LedgerSweep.Idle(t)
  {
    var capture, failed := Capture("evt_1"), RefundOf("evt_2", "A", RFailed);
    var other := RefundOf("evt_3", "B", RProcessed);
    FirstEvent("evt_1");
    FirstRefund("evt_2");
    OtherPaymentStep("evt_3");
    ThreeEvents(capture, failed, other);
    Ids();
    ThreeReceivable(capture, failed, other);
    SweepCredits(Run(EMPTY, [capture] + [failed] + [other]));
  }
}
