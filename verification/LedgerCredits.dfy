/**
  How often one provider refund is credited. A refund is credited when its row becomes
  processed, and demoted when it stops being so; over every run the two keep step, which
  says exactly when a refund is credited at most once.
 */
module LedgerCredits {
  import opened Ledger
  import opened LedgerRefunds

  predicate IsProcessed(t: Tables, r: Key) {
    r in t.refunds && t.refunds[r].status == RProcessed
  }

  /** The event credits this refund. */
  predicate CreditsRefund(t: Tables, e: Event, r: Key) {
    !IsProcessed(t, r) && IsProcessed(Apply(t, e), r)
  }

  /** A refund event that takes `processed` away from this refund: another amount, a failure, or an unknown status. */
  predicate DemotesRefund(t: Tables, e: Event, r: Key) {
    IsRefund(e.kind) && RefundKey(e) == r && r in t.refunds && Demotes(t.refunds[r], e)
  }

  /** A refund stops being processed exactly when an event demotes it. */
  lemma DemotionStep(t: Tables, e: Event, r: Key)
    ensures IsProcessed(t, r) && !IsProcessed(Apply(t, e), r) <==> DemotesRefund(t, e, r)
  {
    var p := EnsuredPayment(t.payments, e);
    if !Blocked(p, e) && IsCapture(e.kind) {
      SettleAllKeepsRows(Advanced(p, e), t.refunds, PaymentKey(e), t.refundOrder);
    }
  }

  /** An event that credits a refund adds the amount of its row to what some payment has refunded. */
  lemma CreditIsPaid(t: Tables, e: Event, r: Key)
    requires IsRefund(e.kind) && CreditsRefund(t, e, r)
    ensures r == RefundKey(e) && Apply(t, e).refunds[r].amount == Credited(t, e)
    ensures PaymentAfter(t, e).refunded == EnsuredPayment(t.payments, e).refunded + Credited(t, e)
  {
    RefundRowAccounts(EnsuredPayment(t.payments, e), EnsuredRefund(t.refunds, e), e, PaymentKey(e));
  }

  function TimesCredited(trace: seq<Event>, r: Key): nat {
    if trace == [] then 0
    else
      var init, e := trace[..|trace| - 1], trace[|trace| - 1];
      TimesCredited(init, r) + if CreditsRefund(Run(EMPTY, init), e, r) then 1 else 0
  }

  function TimesDemoted(trace: seq<Event>, r: Key): nat {
    if trace == [] then 0
    else
      var init, e := trace[..|trace| - 1], trace[|trace| - 1];
      TimesDemoted(init, r) + if DemotesRefund(Run(EMPTY, init), e, r) then 1 else 0
  }

  /** Over every run a refund is credited as often as it is demoted, and once more if it is processed now. */
  lemma {:induction false} CreditsAndDemotions(trace: seq<Event>, r: Key)
    ensures TimesCredited(trace, r) == TimesDemoted(trace, r) + if IsProcessed(Run(EMPTY, trace), r) then 1 else 0
  {
    if trace != [] {
      var init, e := trace[..|trace| - 1], trace[|trace| - 1];
      CreditsAndDemotions(init, r);
      DemotionStep(Run(EMPTY, init), e, r);
    }
  }

  /** So it is credited at most once exactly if it was never demoted, or once and is not processed now. */
  lemma CreditedOnceExactly(trace: seq<Event>, r: Key)
    ensures TimesCredited(trace, r) <= 1 <==>
      TimesDemoted(trace, r) == 0 || (TimesDemoted(trace, r) == 1 && !IsProcessed(Run(EMPTY, trace), r))
  {
    CreditsAndDemotions(trace, r);
  }
}
