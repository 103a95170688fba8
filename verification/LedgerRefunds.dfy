/**
  Refund conservation over every run of the ledger. The refunded amount of a payment
  never exceeds its principal, and it accounts exactly for the processed refunds, those
  that lost `processed` after they were credited, and those credited to another payment.
 */
module LedgerRefunds {
  import opened Ledger

  // ---------------------------------------------------------------- each payment alone

  /** What holds of every payment row in every reachable state. */
  predicate Sound(p: Payment) {
    && p.refunded <= p.amount
    && (p.refunded > 0 ==> Captured(p.status))
    && (p.status == Refunded ==> p.refunded == p.amount)
    && (p.amount > 0 && p.refunded == p.amount ==> p.status == Refunded)
  }

  ghost predicate SoundLedger(t: Tables) {
    forall k :: k in t.payments ==> Sound(t.payments[k])
  }

  /** A payment only moves forward: same principal, no credit undone, captured for good. */
  predicate Forward(p: Payment, q: Payment) {
    && q.amount == p.amount && q.refunded >= p.refunded
    && (Captured(p.status) ==> Captured(q.status))
    && (p.status == Refunded ==> q.status == Refunded)
    && (p.orderRef != "" ==> q.orderRef == p.orderRef)
  }

  lemma {:induction false} SettleAllSound(p: Payment, refunds: map<Key, Refund>, k: Key, order: seq<Key>)
    requires Sound(p) && Captured(p.status)
    ensures var q := SettleAll(p, refunds, k, order).0; Sound(q) && Captured(q.status) && Forward(p, q)
    decreases |order|
  {
    if order != [] {
      if Held(refunds, order[0], k) {
        var row := refunds[order[0]];
        SettleAllSound(SettledPayment(p, row), refunds[order[0] := SettledRow(p, row)], k, order[1..]);
      } else {
        SettleAllSound(p, refunds, k, order[1..]);
      }
    }
  }

  /** The payment row an event leaves behind. */
  function PaymentAfter(t: Tables, e: Event): Payment {
    var p := EnsuredPayment(t.payments, e);
    if Blocked(p, e) then p else Touched(MoneyAfter(t.refunds, t.refundOrder, Advanced(p, e), e).0, e)
  }

  lemma OnlyOnePaymentChanges(t: Tables, e: Event)
    ensures Apply(t, e).payments == t.payments[PaymentKey(e) := PaymentAfter(t, e)]
  {}

  lemma PaymentStep(t: Tables, e: Event)
    requires SoundLedger(t)
    ensures Sound(PaymentAfter(t, e))
    ensures PaymentKey(e) in t.payments ==> Forward(t.payments[PaymentKey(e)], PaymentAfter(t, e))
  {
    var p := EnsuredPayment(t.payments, e);
    assert Sound(p);
    if !Blocked(p, e) {
      var p1 := Advanced(p, e);
      assert Sound(p1) && Forward(p, p1);
      if IsCapture(e.kind) {
        SettleAllSound(p1, t.refunds, PaymentKey(e), t.refundOrder);
      }
    }
  }

  /** The status events a payment refuses: any that would take back a capture, and the three regressions. */
  lemma BlockedExactly(p: Payment, e: Event)
    requires Target(e.kind).Some? && Target(e.kind).value != p.status
    ensures Blocked(p, e) <==>
      Captured(p.status) || Target(e.kind).value == Created || (p.status == Failed && Target(e.kind).value == TimedOut)
  {
    assert p.status == Authorized || p.status == Created || p.status == TimedOut || p.status == Failed
      || Captured(p.status);
  }

  /** Whatever came before, a capture event leaves its payment captured; no other event captures one. */
  lemma CaptureLands(t: Tables, e: Event)
    requires SoundLedger(t)
    ensures IsCapture(e.kind) ==> Captured(PaymentAfter(t, e).status)
    ensures !IsCapture(e.kind) && Captured(PaymentAfter(t, e).status) ==>
      PaymentKey(e) in t.payments && Captured(t.payments[PaymentKey(e)].status)
  {
    var p := EnsuredPayment(t.payments, e);
    if !Blocked(p, e) && IsCapture(e.kind) {
      SettleAllSound(Advanced(p, e), t.refunds, PaymentKey(e), t.refundOrder);
    }
  }

  lemma SoundStep(t: Tables, e: Event)
    requires SoundLedger(t)
    ensures SoundLedger(Apply(t, e))
    ensures forall k :: k in t.payments ==> k in Apply(t, e).payments && Forward(t.payments[k], Apply(t, e).payments[k])
  {
    OnlyOnePaymentChanges(t, e);
    PaymentStep(t, e);
  }

  /** Every reachable state is sound, and no run ever takes a payment back. */
  lemma {:induction false} RunIsSound(t: Tables, trace: seq<Event>)
    requires SoundLedger(t)
    ensures SoundLedger(Run(t, trace))
    ensures forall k :: k in t.payments ==>
      k in Run(t, trace).payments && Forward(t.payments[k], Run(t, trace).payments[k])
  {
    if trace != [] {
      RunIsSound(t, trace[..|trace| - 1]);
      SoundStep(Run(t, trace[..|trace| - 1]), trace[|trace| - 1]);
    }
  }

  // ---------------------------------------------------------------- the refund table

  /** The creation order lists each refund row once. */
  ghost predicate Listed(refunds: map<Key, Refund>, order: seq<Key>) {
    && (forall i, j :: 0 <= i < j < |order| ==> order[i] != order[j])
    && (forall r :: r in order <==> r in refunds)
  }

  function Worth(row: Refund, k: Key): nat {
    if row.payment == k && row.status == RProcessed then row.amount else 0
  }

  /** What the processed refunds of a payment add up to. */
  function Processed(refunds: map<Key, Refund>, order: seq<Key>, k: Key): nat {
    if order == [] then 0
    else (if order[0] in refunds then Worth(refunds[order[0]], k) else 0) + Processed(refunds, order[1..], k)
  }

  lemma {:induction false} ProcessedFrame(refunds: map<Key, Refund>, order: seq<Key>, r: Key, row: Refund, k: Key)
    requires r !in order
    ensures Processed(refunds[r := row], order, k) == Processed(refunds, order, k)
  {
    if order != [] {
      ProcessedFrame(refunds, order[1..], r, row, k);
    }
  }

  lemma {:induction false} ProcessedUpdate(refunds: map<Key, Refund>, order: seq<Key>, r: Key, row: Refund, k: Key)
    requires r in order && r in refunds && forall i, j :: 0 <= i < j < |order| ==> order[i] != order[j]
    ensures Processed(refunds[r := row], order, k) ==
      Processed(refunds, order, k) - Worth(refunds[r], k) + Worth(row, k)
  {
    if order[0] == r {
      ProcessedFrame(refunds, order[1..], r, row, k);
    } else {
      ProcessedUpdate(refunds, order[1..], r, row, k);
    }
  }

  lemma {:induction false} ProcessedSnoc(refunds: map<Key, Refund>, order: seq<Key>, r: Key, k: Key)
    ensures Processed(refunds, order + [r], k) ==
      Processed(refunds, order, k) + if r in refunds then Worth(refunds[r], k) else 0
  {
    if order == [] {
      assert [] + [r] == [r];
    } else {
      assert (order + [r])[1..] == order[1..] + [r];
      ProcessedSnoc(refunds, order[1..], r, k);
    }
  }

  /** Settling moves refunded amount and processed sum together, and only for its payment. */
  lemma {:induction false} SettleAllAccounts(
    p: Payment, refunds: map<Key, Refund>, k: Key, todo: seq<Key>, order: seq<Key>, x: Key)
    requires Listed(refunds, order) && forall r :: r in todo ==> r in order
    ensures var (q, rs) := SettleAll(p, refunds, k, todo);
      && Listed(rs, order)
      && Processed(rs, order, x) - Processed(refunds, order, x) == if x == k then q.refunded - p.refunded else 0
    decreases |todo|
  {
    if todo != [] {
      if Held(refunds, todo[0], k) {
        var row := refunds[todo[0]];
        ProcessedUpdate(refunds, order, todo[0], SettledRow(p, row), x);
        SettleAllAccounts(SettledPayment(p, row), refunds[todo[0] := SettledRow(p, row)], k, todo[1..], order, x);
      } else {
        SettleAllAccounts(p, refunds, k, todo[1..], order, x);
      }
    }
  }

  lemma ListedStep(t: Tables, e: Event)
    requires Listed(t.refunds, t.refundOrder)
    ensures Listed(Apply(t, e).refunds, Apply(t, e).refundOrder)
  {
    var p := EnsuredPayment(t.payments, e);
    if !Blocked(p, e) && IsCapture(e.kind) {
      SettleAllAccounts(Advanced(p, e), t.refunds, PaymentKey(e), t.refundOrder, t.refundOrder, PaymentKey(e));
    }
  }

  // ---------------------------------------------------------------- conservation

  /** The reference of a refund event is not already the reference of another payment's refund. */
  predicate NamesItsPayment(t: Tables, e: Event) {
    IsRefund(e.kind) && RefundKey(e) in t.refunds ==> t.refunds[RefundKey(e)].payment == PaymentKey(e)
  }

  /** A refund event that takes `processed` away: another amount, a failure, or an unknown status. */
  predicate Demotes(row: Refund, e: Event) {
    row.status == RProcessed &&
      (row.amount != RefundAmount(e) || ProviderStatus(e) !in {RProcessed, RCreated, RPending, RUpdated})
  }

  /** What an event takes out of the processed sum of a payment without reversing the credit. */
  function Demoted(t: Tables, e: Event, k: Key): nat {
    if IsRefund(e.kind) && RefundKey(e) in t.refunds && Demotes(t.refunds[RefundKey(e)], e)
    then Worth(t.refunds[RefundKey(e)], k) else 0
  }

  function Credit(t: Tables, k: Key): nat {
    if k in t.payments then t.payments[k].refunded else 0
  }

  function ProcessedOf(t: Tables, k: Key): nat {
    Processed(t.refunds, t.refundOrder, k)
  }

  /** What a refund event credits. */
  function Credited(t: Tables, e: Event): nat {
    var p, row := EnsuredPayment(t.payments, e), EnsuredRefund(t.refunds, e);
    if Credits(p, row, e) && Settles(p, row) then row.amount else 0
  }

  /** What an event credits to a payment for another one's refund, less what another is credited for its own. */
  function Crossed(t: Tables, e: Event, k: Key): int {
    if !IsRefund(e.kind) then 0
    else
      (if k == PaymentKey(e) then Credited(t, e) else 0)
      - (if k == EnsuredRefund(t.refunds, e).payment then Credited(t, e) else 0)
  }

  lemma RefundRowAccounts(p: Payment, row: Refund, e: Event, k: Key)
    ensures var gain := RefundPaymentAfter(p, row, e).refunded - p.refunded;
      && gain == (if Credits(p, row, e) && Settles(p, row) then row.amount else 0)
      && Worth(RefundRowAfter(p, row, e), k) - Worth(row, k) ==
         if row.payment == k then gain - (if Demotes(row, e) then row.amount else 0) else 0
    ensures RefundRowAfter(p, row, e).payment == row.payment
  {}

  lemma RefundEventAccounts(t: Tables, e: Event, k: Key)
    requires IsRefund(e.kind) && Listed(t.refunds, t.refundOrder)
    ensures var p := EnsuredPayment(t.payments, e);
      var (q, rs) := MoneyAfter(t.refunds, t.refundOrder, p, e);
      var order := RefundOrderAfter(t.refunds, t.refundOrder, e);
      && Listed(rs, order) && q.refunded - p.refunded == Credited(t, e)
      && Processed(rs, order, k) - ProcessedOf(t, k)
         == (if k == EnsuredRefund(t.refunds, e).payment then Credited(t, e) else 0) - Demoted(t, e, k)
  {
    var p, r, row := EnsuredPayment(t.payments, e), RefundKey(e), EnsuredRefund(t.refunds, e);
    var after := RefundRowAfter(p, row, e);
    RefundRowAccounts(p, row, e, k);
    if r in t.refunds {
      ProcessedUpdate(t.refunds, t.refundOrder, r, after, k);
    } else {
      ProcessedFrame(t.refunds, t.refundOrder, r, after, k);
      ProcessedSnoc(t.refunds[r := after], t.refundOrder, r, k);
    }
  }

  lemma AccountsStep(t: Tables, e: Event, k: Key)
    requires Listed(t.refunds, t.refundOrder)
    ensures Listed(Apply(t, e).refunds, Apply(t, e).refundOrder)
    ensures Credit(Apply(t, e), k) - ProcessedOf(Apply(t, e), k) ==
      Credit(t, k) - ProcessedOf(t, k) + Demoted(t, e, k) + Crossed(t, e, k)
  {
    var p := EnsuredPayment(t.payments, e);
    if !Blocked(p, e) {
      if IsRefund(e.kind) {
        RefundEventAccounts(t, e, k);
      } else if IsCapture(e.kind) {
        SettleAllAccounts(Advanced(p, e), t.refunds, PaymentKey(e), t.refundOrder, t.refundOrder, k);
      }
    }
  }

  function TotalDemoted(trace: seq<Event>, k: Key): nat {
    if trace == [] then 0
    else
      var init, last := trace[..|trace| - 1], trace[|trace| - 1];
      TotalDemoted(init, k) + Demoted(Run(EMPTY, init), last, k)
  }

  function TotalCrossed(trace: seq<Event>, k: Key): int {
    if trace == [] then 0
    else
      var init, last := trace[..|trace| - 1], trace[|trace| - 1];
      TotalCrossed(init, k) + Crossed(Run(EMPTY, init), last, k)
  }

  /**
    Over every run the refunded amount of a payment is the processed sum of its refunds,
    plus what was demoted after having been credited, plus what was credited to it for
    other payments' refunds less what others were credited for its own.
   */
  lemma {:induction false} RefundConservation(trace: seq<Event>, k: Key)
    ensures var t := Run(EMPTY, trace);
      && Listed(t.refunds, t.refundOrder)
      && Credit(t, k) == ProcessedOf(t, k) + TotalDemoted(trace, k) + TotalCrossed(trace, k)
  {
    if trace != [] {
      var init, last := trace[..|trace| - 1], trace[|trace| - 1];
      RefundConservation(init, k);
      AccountsStep(Run(EMPTY, init), last, k);
    }
  }

  /** Each refund reference of the trace names one payment. */
  ghost predicate OneOwner(trace: seq<Event>, owner: Key -> Key) {
    forall e :: e in trace && IsRefund(e.kind) ==> owner(RefundKey(e)) == PaymentKey(e)
  }

  ghost predicate OwnedRows(t: Tables, owner: Key -> Key) {
    forall r :: r in t.refunds ==> t.refunds[r].payment == owner(r)
  }

  lemma {:induction false} SettleAllKeepsRows(p: Payment, refunds: map<Key, Refund>, k: Key, order: seq<Key>)
    ensures var rs := SettleAll(p, refunds, k, order).1;
      && rs.Keys == refunds.Keys
      && forall r :: r in refunds ==>
        && rs[r].payment == refunds[r].payment && rs[r].amount == refunds[r].amount
        && (!Held(refunds, r, k) ==> rs[r] == refunds[r])
        && (Held(rs, r, k) ==> r !in order)
    decreases |order|
  {
    if order != [] {
      if Held(refunds, order[0], k) {
        var row := refunds[order[0]];
        SettleAllKeepsRows(SettledPayment(p, row), refunds[order[0] := SettledRow(p, row)], k, order[1..]);
      } else {
        SettleAllKeepsRows(p, refunds, k, order[1..]);
      }
    }
  }

  lemma OwnersStep(t: Tables, e: Event, owner: Key -> Key)
    requires OwnedRows(t, owner) && OneOwner([e], owner)
    ensures NamesItsPayment(t, e) && OwnedRows(Apply(t, e), owner)
  {
    assert e in [e];
    var p := EnsuredPayment(t.payments, e);
    if !Blocked(p, e) && IsCapture(e.kind) {
      SettleAllKeepsRows(Advanced(p, e), t.refunds, PaymentKey(e), t.refundOrder);
    }
  }

  /** Where each reference names one payment nothing crosses, and the two differ by what was demoted. */
  lemma {:induction false} OneOwnerConserves(trace: seq<Event>, k: Key, owner: Key -> Key)
    requires OneOwner(trace, owner)
    ensures var t := Run(EMPTY, trace);
      OwnedRows(t, owner) && TotalCrossed(trace, k) == 0 && Credit(t, k) == ProcessedOf(t, k) + TotalDemoted(trace, k)
  {
    if trace != [] {
      var init, last := trace[..|trace| - 1], trace[|trace| - 1];
      OneOwnerConserves(init, k, owner);
      OwnersStep(Run(EMPTY, init), last, owner);
    }
    RefundConservation(trace, k);
  }

  // ---------------------------------------------------------------- tenants

  /** A refund row belongs to a payment of its own tenant scope. */
  ghost predicate RowsInScope(t: Tables) {
    forall r :: r in t.refunds ==> t.refunds[r].payment.scope == r.scope
  }

  ghost predicate SameRows(t: Tables, u: Tables, k: Key) {
    && (k in u.payments <==> k in t.payments) && (k in t.payments ==> u.payments[k] == t.payments[k])
    && (k in u.refunds <==> k in t.refunds) && (k in t.refunds ==> u.refunds[k] == t.refunds[k])
    && (k in u.orders <==> k in t.orders) && (k in t.orders ==> u.orders[k] == t.orders[k])
  }

  lemma RowsInScopeStep(t: Tables, e: Event)
    requires RowsInScope(t)
    ensures RowsInScope(Apply(t, e))
  {
    var p := EnsuredPayment(t.payments, e);
    if !Blocked(p, e) && IsCapture(e.kind) {
      SettleAllKeepsRows(Advanced(p, e), t.refunds, PaymentKey(e), t.refundOrder);
    }
  }

  lemma ScopeStep(t: Tables, e: Event, k: Key)
    requires RowsInScope(t) && k.scope != e.scope
    ensures SameRows(t, Apply(t, e), k)
  {
    var p := EnsuredPayment(t.payments, e);
    if !Blocked(p, e) && IsCapture(e.kind) {
      SettleAllKeepsRows(Advanced(p, e), t.refunds, PaymentKey(e), t.refundOrder);
    }
  }

  /** A run of other tenants' events changes no row of this tenant scope. */
  lemma {:induction false} TenantIsolation(t: Tables, trace: seq<Event>, k: Key)
    requires RowsInScope(t) && forall e :: e in trace ==> e.scope != k.scope
    ensures RowsInScope(Run(t, trace)) && SameRows(t, Run(t, trace), k)
  {
    if trace != [] {
      var init, last := trace[..|trace| - 1], trace[|trace| - 1];
      TenantIsolation(t, init, k);
      RowsInScopeStep(Run(t, init), last);
      ScopeStep(Run(t, init), last, k);
    }
  }
}
