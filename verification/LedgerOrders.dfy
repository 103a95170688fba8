/**
  Orders over every run of the ledger: none is paid without a captured payment behind it,
  for exactly the amount it records; none is ever taken back.
 */
module LedgerOrders {
  import opened Common
  import opened Ledger
  import opened LedgerRefunds

  /** A captured payment of the order's scope whose principal is what the order records as paid. */
  predicate PaysFor(t: Tables, k: Key, o: Key)
    requires o in t.orders
  {
    && k in t.payments && k.scope == o.scope
    && Captured(t.payments[k].status) && t.payments[k].amount == t.orders[o].amountPaid
  }

  ghost predicate Backed(t: Tables, o: Key)
    requires o in t.orders
  {
    && (t.orders[o].paid <==> t.orders[o].paidAt.Some?)
    && (if t.orders[o].paid then exists k :: PaysFor(t, k, o) else t.orders[o].amountPaid == 0)
  }

  ghost predicate AllBacked(t: Tables) {
    forall o :: o in t.orders ==> Backed(t, o)
  }

  /** What an order records only moves on: paid for good, from the first time, for no less. */
  predicate OrderForward(p: Order, q: Order) {
    && (p.paid ==> q.paid && q.paidAt == p.paidAt) && p.amountPaid <= q.amountPaid
    && (p.amount != 0 ==> q.amount == p.amount)
  }

  /** The payment an event's order is marked paid with, if it is. */
  predicate Pays(t: Tables, e: Event, o: Key) {
    var p := EnsuredPayment(t.payments, e);
    && !Blocked(p, e) && IsCapture(e.kind) && Captured(PaymentAfter(t, e).status)
    && OrderRef(Advanced(p, e), e) != "" && o == Key(e.scope, OrderRef(Advanced(p, e), e))
  }

  /** One order after one event: marked paid by its capture, or at most given its amount. */
  lemma OrderStep(t: Tables, e: Event, o: Key)
    requires o in Apply(t, e).orders
    ensures var q := Apply(t, e).orders[o];
      var p := if o in t.orders then t.orders[o] else Order(q.amount, false, 0, None);
      && (p.amount != 0 ==> q.amount == p.amount)
      && (if Pays(t, e, o) then
            && q.paid && q.amountPaid == Max(p.amountPaid, PaymentAfter(t, e).amount)
            && q.paidAt == (if p.paidAt == None then Some(e.occurredAt) else p.paidAt)
          else q.paid == p.paid && q.amountPaid == p.amountPaid && q.paidAt == p.paidAt)
  {}

  lemma PayerKept(t: Tables, e: Event, k: Key, o: Key)
    requires SoundLedger(t) && o in t.orders && PaysFor(t, k, o)
    ensures var u := Apply(t, e);
      k in u.payments && Captured(u.payments[k].status) && u.payments[k].amount == t.payments[k].amount
  {
    SoundStep(t, e);
  }

  lemma BackedStep(t: Tables, e: Event, o: Key)
    requires SoundLedger(t) && AllBacked(t) && o in Apply(t, e).orders
    ensures Backed(Apply(t, e), o)
    ensures o in t.orders ==> OrderForward(t.orders[o], Apply(t, e).orders[o])
  {
    var u := Apply(t, e);
    OrderStep(t, e, o);
    OnlyOnePaymentChanges(t, e);
    if Pays(t, e, o) && u.orders[o].amountPaid == PaymentAfter(t, e).amount {
      assert PaysFor(u, PaymentKey(e), o);
    } else if o in t.orders && t.orders[o].paid {
      var k :| PaysFor(t, k, o);
      PayerKept(t, e, k, o);
      assert PaysFor(u, k, o);
    }
  }

  ghost predicate OrdersKept(t: Tables, u: Tables) {
    forall o :: o in t.orders ==> o in u.orders && OrderForward(t.orders[o], u.orders[o])
  }

  ghost predicate Named(t: Tables) {
    forall o :: o in t.orders ==> o.id != ""
  }

  lemma OrdersStayKnown(t: Tables, e: Event)
    ensures forall o :: o in t.orders ==> o in Apply(t, e).orders
    ensures Named(t) ==> Named(Apply(t, e))
  {}

  /** One event keeps every paid order backed and takes none back. */
  lemma OrdersStep(t: Tables, e: Event)
    requires SoundLedger(t) && AllBacked(t)
    ensures AllBacked(Apply(t, e)) && OrdersKept(t, Apply(t, e))
  {
    OrdersStayKnown(t, e);
    forall o | o in Apply(t, e).orders
      ensures Backed(Apply(t, e), o) && (o in t.orders ==> OrderForward(t.orders[o], Apply(t, e).orders[o]))
    {
      BackedStep(t, e, o);
    }
  }

  lemma KeptThrough(t: Tables, u: Tables, v: Tables)
    requires OrdersKept(t, u) && OrdersKept(u, v)
    ensures OrdersKept(t, v)
  {
    forall o | o in t.orders ensures o in v.orders && OrderForward(t.orders[o], v.orders[o]) {
      assert OrderForward(t.orders[o], u.orders[o]) && OrderForward(u.orders[o], v.orders[o]);
    }
  }

  /** Every paid order of a reachable state is backed by a captured payment; no order is taken back. */
  lemma {:induction false} PaidOrdersBacked(t: Tables, trace: seq<Event>)
    requires SoundLedger(t) && AllBacked(t)
    ensures AllBacked(Run(t, trace)) && OrdersKept(t, Run(t, trace))
  {
    if trace != [] {
      var u, e := Run(t, trace[..|trace| - 1]), trace[|trace| - 1];
      PaidOrdersBacked(t, trace[..|trace| - 1]);
      RunIsSound(t, trace[..|trace| - 1]);
      OrdersStep(u, e);
      KeptThrough(t, u, Apply(u, e));
    }
  }

  // ---------------------------------------------------------------- backed by its own payment

  /** A captured payment of this very order for this amount. */
  predicate OwnPayment(t: Tables, k: Key, o: Key, amount: nat) {
    && k in t.payments && k.scope == o.scope && Captured(t.payments[k].status)
    && t.payments[k].orderRef == o.id && t.payments[k].amount == amount
  }

  /** What a paid order records is backed by a payment of that order. */
  ghost predicate OwnBacked(t: Tables, o: Key) {
    o in t.orders && t.orders[o].paid ==> exists k :: OwnPayment(t, k, o, t.orders[o].amountPaid)
  }

  ghost predicate AllOwnBacked(t: Tables) {
    forall o :: OwnBacked(t, o)
  }

  function PaidBefore(t: Tables, o: Key): nat {
    if o in t.orders then t.orders[o].amountPaid else 0
  }

  /** The order a capture event works on. */
  function EventOrder(t: Tables, e: Event): Key {
    Key(e.scope, OrderRef(EnsuredPayment(t.payments, e), e))
  }

  /**
    A capture event that marks an order paid with a payment of another order, while no
    payment of the order itself is captured for the amount then recorded.
   */
  ghost predicate Strays(t: Tables, e: Event) {
    var p, o := EnsuredPayment(t.payments, e), EventOrder(t, e);
    && Pays(t, e, o) && p.orderRef != o.id
    && !exists k :: OwnPayment(t, k, o, Max(PaidBefore(t, o), p.amount))
  }

  /** The payment row after an event: its order reference, principal and capture. */
  lemma RowAfter(t: Tables, e: Event)
    requires SoundLedger(t)
    ensures var p, q := EnsuredPayment(t.payments, e), PaymentAfter(t, e);
      && q.orderRef == p.orderRef && q.amount == p.amount
      && (!IsCapture(e.kind) ==> (Captured(q.status) <==> Captured(p.status)))
      && (IsCapture(e.kind) ==> Captured(q.status))
  {
    var p := EnsuredPayment(t.payments, e);
    CaptureLands(t, e);
    if !Blocked(p, e) && IsCapture(e.kind) {
      SettleAllSound(Advanced(p, e), t.refunds, PaymentKey(e), t.refundOrder);
      SettleAllRef(Advanced(p, e), t.refunds, PaymentKey(e), t.refundOrder);
    }
  }

  lemma {:induction false} SettleAllRef(p: Payment, refunds: map<Key, Refund>, k: Key, order: seq<Key>)
    ensures SettleAll(p, refunds, k, order).0.orderRef == p.orderRef
    decreases |order|
  {
    if order != [] {
      if Held(refunds, order[0], k) {
        var row := refunds[order[0]];
        SettleAllRef(SettledPayment(p, row), refunds[order[0] := SettledRow(p, row)], k, order[1..]);
      } else {
        SettleAllRef(p, refunds, k, order[1..]);
      }
    }
  }

  /** A payment of an order stays one; only the event's own payment can become one. */
  lemma OwnPaymentStep(t: Tables, e: Event, k: Key, o: Key, amount: nat)
    requires SoundLedger(t) && o.id != ""
    ensures OwnPayment(t, k, o, amount) ==> OwnPayment(Apply(t, e), k, o, amount)
    ensures k != PaymentKey(e) ==> (OwnPayment(t, k, o, amount) <==> OwnPayment(Apply(t, e), k, o, amount))
  {
    OnlyOnePaymentChanges(t, e);
    RowAfter(t, e);
  }

  /** An order the event does not mark paid stays backed as it was. */
  lemma UnpaidStep(t: Tables, e: Event, o: Key)
    requires SoundLedger(t) && Named(t) && OwnBacked(t, o) && !Pays(t, e, o)
    ensures OwnBacked(Apply(t, e), o)
  {
    var u := Apply(t, e);
    if o in u.orders && u.orders[o].paid {
      OrderStep(t, e, o);
      var k :| OwnPayment(t, k, o, t.orders[o].amountPaid);
      OwnPaymentStep(t, e, k, o, t.orders[o].amountPaid);
    }
  }

  /** The order an event marks paid is backed by its own payment exactly if the event does not stray. */
  lemma PaidStep(t: Tables, e: Event, o: Key)
    requires SoundLedger(t) && AllBacked(t) && Pays(t, e, o) && OwnBacked(t, o)
    ensures OwnBacked(Apply(t, e), o) <==> !Strays(t, e)
  {
    var u, p, amount := Apply(t, e), EnsuredPayment(t.payments, e), PaymentAfter(t, e).amount;
    assert o == EventOrder(t, e);
    RowAfter(t, e);
    OrderStep(t, e, o);
    OnlyOnePaymentChanges(t, e);
    var paid := Max(PaidBefore(t, o), amount);
    assert o in u.orders && u.orders[o].paid && u.orders[o].amountPaid == paid;
    if k :| OwnPayment(t, k, o, paid) {
      OwnPaymentStep(t, e, k, o, paid);
      assert OwnPayment(u, k, o, paid);
    } else {
      assert paid == amount;
      if p.orderRef == o.id {
        assert OwnPayment(u, PaymentKey(e), o, paid);
      } else if k :| OwnPayment(u, k, o, paid) {
        OwnPaymentStep(t, e, k, o, paid);
      }
    }
  }

  /** One event leaves every paid order backed by a payment of its own if and only if it does not stray. */
  lemma OwnStep(t: Tables, e: Event)
    requires SoundLedger(t) && AllBacked(t) && Named(t) && AllOwnBacked(t)
    ensures AllOwnBacked(Apply(t, e)) <==> !Strays(t, e)
  {
    var u := Apply(t, e);
    if Strays(t, e) {
      assert OwnBacked(t, EventOrder(t, e));
      PaidStep(t, e, EventOrder(t, e));
      assert !OwnBacked(u, EventOrder(t, e));
    } else {
      forall o ensures OwnBacked(u, o) {
        assert OwnBacked(t, o);
        if Pays(t, e, o) {
          PaidStep(t, e, o);
        } else {
          UnpaidStep(t, e, o);
        }
      }
    }
  }

  ghost predicate AlwaysOwnBacked(trace: seq<Event>) {
    && AllOwnBacked(Run(EMPTY, trace))
    && (trace != [] ==> AlwaysOwnBacked(trace[..|trace| - 1]))
  }

  ghost predicate NeverStrays(trace: seq<Event>) {
    trace != [] ==>
      !Strays(Run(EMPTY, trace[..|trace| - 1]), trace[|trace| - 1]) && NeverStrays(trace[..|trace| - 1])
  }

  lemma {:induction false} RunNamed(trace: seq<Event>)
    ensures Named(Run(EMPTY, trace))
  {
    if trace != [] {
      RunNamed(trace[..|trace| - 1]);
    }
  }

  /**
    All along a run, each paid order is backed by a captured payment of that very order if
    and only if no capture strays.
   */
  lemma {:induction false} OwnBackedExact(trace: seq<Event>)
    ensures AlwaysOwnBacked(trace) <==> NeverStrays(trace)
  {
    if trace != [] {
      var init, e := trace[..|trace| - 1], trace[|trace| - 1];
      OwnBackedExact(init);
      RunNamed(init);
      RunIsSound(EMPTY, init);
      PaidOrdersBacked(EMPTY, init);
      if AllOwnBacked(Run(EMPTY, init)) {
        OwnStep(Run(EMPTY, init), e);
      }
    }
  }

  /** Each capture names no order, or the order of its payment. */
  ghost predicate CapturesNameOwnOrder(trace: seq<Event>) {
    trace != [] ==>
      var init, e := trace[..|trace| - 1], trace[|trace| - 1];
      && CapturesNameOwnOrder(init)
      && (IsCapture(e.kind) ==> e.orderRef in {"", EnsuredPayment(Run(EMPTY, init).payments, e).orderRef})
  }

  lemma {:induction false} OwnOrdersBacked(trace: seq<Event>)
    requires CapturesNameOwnOrder(trace)
    ensures NeverStrays(trace) && AlwaysOwnBacked(trace)
  {
    if trace != [] {
      OwnOrdersBacked(trace[..|trace| - 1]);
    }
    OwnBackedExact(trace);
  }

  // ---------------------------------------------------------------- one payment, two orders

  function CaptureOf(id: string, kind: EventKind, order: string): Event {
    Event(kind, SHOP, id, 0, "A", 1000, order, 1000, 0, "", 0, None)
  }

  const A := Key(SHOP, "A")
  const O := Key(SHOP, "O")
  const X := Key(SHOP, "X")
  const PAYMENT := Payment("O", 1000, 0, Success, 0)
  const PAID := Order(1000, true, 1000, Some(0))

  lemma FirstCapture(id: string)
    ensures Apply(EMPTY, CaptureOf(id, PaymentSuccess, "O")) == Tables(map[A := PAYMENT], map[], [], map[O := PAID])
  {}

  lemma SecondCapture(id: string)
    ensures Apply(Tables(map[A := PAYMENT], map[], [], map[O := PAID]), CaptureOf(id, OrderPaid, "X"))
            == Tables(map[A := PAYMENT], map[], [], map[O := PAID, X := PAID])
  {}

  /** Order X is paid, and the only payment is order O's. */
  lemma NotItsOwn()
    ensures !OwnBacked(Tables(map[A := PAYMENT], map[], [], map[O := PAID, X := PAID]), X)
  {
    assert "O"[0] != "X"[0];
  }

  /** A capture of one payment, then `order.paid` of it naming another order: both orders are paid with it. */
  lemma OnePaymentTwoOrders()
    ensures var trace := [CaptureOf("evt_1", PaymentSuccess, "O"), CaptureOf("evt_2", OrderPaid, "X")];
      && Receivable(trace) && !NeverStrays(trace)
      && Run(EMPTY, trace) == Tables(map[A := PAYMENT], map[], [], map[O := PAID, X := PAID])
  {
    var a, b := CaptureOf("evt_1", PaymentSuccess, "O"), CaptureOf("evt_2", OrderPaid, "X");
    assert [a, b][..1] == [a] && [a][..0] == [];
    assert Run(EMPTY, [a]) == Apply(EMPTY, a);
    assert Run(EMPTY, [a, b]) == Apply(Run(EMPTY, [a]), b);
    FirstCapture("evt_1");
    SecondCapture("evt_2");
    NotItsOwn();
    assert !AllOwnBacked(Run(EMPTY, [a, b]));
    OwnBackedExact([a, b]);
    assert "evt_1"[4] != "evt_2"[4];
  }
}
