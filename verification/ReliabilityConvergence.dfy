/**
  Out-of-order convergence of the correct integration: whatever the order, and however
  often each event is redelivered, the payments end with the same statuses and the
  orders with the same fulfilment counts and paid flags.
 */
module ReliabilityConvergence {
  import opened ReliabilityEngine
  import opened ReliabilityTheorems

  /** An event id names one event: redeliveries repeat it unchanged. */
  ghost predicate IdsNameEvents(trace: seq<Event>) {
    forall a, b :: a in trace && b in trace && a.id == b.id ==> a == b
  }

  /** The events of a trace the correct integration may act on, by payment and kind. */
  ghost predicate Sees(s: Setup, trace: seq<Event>, payment: string, kind: EventKind) {
    exists ev :: ev in trace && ev.signed && ev.tenant == s.home && ev.payment == payment && ev.kind == kind
  }

  ghost predicate SeesOrder(s: Setup, trace: seq<Event>, order: string, kind: EventKind) {
    exists ev :: ev in trace && ev.signed && ev.tenant == s.home && ev.order == order && ev.kind == kind
  }

  ghost predicate Known(s: Setup, trace: seq<Event>, payment: string) {
    exists ev :: ev in trace && ev.signed && ev.tenant == s.home && ev.payment == payment
  }

  /** The greatest status among created < failed < authorized < captured that the trace reports. */
  ghost function FinalStatus(s: Setup, trace: seq<Event>, payment: string): PaymentStatus {
    if Sees(s, trace, payment, PaymentCaptured) then Captured
    else if Sees(s, trace, payment, PaymentAuthorized) then Authorized
    else if Sees(s, trace, payment, PaymentFailed) then Failed
    else Created
  }

  predicate Acts(s: Setup, w: World, ev: Event) {
    ev.signed && ev.tenant == s.home && ev.id !in w.seen
  }

  lemma SeesSnoc(s: Setup, init: seq<Event>, ev: Event, payment: string, kind: EventKind)
    ensures Sees(s, init + [ev], payment, kind) <==>
      Sees(s, init, payment, kind) || (ev.signed && ev.tenant == s.home && ev.payment == payment && ev.kind == kind)
  {
    assert forall x :: x in init + [ev] <==> x in init || x == ev;
  }

  lemma SeesOrderSnoc(s: Setup, init: seq<Event>, ev: Event, order: string, kind: EventKind)
    ensures SeesOrder(s, init + [ev], order, kind) <==>
      SeesOrder(s, init, order, kind) || (ev.signed && ev.tenant == s.home && ev.order == order && ev.kind == kind)
  {
    assert forall x :: x in init + [ev] <==> x in init || x == ev;
  }

  lemma KnownSnoc(s: Setup, init: seq<Event>, ev: Event, payment: string)
    ensures Known(s, init + [ev], payment) <==>
      Known(s, init, payment) || (ev.signed && ev.tenant == s.home && ev.payment == payment)
  {
    assert forall x :: x in init + [ev] <==> x in init || x == ev;
  }

  /** An id already seen belongs to an event that was delivered, signed, before. */
  lemma {:induction false} SeenWasDelivered(s: Setup, trace: seq<Event>, id: string)
    requires s.policy == CORRECT
    ensures id in Outcome(s, trace).seen ==> exists ev :: ev in trace && ev.signed && ev.id == id
  {
    if trace != [] {
      var init, ev := trace[..|trace| - 1], trace[|trace| - 1];
      OutcomeSnoc(s, trace);
      SeenWasDelivered(s, init, id);
      assert forall x :: x in init ==> x in trace;
      assert ev in trace;
    }
  }

  function Rank(st: PaymentStatus): nat {
    match st case Created => 0 case Failed => 1 case Authorized => 2 case Captured => 3
  }

  /** Every event moves a payment up the order created < failed < authorized < captured, or leaves it. */
  lemma StatusStep(pay: Payment, ev: Event, accepted: bool)
    ensures var st := PaymentAfter(pay, ev, accepted).status;
      match ev.kind
      case PaymentCaptured => st == Captured
      case PaymentAuthorized => st == if Rank(pay.status) > 2 then pay.status else Authorized
      case PaymentFailed => st == if Rank(pay.status) > 1 then pay.status else Failed
      case _ => st == pay.status
  {}

  lemma PaymentStep(s: Setup, w: World, ev: Event, payment: string)
    requires w.home == s.home
    ensures var w' := Apply(w, CORRECT, ev);
      if Acts(s, w, ev) && ev.payment == payment then
        && payment in w'.payments
        && w'.payments[payment].status == PaymentAfter(PaymentOf(w, ev), ev, Accepts(w, CORRECT, ev)).status
      else
        && (payment in w'.payments <==> payment in w.payments)
        && (payment in w.payments ==> w'.payments[payment] == w.payments[payment])
  {
    assert Admits(w, CORRECT, ev) <==> Acts(s, w, ev);
  }

  /** A delivery that is not acted on was either never valid or is a repetition. */
  lemma IgnoredIsKnown(s: Setup, trace: seq<Event>)
    requires trace != [] && s.policy == CORRECT && IdsNameEvents(trace)
    ensures var init, ev := trace[..|trace| - 1], trace[|trace| - 1];
      && IdsNameEvents(init)
      && (ev.signed && ev.tenant == s.home && !Acts(s, Outcome(s, init), ev) ==> ev in init)
  {
    var init, ev := trace[..|trace| - 1], trace[|trace| - 1];
    assert forall x :: x in init ==> x in trace;
    SeenWasDelivered(s, init, ev.id);
  }

  lemma {:induction false} PaymentConverges(s: Setup, trace: seq<Event>, payment: string)
    requires s.policy == CORRECT && IdsNameEvents(trace)
    ensures var w := Outcome(s, trace);
      && (payment in w.payments <==> Known(s, trace, payment))
      && (payment in w.payments ==> w.payments[payment].status == FinalStatus(s, trace, payment))
  {
    if trace != [] {
      var init, ev := trace[..|trace| - 1], trace[|trace| - 1];
      OutcomeSnoc(s, trace);
      IgnoredIsKnown(s, trace);
      PaymentConverges(s, init, payment);
      KnownSnoc(s, init, ev, payment);
      SeesSnoc(s, init, ev, payment, PaymentCaptured);
      SeesSnoc(s, init, ev, payment, PaymentAuthorized);
      SeesSnoc(s, init, ev, payment, PaymentFailed);
      var w := Outcome(s, init);
      PaymentStep(s, w, ev, payment);
      if Acts(s, w, ev) && ev.payment == payment {
        StatusStep(PaymentOf(w, ev), ev, Accepts(w, CORRECT, ev));
      }
    }
  }

  lemma {:induction false} OrderConverges(s: Setup, trace: seq<Event>, order: string)
    requires s.policy == CORRECT && IdsNameEvents(trace)
    ensures var w := Outcome(s, trace);
      && (order in w.orders <==> SeesOrder(s, trace, order, PaymentCaptured) || SeesOrder(s, trace, order, OrderPaid))
      && (order in w.orders ==>
            && w.orders[order].fulfilled == (if SeesOrder(s, trace, order, PaymentCaptured) then 1 else 0)
            && w.orders[order].paidExpected == SeesOrder(s, trace, order, OrderPaid))
  {
    if trace != [] {
      var init, ev := trace[..|trace| - 1], trace[|trace| - 1];
      OutcomeSnoc(s, trace);
      IgnoredIsKnown(s, trace);
      OrderConverges(s, init, order);
      SeesOrderSnoc(s, init, ev, order, PaymentCaptured);
      SeesOrderSnoc(s, init, ev, order, OrderPaid);
      var w := Outcome(s, init);
      assert Admits(w, CORRECT, ev) <==> Acts(s, w, ev);
    }
  }

  /** What a merchant reads off the world: statuses, fulfilment counts and paid flags. */
  datatype View = View(statuses: map<string, PaymentStatus>, orders: map<string, Order>)

  function ViewOf(w: World): View {
    View(map id | id in w.payments :: w.payments[id].status, w.orders)
  }

  lemma StatusAgrees(s: Setup, a: seq<Event>, b: seq<Event>, id: string)
    requires s.policy == CORRECT && IdsNameEvents(a) && IdsNameEvents(b)
    requires forall ev :: ev in a <==> ev in b
    ensures var va, vb := ViewOf(Outcome(s, a)).statuses, ViewOf(Outcome(s, b)).statuses;
      (id in va <==> id in vb) && (id in va ==> va[id] == vb[id])
  {
    PaymentConverges(s, a, id);
    PaymentConverges(s, b, id);
  }

  lemma OrderAgrees(s: Setup, a: seq<Event>, b: seq<Event>, id: string)
    requires s.policy == CORRECT && IdsNameEvents(a) && IdsNameEvents(b)
    requires forall ev :: ev in a <==> ev in b
    ensures var va, vb := ViewOf(Outcome(s, a)).orders, ViewOf(Outcome(s, b)).orders;
      (id in va <==> id in vb) && (id in va ==> va[id] == vb[id])
  {
    OrderConverges(s, a, id);
    OrderConverges(s, b, id);
  }

  /** Any two traces of the same events, in any order and with any repetitions, end in the same view. */
  lemma OutOfOrderConvergence(s: Setup, a: seq<Event>, b: seq<Event>)
    requires s.policy == CORRECT && IdsNameEvents(a)
    requires forall ev :: ev in a <==> ev in b
    ensures ViewOf(Outcome(s, a)) == ViewOf(Outcome(s, b))
  {
    var va, vb := ViewOf(Outcome(s, a)), ViewOf(Outcome(s, b));
    forall id
      ensures (id in va.statuses <==> id in vb.statuses) && (id in va.statuses ==> va.statuses[id] == vb.statuses[id])
    {
      StatusAgrees(s, a, b, id);
    }
    assert va.statuses == vb.statuses;
    forall id ensures (id in va.orders <==> id in vb.orders) && (id in va.orders ==> va.orders[id] == vb.orders[id]) {
      OrderAgrees(s, a, b, id);
    }
    assert va.orders == vb.orders;
  }
}
