/**
  The Reliability Lab's scenario engine: a merchant webhook handler, parameterised by
  seven policy flags, that turns delivered provider events into a world of payments,
  orders and business effects.

  `Apply` says what one delivery does to the world; the class `Scenario` is the handler
  itself, which updates its tables in place and is proved to follow `Apply`.
 */
module ReliabilityEngine {

  datatype EventKind =
    | PaymentAuthorized | PaymentCaptured | PaymentFailed | OrderPaid
    | RefundProcessed | AgentPurchase | UnknownKind

  datatype Event = Event(
    id: string, signed: bool, tenant: string, kind: EventKind,
    payment: string, order: string, amount: nat)

  datatype Policy = Policy(
    verifySignature: bool, dedupe: bool, requireCaptured: bool, guardRefunds: bool,
    tenantScope: bool, mandateLimits: bool, singleFulfilment: bool)

  const CORRECT := Policy(true, true, true, true, true, true, true)

  datatype PaymentStatus = Created | Failed | Authorized | Captured

  datatype Payment = Payment(status: PaymentStatus, captured: nat, refunded: nat, tenant: string)

  datatype Order = Order(fulfilled: nat, paidExpected: bool)

  datatype EffectKind = Fulfilment | Refund | Purchase

  datatype Effect = Effect(
    kind: EffectKind, payment: string, order: string, tenant: string, amount: nat, source: string)

  datatype Note = NoNote | BadSignature | DuplicateDelivery | ForeignTenant | RefundTooLarge | MandateReplay

  datatype Delivery = Delivery(id: string, signed: bool, accepted: bool, note: Note)

  datatype World = World(
    payments: map<string, Payment>, orders: map<string, Order>, effects: seq<Effect>,
    processed: seq<Delivery>, seen: set<string>, home: string,
    mandateSingleUse: bool, mandateUsed: bool)

  function NewWorld(home: string, mandateSingleUse: bool): World {
    World(map[], map[], [], [], {}, home, mandateSingleUse, false)
  }

  function EffectOf(kind: EffectKind, ev: Event): Effect {
    Effect(kind, ev.payment, ev.order, ev.tenant, ev.amount, ev.id)
  }

  /** Why a delivery is turned away before it touches any payment, if it is. */
  function Refusal(w: World, p: Policy, ev: Event): Note {
    if p.verifySignature && !ev.signed then BadSignature
    else if p.dedupe && ev.id in w.seen then DuplicateDelivery
    else if p.tenantScope && ev.tenant != w.home then ForeignTenant
    else NoNote
  }

  predicate Admits(w: World, p: Policy, ev: Event) {
    Refusal(w, p, ev) == NoNote
  }

  function PaymentOf(w: World, ev: Event): Payment {
    if ev.payment in w.payments then w.payments[ev.payment] else Payment(Created, 0, 0, ev.tenant)
  }

  function OrderOf(w: World, ev: Event): Order {
    if ev.order in w.orders then w.orders[ev.order] else Order(0, false)
  }

  /** The note a delivery is logged with; `NoNote` means it was accepted. */
  function Verdict(w: World, p: Policy, ev: Event): Note {
    if !Admits(w, p, ev) then Refusal(w, p, ev)
    else if ev.kind == RefundProcessed && p.guardRefunds
      && PaymentOf(w, ev).refunded + ev.amount > PaymentOf(w, ev).captured then RefundTooLarge
    else if ev.kind == AgentPurchase && p.mandateLimits && w.mandateUsed then MandateReplay
    else NoNote
  }

  predicate Accepts(w: World, p: Policy, ev: Event) {
    Verdict(w, p, ev) == NoNote
  }

  /** The event kinds on which a handler tries to fulfil the order. */
  predicate TriesToFulfil(p: Policy, kind: EventKind) {
    if p.requireCaptured then kind == PaymentCaptured else kind == PaymentAuthorized || kind == OrderPaid
  }

  predicate Fulfils(w: World, p: Policy, ev: Event) {
    Accepts(w, p, ev) && TriesToFulfil(p, ev.kind) && !(p.singleFulfilment && OrderOf(w, ev).fulfilled != 0)
  }

  function PaymentAfter(pay: Payment, ev: Event, accepted: bool): Payment {
    match ev.kind
    case PaymentAuthorized => if pay.status == Captured then pay else pay.(status := Authorized)
    case PaymentCaptured => pay.(status := Captured, captured := ev.amount)
    case PaymentFailed =>
      if pay.status == Captured || pay.status == Authorized then pay else pay.(status := Failed)
    case RefundProcessed => if accepted then pay.(refunded := pay.refunded + ev.amount) else pay
    case _ => pay
  }

  function PaymentsAfter(w: World, p: Policy, ev: Event): map<string, Payment> {
    if Admits(w, p, ev) then w.payments[ev.payment := PaymentAfter(PaymentOf(w, ev), ev, Accepts(w, p, ev))]
    else w.payments
  }

  function OrderAfter(w: World, p: Policy, ev: Event): Order {
    var o := OrderOf(w, ev);
    Order(if Fulfils(w, p, ev) then o.fulfilled + 1 else o.fulfilled, o.paidExpected || ev.kind == OrderPaid)
  }

  function OrdersAfter(w: World, p: Policy, ev: Event): map<string, Order> {
    if Admits(w, p, ev) && (ev.kind == OrderPaid || TriesToFulfil(p, ev.kind))
    then w.orders[ev.order := OrderAfter(w, p, ev)]
    else w.orders
  }

  /** The business effects, none or one, that a delivery causes. */
  function Caused(w: World, p: Policy, ev: Event): (es: seq<Effect>)
    ensures |es| <= 1
  {
    if Fulfils(w, p, ev) then [EffectOf(Fulfilment, ev)]
    else if Accepts(w, p, ev) && ev.kind == RefundProcessed then [EffectOf(Refund, ev)]
    else if Accepts(w, p, ev) && ev.kind == AgentPurchase then [EffectOf(Purchase, ev)]
    else []
  }

  /** One delivery. */
  function Apply(w: World, p: Policy, ev: Event): World {
    World(
      PaymentsAfter(w, p, ev),
      OrdersAfter(w, p, ev),
      w.effects + Caused(w, p, ev),
      w.processed + [Delivery(ev.id, ev.signed, Accepts(w, p, ev), Verdict(w, p, ev))],
      if Refusal(w, p, ev) == BadSignature then w.seen else w.seen + {ev.id},
      w.home, w.mandateSingleUse,
      w.mandateUsed || (Accepts(w, p, ev) && ev.kind == AgentPurchase))
  }

  /** A whole trace, delivered in order. */
  function Run(w: World, p: Policy, trace: seq<Event>): World {
    if trace == [] then w
    else Apply(Run(w, p, trace[..|trace| - 1]), p, trace[|trace| - 1])
  }

  class Scenario {
    var payments: map<string, Payment>
    var orders: map<string, Order>
    var effects: seq<Effect>
    var processed: seq<Delivery>
    var seen: set<string>
    const home: string
    const mandateSingleUse: bool
    var mandateUsed: bool

    ghost function Model(): World
      reads this
    {
      World(payments, orders, effects, processed, seen, home, mandateSingleUse, mandateUsed)
    }

    constructor (home: string, mandateSingleUse: bool)
      ensures Model() == NewWorld(home, mandateSingleUse)
    {
      this.home, this.mandateSingleUse := home, mandateSingleUse;
      payments, orders, effects, processed, seen, mandateUsed := map[], map[], [], [], {}, false;
    }

    method Fulfil(p: Policy, ev: Event)
      modifies this`orders, this`effects
      ensures
        var o := OrderOf(old(Model()), ev);
        var again := p.singleFulfilment && o.fulfilled != 0;
        && orders == old(orders)[ev.order := Order(if again then o.fulfilled else o.fulfilled + 1, o.paidExpected)]
        && effects == old(effects) + (if again then [] else [EffectOf(Fulfilment, ev)])
    {
      if ev.order !in orders {
        orders := orders[ev.order := Order(0, false)];
      }
      var o := orders[ev.order];
      if p.singleFulfilment && o.fulfilled != 0 {
        return;
      }
      orders := orders[ev.order := o.(fulfilled := o.fulfilled + 1)];
      effects := effects + [EffectOf(Fulfilment, ev)];
    }

    /** Overwrites the delivery record that `Handle` appended first. */
    method Annotate(rec: Delivery)
      requires processed != []
      modifies this`processed
      ensures processed == old(processed)[..|old(processed)| - 1] + [rec]
    {
      processed := processed[..|processed| - 1] + [rec];
    }

    method Handle(p: Policy, ev: Event)
      modifies this
      ensures Model() == Apply(old(Model()), p, ev)
    {
      var rec := Delivery(ev.id, ev.signed, false, NoNote);
      processed := processed + [rec];
      if p.verifySignature && !ev.signed {
        Annotate(rec.(note := BadSignature));
        return;
      }
      if p.dedupe && ev.id in seen {
        Annotate(rec.(note := DuplicateDelivery));
        assert seen == seen + {ev.id};
        return;
      }
      seen := seen + {ev.id};
      if p.tenantScope && ev.tenant != home {
        Annotate(rec.(note := ForeignTenant));
        return;
      }
      rec := rec.(accepted := true);
      Annotate(rec);
      if ev.payment !in payments {
        payments := payments[ev.payment := Payment(Created, 0, 0, ev.tenant)];
      }
      Dispatch(p, ev, old(Model()));
    }

    /** World `w` with its payment row ensured and the delivery logged as accepted. */
    ghost predicate Ready(w: World, p: Policy, ev: Event)
      reads this
    {
      && Admits(w, p, ev)
      && payments == w.payments[ev.payment := PaymentOf(w, ev)]
      && orders == w.orders && effects == w.effects && mandateUsed == w.mandateUsed
      && processed == w.processed + [Delivery(ev.id, ev.signed, true, NoNote)]
    }

    ghost predicate Done(w: World, p: Policy, ev: Event)
      reads this
    {
      && payments == PaymentsAfter(w, p, ev)
      && orders == OrdersAfter(w, p, ev)
      && effects == w.effects + Caused(w, p, ev)
      && processed == w.processed + [Delivery(ev.id, ev.signed, Accepts(w, p, ev), Verdict(w, p, ev))]
      && mandateUsed == (w.mandateUsed || (Accepts(w, p, ev) && ev.kind == AgentPurchase))
    }

    method Dispatch(p: Policy, ev: Event, ghost w: World)
      requires Ready(w, p, ev)
      modifies this`payments, this`orders, this`effects, this`processed, this`mandateUsed
      ensures Done(w, p, ev)
    {
      match ev.kind
      case PaymentAuthorized => OnAuthorized(p, ev, w);
      case PaymentCaptured => OnCaptured(p, ev, w);
      case PaymentFailed => OnFailed(p, ev, w);
      case OrderPaid => OnOrderPaid(p, ev, w);
      case RefundProcessed => OnRefund(p, ev, w);
      case AgentPurchase => OnPurchase(p, ev, w);
      case UnknownKind =>
    }

    /** Captured is terminal: a late authorization never downgrades it. */
    method Authorize(id: string)
      requires id in payments
      modifies this`payments
      ensures payments == old(payments)[id :=
        if old(payments)[id].status == Captured then old(payments)[id] else old(payments)[id].(status := Authorized)]
    {
      if payments[id].status != Captured {
        payments := payments[id := payments[id].(status := Authorized)];
      }
    }

    method OnAuthorized(p: Policy, ev: Event, ghost w: World)
      requires Ready(w, p, ev) && ev.kind == PaymentAuthorized
      modifies this`payments, this`orders, this`effects
      ensures Done(w, p, ev)
    {
      Authorize(ev.payment);
      if !p.requireCaptured {
        Fulfil(p, ev);
      }
    }

    method OnCaptured(p: Policy, ev: Event, ghost w: World)
      requires Ready(w, p, ev) && ev.kind == PaymentCaptured
      modifies this`payments, this`orders, this`effects
      ensures Done(w, p, ev)
    {
      payments := payments[ev.payment := payments[ev.payment].(status := Captured, captured := ev.amount)];
      if p.requireCaptured {
        Fulfil(p, ev);
      }
    }

    method OnFailed(p: Policy, ev: Event, ghost w: World)
      requires Ready(w, p, ev) && ev.kind == PaymentFailed
      modifies this`payments
      ensures Done(w, p, ev)
    {
      var pay := payments[ev.payment];
      if pay.status != Captured && pay.status != Authorized {
        payments := payments[ev.payment := pay.(status := Failed)];
      }
    }

    method OnOrderPaid(p: Policy, ev: Event, ghost w: World)
      requires Ready(w, p, ev) && ev.kind == OrderPaid
      modifies this`orders, this`effects
      ensures Done(w, p, ev)
    {
      if ev.order !in orders {
        orders := orders[ev.order := Order(0, true)];
      }
      orders := orders[ev.order := orders[ev.order].(paidExpected := true)];
      assert orders == w.orders[ev.order := OrderOf(w, ev).(paidExpected := true)];
      if !p.requireCaptured {
        Fulfil(p, ev);
      }
    }

    method OnRefund(p: Policy, ev: Event, ghost w: World)
      requires Ready(w, p, ev) && ev.kind == RefundProcessed
      modifies this`payments, this`effects, this`processed
      ensures Done(w, p, ev)
    {
      var pay := payments[ev.payment];
      if p.guardRefunds && pay.refunded + ev.amount > pay.captured {
        Annotate(Delivery(ev.id, ev.signed, false, RefundTooLarge));
        return;
      }
      payments := payments[ev.payment := pay.(refunded := pay.refunded + ev.amount)];
      effects := effects + [EffectOf(Refund, ev)];
    }

    method OnPurchase(p: Policy, ev: Event, ghost w: World)
      requires Ready(w, p, ev) && ev.kind == AgentPurchase
      modifies this`effects, this`processed, this`mandateUsed
      ensures Done(w, p, ev)
    {
      if p.mandateLimits && mandateUsed {
        Annotate(Delivery(ev.id, ev.signed, false, MandateReplay));
        return;
      }
      mandateUsed := true;
      effects := effects + [EffectOf(Purchase, ev)];
    }

    method Deliver(p: Policy, trace: seq<Event>)
      modifies this
      ensures Model() == Run(old(Model()), p, trace)
    {
      for i := 0 to |trace|
        invariant Model() == Run(old(Model()), p, trace[..i])
      {
        Handle(p, trace[i]);
        assert trace[..i + 1][..i] == trace[..i];
      }
      assert trace[..|trace|] == trace;
    }
  }
}
