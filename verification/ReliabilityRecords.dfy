/**
  What the scenario's tables record, over every setup and every trace: each delivery's
  note, each effect, each payment's and each order's figures, said in the events delivered
  and the log alone. INV-004 then compares two sums of events.
 */
module ReliabilityRecords {
  import opened ReliabilityEngine
  import opened ReliabilityInvariants
  import opened ReliabilityTheorems

  /** The money the refund effects give back on a payment. */
  function RefundTotal(effects: seq<Effect>, payment: string): nat {
    if effects == [] then 0
    else
      var rest, last := RefundTotal(effects[..|effects| - 1], payment), effects[|effects| - 1];
      if last.kind == Refund && last.payment == payment then rest + last.amount else rest
  }

  /** How many of the effects fulfil an order. */
  function Fulfilments(effects: seq<Effect>, order: string): nat {
    if effects == [] then 0
    else
      var rest, last := Fulfilments(effects[..|effects| - 1], order), effects[|effects| - 1];
      if last.kind == Fulfilment && last.order == order then rest + 1 else rest
  }

  /** The events whose delivery is logged as accepted. */
  function AcceptedOf(trace: seq<Event>, log: seq<Delivery>): seq<Event>
    requires |log| == |trace|
  {
    if trace == [] then []
    else
      var n := |trace| - 1;
      AcceptedOf(trace[..n], log[..n]) + if log[n].accepted then [trace[n]] else []
  }

  /** The amount of a payment's last capture among some events, 0 without one. */
  function LastCapture(events: seq<Event>, payment: string): nat {
    if events == [] then 0
    else
      var last := events[|events| - 1];
      if last.kind == PaymentCaptured && last.payment == payment then last.amount
      else LastCapture(events[..|events| - 1], payment)
  }

  /** The events the log of a whole run accepts. */
  function Accepted(s: Setup, trace: seq<Event>): seq<Event> {
    LogLength(s, trace);
    AcceptedOf(trace, Outcome(s, trace).processed)
  }

  lemma {:induction false} LogLength(s: Setup, trace: seq<Event>)
    ensures |Outcome(s, trace).processed| == |trace|
  {
    if trace != [] {
      LogLength(s, trace[..|trace| - 1]);
      OutcomeSnoc(s, trace);
    }
  }

  // ------------------------------------------- the log

  /** The id came before, in a delivery that was not turned away for its signature. */
  ghost predicate CameBefore(trace: seq<Event>, log: seq<Delivery>, id: string)
    requires |log| == |trace|
  {
    exists j :: 0 <= j < |trace| && trace[j].id == id && log[j].note != BadSignature
  }

  ghost predicate Bought(events: seq<Event>) {
    exists ev :: ev in events && ev.kind == AgentPurchase
  }

  lemma {:induction false} SeenExactly(s: Setup, trace: seq<Event>, id: string)
    ensures |Outcome(s, trace).processed| == |trace|
    ensures id in Outcome(s, trace).seen <==> CameBefore(trace, Outcome(s, trace).processed, id)
  {
    LogLength(s, trace);
    if trace != [] {
      var n := |trace| - 1;
      var init, ev := trace[..n], trace[n];
      SeenExactly(s, init, id);
      OutcomeSnoc(s, trace);
      var before, log := Outcome(s, init).processed, Outcome(s, trace).processed;
      assert log[..n] == before;
      assert forall j :: 0 <= j < n ==> log[j] == before[j] && trace[j] == init[j];
      assert CameBefore(trace, log, id) <==>
        CameBefore(init, before, id) || (ev.id == id && log[n].note != BadSignature);
    }
  }

  lemma {:induction false} BoughtExactly(s: Setup, trace: seq<Event>)
    ensures Outcome(s, trace).mandateUsed <==> Bought(Accepted(s, trace))
  {
    if trace != [] {
      var init, ev := trace[..|trace| - 1], trace[|trace| - 1];
      BoughtExactly(s, init);
      OutcomeSnoc(s, trace);
      AcceptedSnoc(s, trace);
      assert Accepted(s, trace) != Accepted(s, init) ==> ev in Accepted(s, trace);
    }
  }

  lemma AcceptedSnoc(s: Setup, trace: seq<Event>)
    requires trace != []
    ensures var init, ev := trace[..|trace| - 1], trace[|trace| - 1];
      Accepted(s, trace) == Accepted(s, init) + if Accepts(Outcome(s, init), s.policy, ev) then [ev] else []
  {
    var n := |trace| - 1;
    OutcomeSnoc(s, trace);
    LogLength(s, trace);
    LogLength(s, trace[..n]);
    assert Outcome(s, trace).processed[..n] == Outcome(s, trace[..n]).processed;
  }

  /** What the setup says of a delivery after some events and their log, before any payment is touched. */
  ghost function Screened(s: Setup, trace: seq<Event>, log: seq<Delivery>, ev: Event): Note
    requires |log| == |trace|
  {
    if s.policy.verifySignature && !ev.signed then BadSignature
    else if s.policy.dedupe && CameBefore(trace, log, ev.id) then DuplicateDelivery
    else if s.policy.tenantScope && ev.tenant != s.home then ForeignTenant
    else NoNote
  }

  /**
    The log entry of the last delivery of a trace, in the earlier deliveries, their log and
    their effects: a delivery is refused exactly for its signature, for an id that came before,
    for its tenant, for refunding more than is left, or for a second purchase, in that order.
   */
  lemma NoteExactly(s: Setup, trace: seq<Event>, ev: Event)
    ensures var p, w := s.policy, Outcome(s, trace);
      && |w.processed| == |trace|
      && var screened := Screened(s, trace, w.processed, ev);
        var accepted := Accepted(s, trace);
        var overRefunds := ev.kind == RefundProcessed && p.guardRefunds
          && RefundTotal(w.effects, ev.payment) + ev.amount > LastCapture(accepted, ev.payment);
        var buysAgain := ev.kind == AgentPurchase && p.mandateLimits && Bought(accepted);
        var note :=
          if screened != NoNote then screened
          else if overRefunds then RefundTooLarge
          else if buysAgain then MandateReplay
          else NoNote;
        Outcome(s, trace + [ev]).processed == w.processed + [Delivery(ev.id, ev.signed, note == NoNote, note)]
  {
    var w := Outcome(s, trace);
    OutcomeSnoc(s, trace + [ev]);
    assert (trace + [ev])[..|trace|] == trace;
    SeenExactly(s, trace, ev.id);
    PaymentExactly(s, trace, ev.payment);
    BoughtExactly(s, trace);
    assert Screened(s, trace, w.processed, ev) == Refusal(w, s.policy, ev);
  }

  // ------------------------------------------- payments

  lemma RefundTotalSnoc(effects: seq<Effect>, e: Effect, payment: string)
    ensures RefundTotal(effects + [e], payment) ==
      RefundTotal(effects, payment) + if e.kind == Refund && e.payment == payment then e.amount else 0
  {
    assert (effects + [e])[..|effects|] == effects;
  }

  lemma LastCaptureSnoc(events: seq<Event>, ev: Event, payment: string)
    ensures LastCapture(events + [ev], payment) ==
      if ev.kind == PaymentCaptured && ev.payment == payment then ev.amount else LastCapture(events, payment)
  {
    assert (events + [ev])[..|events|] == events;
  }

  ghost predicate Had(events: seq<Event>, payment: string, kind: EventKind) {
    exists ev :: ev in events && ev.payment == payment && ev.kind == kind
  }

  lemma HadSnoc(events: seq<Event>, ev: Event, payment: string, kind: EventKind)
    ensures Had(events + [ev], payment, kind) <==>
      Had(events, payment, kind) || (ev.payment == payment && ev.kind == kind)
  {
    assert forall x :: x in events + [ev] <==> x in events || x == ev;
  }

  /** The greatest status among created < failed < authorized < captured that the events report. */
  ghost function Reported(events: seq<Event>, payment: string): PaymentStatus {
    if Had(events, payment, PaymentCaptured) then Captured
    else if Had(events, payment, PaymentAuthorized) then Authorized
    else if Had(events, payment, PaymentFailed) then Failed
    else Created
  }

  /** A payment's row holds the last capture, the sum of its refund effects and the greatest status reported. */
  ghost predicate PaymentFigures(w: World, accepted: seq<Event>, id: string) {
    var pay := if id in w.payments then w.payments[id] else Payment(Created, 0, 0, w.home);
    && pay.captured == LastCapture(accepted, id)
    && pay.refunded == RefundTotal(w.effects, id)
    && pay.status == Reported(accepted, id)
  }

  lemma RefundTotalStep(w: World, p: Policy, ev: Event, id: string)
    ensures var refunds := Accepts(w, p, ev) && ev.kind == RefundProcessed && ev.payment == id;
      RefundTotal(Apply(w, p, ev).effects, id) == RefundTotal(w.effects, id) + if refunds then ev.amount else 0
  {
    var added := Caused(w, p, ev);
    if added == [] {
      assert w.effects + added == w.effects;
    } else {
      RefundTotalSnoc(w.effects, added[0], id);
      assert added == [added[0]];
    }
  }

  /** One delivery moves the figures of the payment it names by what its kind says, if accepted, and no others. */
  lemma RowStep(w: World, p: Policy, ev: Event, id: string)
    ensures var was := if id in w.payments then w.payments[id] else Payment(Created, 0, 0, w.home);
      var w' := Apply(w, p, ev);
      var now := if id in w'.payments then w'.payments[id] else Payment(Created, 0, 0, w.home);
      if Accepts(w, p, ev) && ev.payment == id then
        var after := PaymentAfter(was, ev, true);
        now.captured == after.captured && now.refunded == after.refunded && now.status == after.status
      else now.captured == was.captured && now.refunded == was.refunded && now.status == was.status
  {}

  lemma PaymentStep(w: World, p: Policy, ev: Event, accepted: seq<Event>, id: string)
    requires PaymentFigures(w, accepted, id)
    ensures PaymentFigures(Apply(w, p, ev), accepted + if Accepts(w, p, ev) then [ev] else [], id)
  {
    hide Apply, Accepts, RefundTotal, LastCapture, Had;
    RowStep(w, p, ev, id);
    RefundTotalStep(w, p, ev, id);
    assert accepted + [] == accepted;
    LastCaptureSnoc(accepted, ev, id);
    HadSnoc(accepted, ev, id, PaymentCaptured);
    HadSnoc(accepted, ev, id, PaymentAuthorized);
    HadSnoc(accepted, ev, id, PaymentFailed);
  }

  lemma {:induction false} PaymentExactly(s: Setup, trace: seq<Event>, id: string)
    ensures PaymentFigures(Outcome(s, trace), Accepted(s, trace), id)
  {
    if trace != [] {
      var init, ev := trace[..|trace| - 1], trace[|trace| - 1];
      PaymentExactly(s, init, id);
      PaymentStep(Outcome(s, init), s.policy, ev, Accepted(s, init), id);
      OutcomeSnoc(s, trace);
      AcceptedSnoc(s, trace);
    }
  }

  /** INV-004 says that no payment's refund effects add up to more than its last accepted capture. */
  lemma RefundsWithinCaptures(s: Setup, trace: seq<Event>)
    ensures Holds(INV004, Outcome(s, trace)) <==>
      forall id :: RefundTotal(Outcome(s, trace).effects, id) <= LastCapture(Accepted(s, trace), id)
  {
    hide Run, Accepted, RefundTotal, LastCapture;
    var w, accepted := Outcome(s, trace), Accepted(s, trace);
    forall id
      ensures
        if id in w.payments then
          RefundTotal(w.effects, id) == w.payments[id].refunded && LastCapture(accepted, id) == w.payments[id].captured
        else RefundTotal(w.effects, id) == LastCapture(accepted, id) == 0
    {
      PaymentExactly(s, trace, id);
    }
    if RefundLeCaptured(w) {
      forall id ensures RefundTotal(w.effects, id) <= LastCapture(accepted, id) {}
    } else {
      var id :| id in w.payments && w.payments[id].refunded > w.payments[id].captured;
      assert RefundTotal(w.effects, id) > LastCapture(accepted, id);
    }
  }

  // ------------------------------------------- orders and effects

  ghost predicate Paid(events: seq<Event>, order: string) {
    exists ev :: ev in events && ev.order == order && ev.kind == OrderPaid
  }

  /** An order's row counts its fulfilment effects and knows whether it was reported paid. */
  ghost predicate OrderFigures(w: World, accepted: seq<Event>, id: string) {
    var o := if id in w.orders then w.orders[id] else Order(0, false);
    && o.fulfilled == Fulfilments(w.effects, id)
    && (o.paidExpected <==> Paid(accepted, id))
  }

  lemma FulfilmentsSnoc(effects: seq<Effect>, e: Effect, order: string)
    ensures Fulfilments(effects + [e], order) ==
      Fulfilments(effects, order) + if e.kind == Fulfilment && e.order == order then 1 else 0
  {
    assert (effects + [e])[..|effects|] == effects;
  }

  lemma FulfilmentsStep(w: World, p: Policy, ev: Event, id: string)
    ensures Fulfilments(Apply(w, p, ev).effects, id) ==
      Fulfilments(w.effects, id) + if Fulfils(w, p, ev) && ev.order == id then 1 else 0
  {
    var added := Caused(w, p, ev);
    if added == [] {
      assert w.effects + added == w.effects;
    } else {
      FulfilmentsSnoc(w.effects, added[0], id);
      assert added == [added[0]];
    }
  }

  lemma PaidSnoc(events: seq<Event>, ev: Event, order: string)
    ensures Paid(events + [ev], order) <==> Paid(events, order) || (ev.order == order && ev.kind == OrderPaid)
  {
    assert forall x :: x in events + [ev] <==> x in events || x == ev;
  }

  lemma OrderRowStep(w: World, p: Policy, ev: Event, id: string)
    ensures var was := if id in w.orders then w.orders[id] else Order(0, false);
      var w' := Apply(w, p, ev);
      (if id in w'.orders then w'.orders[id] else Order(0, false)) ==
        if ev.order != id then was
        else Order(
          if Fulfils(w, p, ev) then was.fulfilled + 1 else was.fulfilled,
          was.paidExpected || (Accepts(w, p, ev) && ev.kind == OrderPaid))
  {}

  lemma OrderStep(w: World, p: Policy, ev: Event, accepted: seq<Event>, id: string)
    requires OrderFigures(w, accepted, id)
    ensures OrderFigures(Apply(w, p, ev), accepted + if Accepts(w, p, ev) then [ev] else [], id)
  {
    hide Apply, Accepts, Fulfils, Fulfilments, Paid;
    OrderRowStep(w, p, ev, id);
    FulfilmentsStep(w, p, ev, id);
    assert accepted + [] == accepted;
    PaidSnoc(accepted, ev, id);
  }

  lemma {:induction false} OrderExactly(s: Setup, trace: seq<Event>, id: string)
    ensures OrderFigures(Outcome(s, trace), Accepted(s, trace), id)
  {
    if trace != [] {
      var init, ev := trace[..|trace| - 1], trace[|trace| - 1];
      OrderExactly(s, init, id);
      OrderStep(Outcome(s, init), s.policy, ev, Accepted(s, init), id);
      OutcomeSnoc(s, trace);
      AcceptedSnoc(s, trace);
    }
  }

  /** The kind of effect an accepted event has, if any, knowing how often its order was fulfilled before. */
  function KindOfEffect(p: Policy, ev: Event, fulfilled: nat): (kinds: seq<EffectKind>) {
    match ev.kind
    case PaymentCaptured => if p.requireCaptured && (!p.singleFulfilment || fulfilled == 0) then [Fulfilment] else []
    case PaymentAuthorized => if p.requireCaptured || (p.singleFulfilment && fulfilled > 0) then [] else [Fulfilment]
    case OrderPaid => if p.requireCaptured || (p.singleFulfilment && fulfilled > 0) then [] else [Fulfilment]
    case RefundProcessed => [Refund]
    case AgentPurchase => [Purchase]
    case PaymentFailed => []
    case UnknownKind => []
  }

  lemma CausedKind(w: World, p: Policy, ev: Event)
    ensures var kinds := if Accepts(w, p, ev) then KindOfEffect(p, ev, OrderOf(w, ev).fulfilled) else [];
      && |kinds| == |Caused(w, p, ev)|
      && forall i :: 0 <= i < |kinds| ==>
          Caused(w, p, ev)[i] == Effect(kinds[i], ev.payment, ev.order, ev.tenant, ev.amount, ev.id)
  {}

  /** The effect the last delivery of a trace adds, if any, in its log entry and the effects before it. */
  lemma EffectsExactly(s: Setup, trace: seq<Event>, ev: Event)
    ensures var before, w := Outcome(s, trace), Outcome(s, trace + [ev]);
      && |w.processed| == |trace| + 1
      && var kinds :=
          if w.processed[|trace|].accepted then KindOfEffect(s.policy, ev, Fulfilments(before.effects, ev.order))
          else [];
        && |w.effects| == |before.effects| + |kinds|
        && w.effects[..|before.effects|] == before.effects
        && forall i :: 0 <= i < |kinds| ==>
            w.effects[|before.effects| + i] == Effect(kinds[i], ev.payment, ev.order, ev.tenant, ev.amount, ev.id)
  {
    hide Accepts, Caused, KindOfEffect, Fulfilments;
    OutcomeSnoc(s, trace + [ev]);
    assert (trace + [ev])[..|trace|] == trace;
    LogLength(s, trace);
    OrderExactly(s, trace, ev.order);
    CausedKind(Outcome(s, trace), s.policy, ev);
  }
}
