/**
  What the policy flags buy, for every trace and every one of the 128 policies: an
  invariant holds on all traces exactly when its own flag is on, whatever the other
  six are. Three invariants need a side condition on the trace, stated exactly.
 */
module ReliabilityTheorems {
  import opened ReliabilityEngine
  import opened ReliabilityInvariants

  /** What a scenario fixes besides its events. */
  datatype Setup = Setup(policy: Policy, home: string, singleUse: bool)

  function Outcome(s: Setup, trace: seq<Event>): World {
    Run(NewWorld(s.home, s.singleUse), s.policy, trace)
  }

  /** The events that passed the signature, duplicate and tenant checks, in delivery order. */
  function Admitted(s: Setup, trace: seq<Event>): seq<Event> {
    if trace == [] then []
    else
      var init, last := trace[..|trace| - 1], trace[|trace| - 1];
      Admitted(s, init) + (if Admits(Outcome(s, init), s.policy, last) then [last] else [])
  }

  lemma OutcomeSnoc(s: Setup, trace: seq<Event>)
    requires trace != []
    ensures var init, last := trace[..|trace| - 1], trace[|trace| - 1];
      && trace == init + [last]
      && Outcome(s, trace) == Apply(Outcome(s, init), s.policy, last)
      && Outcome(s, init).home == s.home && Outcome(s, init).mandateSingleUse == s.singleUse
  {
    if |trace| > 1 {
      OutcomeSnoc(s, trace[..|trace| - 1]);
    }
  }

  // ------------------------------------------- a flag is enough for its invariant

  ghost predicate Inv2(w: World) {
    OneEffectPerEvent(w) && forall e :: e in w.effects ==> e.source in w.seen
  }

  ghost predicate Inv7(w: World) {
    AtMostOnePurchase(w) && forall e :: e in w.effects && e.kind == Purchase ==> w.mandateUsed
  }

  ghost predicate Inv8(w: World) {
    && OneFulfilmentPerOrder(w)
    && forall e :: e in w.effects && e.kind == Fulfilment ==> e.order in w.orders && w.orders[e.order].fulfilled > 0
  }

  lemma DedupeStep(w: World, p: Policy, ev: Event)
    requires p.dedupe && Inv2(w)
    ensures Inv2(Apply(w, p, ev))
  {
    var n := |w.effects|;
    assert forall i :: 0 <= i < n ==> w.effects[i] in w.effects;
  }

  lemma MandateStep(w: World, p: Policy, ev: Event)
    requires p.mandateLimits && Inv7(w)
    ensures Inv7(Apply(w, p, ev))
  {
    assert forall i :: 0 <= i < |w.effects| ==> w.effects[i] in w.effects;
  }

  lemma SingleFulfilmentStep(w: World, p: Policy, ev: Event)
    requires p.singleFulfilment && Inv8(w)
    ensures Inv8(Apply(w, p, ev))
  {
    assert forall i :: 0 <= i < |w.effects| ==> w.effects[i] in w.effects;
  }

  lemma CapturedGatingStep(w: World, p: Policy, ev: Event)
    requires p.requireCaptured && NoFulfilmentWithoutCaptured(w)
    ensures NoFulfilmentWithoutCaptured(Apply(w, p, ev))
  {
    var w' := Apply(w, p, ev);
    forall e | e in w'.effects ensures CapturedFulfilment(w', e) {
      if e in w.effects {
        assert CapturedFulfilment(w, e);
      }
    }
  }

  lemma {:induction false} FlagsSuffice(s: Setup, trace: seq<Event>)
    ensures var w, p := Outcome(s, trace), s.policy;
      && (p.singleFulfilment ==> Inv8(w)) && (p.dedupe ==> Inv2(w))
      && (p.requireCaptured ==> NoFulfilmentWithoutCaptured(w))
      && (p.tenantScope ==> TenantIsolation(w))
      && (p.mandateLimits ==> Inv7(w))
  {
    if trace != [] {
      var init, ev, p := trace[..|trace| - 1], trace[|trace| - 1], s.policy;
      FlagsSuffice(s, init);
      OutcomeSnoc(s, trace);
      var w := Outcome(s, init);
      if p.singleFulfilment { SingleFulfilmentStep(w, p, ev); }
      if p.dedupe { DedupeStep(w, p, ev); }
      if p.requireCaptured { CapturedGatingStep(w, p, ev); }
      if p.mandateLimits { MandateStep(w, p, ev); }
    }
  }

  // ------------------------------------------- and without it some trace breaks it

  /** A signed event of the home tenant. */
  function Sample(id: string, kind: EventKind, amount: nat): Event {
    Event(id, true, "t1", kind, "pay", "order", amount)
  }

  const START := NewWorld("t1", true)

  ghost predicate Always(id: InvariantId, p: Policy) {
    forall s: Setup, trace :: s.policy == p ==> Holds(id, Outcome(s, trace))
  }

  /** A run whose outcome breaks an invariant shows that it does not always hold. */
  lemma Witness(id: InvariantId, p: Policy, trace: seq<Event>)
    requires !Holds(id, Outcome(Setup(p, "t1", true), trace))
    ensures !Always(id, p)
  {
    assert Setup(p, "t1", true).policy == p;
  }

  lemma OneDelivery(p: Policy, a: Event)
    ensures Outcome(Setup(p, "t1", true), [a]) == Apply(START, p, a)
  {
    assert [a][..0] == [];
    assert Outcome(Setup(p, "t1", true), []) == START;
  }

  lemma TwoDeliveries(p: Policy, a: Event, b: Event)
    ensures Outcome(Setup(p, "t1", true), [a, b]) == Apply(Apply(START, p, a), p, b)
  {
    OneDelivery(p, a);
    assert [a, b][..1] == [a];
  }

  lemma ZeroRefundAccepted(w: World, p: Policy, ev: Event)
    requires Admits(w, p, ev) && ev.kind == RefundProcessed && ev.amount == 0
    requires PaymentOf(w, ev).refunded == 0
    ensures var w' := Apply(w, p, ev);
      && w'.effects == w.effects + [EffectOf(Refund, ev)]
      && w'.home == w.home && PaymentOf(w', ev).refunded == 0
  {}

  lemma FlagOffBreaks8(p: Policy)
    requires !p.singleFulfilment
    ensures !Always(INV008, p)
  {
    var kind := if p.requireCaptured then PaymentCaptured else PaymentAuthorized;
    var a, b := Sample("e1", kind, 1), Sample("e2", kind, 1);
    var w := Apply(Apply(START, p, a), p, b);
    assert w.effects[0] == EffectOf(Fulfilment, a) && w.effects[1] == EffectOf(Fulfilment, b);
    TwoDeliveries(p, a, b);
    Witness(INV008, p, [a, b]);
  }

  lemma FlagOffBreaks2(p: Policy)
    requires !p.dedupe
    ensures !Always(INV002, p)
  {
    var a := Sample("e1", RefundProcessed, 0);
    ZeroRefundAccepted(START, p, a);
    var w1 := Apply(START, p, a);
    ZeroRefundAccepted(w1, p, a);
    var w := Apply(w1, p, a);
    assert w.effects == [EffectOf(Refund, a), EffectOf(Refund, a)];
    assert w.effects[0].source == w.effects[1].source;
    TwoDeliveries(p, a, a);
    Witness(INV002, p, [a, a]);
  }

  lemma FlagOffBreaks1(p: Policy)
    requires !p.requireCaptured
    ensures !Always(INV001, p)
  {
    var a := Sample("e1", PaymentAuthorized, 1);
    var w := Apply(START, p, a);
    assert EffectOf(Fulfilment, a) in w.effects && !CapturedFulfilment(w, EffectOf(Fulfilment, a));
    OneDelivery(p, a);
    Witness(INV001, p, [a]);
  }

  lemma ForeignEffect(w: World, e: Effect)
    requires e in w.effects && e.tenant != w.home
    ensures !Holds(INV005, w)
  {}

  lemma FlagOffBreaks5(p: Policy)
    requires !p.tenantScope
    ensures !Always(INV005, p)
  {
    var a := Sample("e1", RefundProcessed, 0).(tenant := "t2");
    ZeroRefundAccepted(START, p, a);
    var w := Apply(START, p, a);
    assert w.effects == [EffectOf(Refund, a)] && "t1"[1] != "t2"[1];
    ForeignEffect(w, w.effects[0]);
    OneDelivery(p, a);
    Witness(INV005, p, [a]);
  }

  lemma FlagOffBreaks7(p: Policy)
    requires !p.mandateLimits
    ensures !Always(INV007, p)
  {
    var a, b := Sample("e1", AgentPurchase, 1), Sample("e2", AgentPurchase, 1);
    var w := Apply(Apply(START, p, a), p, b);
    assert w.effects[0].kind == Purchase && w.effects[1].kind == Purchase;
    TwoDeliveries(p, a, b);
    Witness(INV007, p, [a, b]);
  }

  /**
    For each of the 128 policies: five invariants hold on all traces if and only if
    their own flag is on.
   */
  lemma FlagsDecide(p: Policy)
    ensures Always(INV008, p) <==> p.singleFulfilment
    ensures Always(INV002, p) <==> p.dedupe
    ensures Always(INV001, p) <==> p.requireCaptured
    ensures Always(INV005, p) <==> p.tenantScope
    ensures Always(INV007, p) <==> p.mandateLimits
  {
    forall s: Setup, trace | s.policy == p
      ensures p.singleFulfilment ==> Holds(INV008, Outcome(s, trace))
      ensures p.dedupe ==> Holds(INV002, Outcome(s, trace))
      ensures p.requireCaptured ==> Holds(INV001, Outcome(s, trace))
      ensures p.tenantScope ==> Holds(INV005, Outcome(s, trace))
      ensures p.mandateLimits ==> Holds(INV007, Outcome(s, trace))
    {
      FlagsSuffice(s, trace);
    }
    if !p.singleFulfilment { FlagOffBreaks8(p); }
    if !p.dedupe { FlagOffBreaks2(p); }
    if !p.requireCaptured { FlagOffBreaks1(p); }
    if !p.tenantScope { FlagOffBreaks5(p); }
    if !p.mandateLimits { FlagOffBreaks7(p); }
  }

  // ------------------------------------------- signatures (INV-003)

  ghost predicate UnsignedIn(trace: seq<Event>, id: string) {
    exists ev :: ev in trace && !ev.signed && ev.id == id
  }

  /** No id is delivered both signed and unsigned. */
  ghost predicate ConsistentIds(trace: seq<Event>) {
    forall a, b :: a in trace && b in trace && a.id == b.id ==> a.signed == b.signed
  }

  lemma {:induction false} UnsignedLog(s: Setup, trace: seq<Event>, id: string)
    ensures DeliveredUnsigned(Outcome(s, trace), id) <==> UnsignedIn(trace, id)
  {
    if trace != [] {
      var init, ev := trace[..|trace| - 1], trace[|trace| - 1];
      UnsignedLog(s, init, id);
      OutcomeSnoc(s, trace);
      var w0, w := Outcome(s, init), Outcome(s, trace);
      assert w.processed[|w.processed| - 1] in w.processed && ev in trace;
    }
  }

  lemma {:induction false} SignedEffects(s: Setup, trace: seq<Event>)
    requires s.policy.verifySignature
    ensures var w := Outcome(s, trace);
      && (forall d :: d in w.processed && !d.signed ==> !d.accepted)
      && (forall e :: e in w.effects ==> exists ev :: ev in trace && ev.signed && ev.id == e.source)
  {
    if trace != [] {
      var init, ev := trace[..|trace| - 1], trace[|trace| - 1];
      SignedEffects(s, init);
      OutcomeSnoc(s, trace);
      var w0, w := Outcome(s, init), Outcome(s, trace);
      forall e | e in w.effects ensures exists x :: x in trace && x.signed && x.id == e.source {
        if e in w0.effects {
          var x :| x in init && x.signed && x.id == e.source;
          assert x in trace;
        } else {
          assert ev in trace && ev.signed && ev.id == e.source;
        }
      }
    }
  }

  /** The handler acts on this delivery: its guards let a business effect through. */
  predicate ActsOn(s: Setup, before: seq<Event>, ev: Event) {
    Caused(Outcome(s, before), s.policy, ev) != []
  }

  /** For each delivery, whether the handler acts on it. */
  function Acts(s: Setup, trace: seq<Event>): (acts: seq<bool>)
    ensures |acts| == |trace|
  {
    if trace == [] then []
    else
      var init, last := trace[..|trace| - 1], trace[|trace| - 1];
      Acts(s, init) + [ActsOn(s, init, last)]
  }

  lemma {:induction false} ActsAt(s: Setup, trace: seq<Event>, i: nat)
    requires i < |trace|
    ensures Acts(s, trace)[i] <==> ActsOn(s, trace[..i], trace[i])
  {
    if i < |trace| - 1 {
      ActsAt(s, trace[..|trace| - 1], i);
      assert trace[..|trace| - 1][..i] == trace[..i];
    }
  }

  ghost predicate ActsOnId(trace: seq<Event>, acts: seq<bool>, id: string)
    requires |acts| == |trace|
  {
    exists i :: 0 <= i < |trace| && acts[i] && trace[i].id == id
  }

  lemma ActsOnIdSnoc(trace: seq<Event>, acts: seq<bool>, ev: Event, act: bool, id: string)
    requires |acts| == |trace|
    ensures ActsOnId(trace + [ev], acts + [act], id) <==> ActsOnId(trace, acts, id) || (act && ev.id == id)
  {
    var all, flags := trace + [ev], acts + [act];
    if i :| 0 <= i < |trace| && acts[i] && trace[i].id == id {
      assert flags[i] && all[i].id == id;
    }
    assert flags[|trace|] == act && all[|trace|] == ev;
  }

  ghost predicate EffectFrom(effects: seq<Effect>, id: string) {
    exists e :: e in effects && e.source == id
  }

  lemma EffectFromSnoc(effects: seq<Effect>, w: World, p: Policy, ev: Event, id: string)
    ensures EffectFrom(effects + Caused(w, p, ev), id) <==>
      EffectFrom(effects, id) || (Caused(w, p, ev) != [] && ev.id == id)
  {
    var added := Caused(w, p, ev);
    assert added != [] ==> added[0] in added && added[0].source == ev.id;
    assert forall e :: e in effects + added <==> e in effects || e in added;
  }

  lemma {:induction false} EffectSources(s: Setup, trace: seq<Event>, id: string)
    ensures EffectFrom(Outcome(s, trace).effects, id) <==> ActsOnId(trace, Acts(s, trace), id)
  {
    if trace != [] {
      var init, last := trace[..|trace| - 1], trace[|trace| - 1];
      EffectSources(s, init, id);
      OutcomeSnoc(s, trace);
      ActsOnIdSnoc(init, Acts(s, init), last, ActsOn(s, init, last), id);
      EffectFromSnoc(Outcome(s, init).effects, Outcome(s, init), s.policy, last, id);
    }
  }

  /** The handler never acts on a delivery whose id the trace also delivers unsigned. */
  ghost predicate NeverActsOnForged(s: Setup, trace: seq<Event>) {
    forall i :: 0 <= i < |trace| && ActsOn(s, trace[..i], trace[i]) ==> !UnsignedIn(trace, trace[i].id)
  }

  lemma NoEffectFromForged(s: Setup, trace: seq<Event>)
    ensures (forall id :: EffectFrom(Outcome(s, trace).effects, id) ==> !UnsignedIn(trace, id)) <==>
      NeverActsOnForged(s, trace)
  {
    forall id ensures EffectFrom(Outcome(s, trace).effects, id) <==> ActsOnId(trace, Acts(s, trace), id) {
      EffectSources(s, trace, id);
    }
    forall i | 0 <= i < |trace| ensures Acts(s, trace)[i] <==> ActsOn(s, trace[..i], trace[i]) {
      ActsAt(s, trace, i);
    }
    forall i | 0 <= i < |trace| && Acts(s, trace)[i] ensures EffectFrom(Outcome(s, trace).effects, trace[i].id) {
      assert ActsOnId(trace, Acts(s, trace), trace[i].id);
    }
  }

  /** With signature checking on, INV-003 holds exactly when no such delivery is acted on. */
  lemma SignatureExact(s: Setup, trace: seq<Event>)
    requires s.policy.verifySignature
    ensures Holds(INV003, Outcome(s, trace)) <==> NeverActsOnForged(s, trace)
  {
    var w := Outcome(s, trace);
    SignedEffects(s, trace);
    NoEffectFromForged(s, trace);
    forall id ensures DeliveredUnsigned(w, id) <==> UnsignedIn(trace, id) {
      UnsignedLog(s, trace, id);
    }
    assert forall e :: e in w.effects ==> EffectFrom(w.effects, e.source);
  }

  /** Where no id comes both signed and unsigned, signature checking is enough. */
  lemma ConsistentIdsSuffice(s: Setup, trace: seq<Event>)
    requires s.policy.verifySignature && ConsistentIds(trace)
    ensures Holds(INV003, Outcome(s, trace))
  {
    SignatureExact(s, trace);
    forall i | 0 <= i < |trace| && ActsOn(s, trace[..i], trace[i]) ensures !UnsignedIn(trace, trace[i].id) {
      assert trace[i] in trace && trace[i].signed;
    }
  }

  ghost predicate AlwaysOnConsistentIds(p: Policy) {
    forall s: Setup, trace :: s.policy == p && ConsistentIds(trace) ==> Holds(INV003, Outcome(s, trace))
  }

  lemma SignatureFlagDecides(p: Policy)
    ensures AlwaysOnConsistentIds(p) <==> p.verifySignature
  {
    if p.verifySignature {
      forall s: Setup, trace | s.policy == p && ConsistentIds(trace) ensures Holds(INV003, Outcome(s, trace)) {
        ConsistentIdsSuffice(s, trace);
      }
    } else {
      var a := Sample("e1", PaymentFailed, 1).(signed := false);
      var s := Setup(p, "t1", true);
      assert [a][..0] == [] && Outcome(s, []) == START;
      var w := Outcome(s, [a]);
      assert w == Apply(START, p, a);
      assert w.processed[0] in w.processed && !w.processed[0].signed && w.processed[0].accepted;
      assert ConsistentIds([a]) && !Holds(INV003, w);
    }
  }

  // ------------------------------------------- refunds (INV-004)

  /** A capture that would overwrite the captured amount with less than was already refunded. */
  predicate Undercuts(w: World, p: Policy, ev: Event) {
    Admits(w, p, ev) && ev.kind == PaymentCaptured && ev.amount < PaymentOf(w, ev).refunded
  }

  lemma RefundStep(w: World, p: Policy, ev: Event)
    requires p.guardRefunds && RefundLeCaptured(w)
    ensures RefundLeCaptured(Apply(w, p, ev)) <==> !Undercuts(w, p, ev)
  {
    var w' := Apply(w, p, ev);
    if Admits(w, p, ev) {
      assert PaymentOf(w, ev).refunded <= PaymentOf(w, ev).captured;
      assert forall id :: id in w'.payments && id != ev.payment ==>
        id in w.payments && w'.payments[id] == w.payments[id];
      assert w'.payments[ev.payment] == PaymentAfter(PaymentOf(w, ev), ev, Accepts(w, p, ev));
    }
  }

  /** INV-004 holds after every delivery of the trace. */
  ghost predicate NeverOverRefunded(s: Setup, trace: seq<Event>) {
    && Holds(INV004, Outcome(s, trace))
    && (trace != [] ==> NeverOverRefunded(s, trace[..|trace| - 1]))
  }

  /** No delivery of the trace undercuts a refund. */
  predicate NeverUndercuts(s: Setup, trace: seq<Event>) {
    trace != [] ==>
      var init, last := trace[..|trace| - 1], trace[|trace| - 1];
      !Undercuts(Outcome(s, init), s.policy, last) && NeverUndercuts(s, init)
  }

  /** With the refund guard on, INV-004 holds all along a run exactly when no capture undercuts a refund. */
  lemma {:induction false} RefundExact(s: Setup, trace: seq<Event>)
    requires s.policy.guardRefunds
    ensures NeverOverRefunded(s, trace) <==> NeverUndercuts(s, trace)
  {
    if trace != [] {
      var init, last := trace[..|trace| - 1], trace[|trace| - 1];
      RefundExact(s, init);
      OutcomeSnoc(s, trace);
      if NeverOverRefunded(s, init) {
        RefundStep(Outcome(s, init), s.policy, last);
      }
    }
  }

  /** Admitted capture amounts of a payment never decrease. */
  ghost predicate CapturesNeverShrink(admitted: seq<Event>) {
    forall i, j ::
      0 <= i < j < |admitted| && admitted[i].kind == admitted[j].kind == PaymentCaptured &&
      admitted[i].payment == admitted[j].payment
      ==> admitted[i].amount <= admitted[j].amount
  }

  lemma {:induction false} CapturedAmountSource(s: Setup, trace: seq<Event>, id: string)
    ensures var w := Outcome(s, trace);
      id in w.payments && w.payments[id].captured > 0 ==>
        exists ev :: ev in Admitted(s, trace) && ev.kind == PaymentCaptured && ev.payment == id
          && ev.amount == w.payments[id].captured
  {
    if trace != [] {
      var init, ev := trace[..|trace| - 1], trace[|trace| - 1];
      CapturedAmountSource(s, init, id);
      OutcomeSnoc(s, trace);
      var w0, w := Outcome(s, init), Outcome(s, trace);
      if id in w.payments && w.payments[id].captured > 0 {
        if Admits(w0, s.policy, ev) && ev.kind == PaymentCaptured && ev.payment == id {
          assert ev in Admitted(s, trace) && w.payments[id].captured == ev.amount;
        } else {
          assert id in w0.payments && w0.payments[id].captured == w.payments[id].captured;
        }
      }
    }
  }

  /** A capture no smaller than those before it undercuts no refund that they cover. */
  lemma GrowingNeverUndercuts(s: Setup, init: seq<Event>, ev: Event)
    requires RefundLeCaptured(Outcome(s, init)) && Admits(Outcome(s, init), s.policy, ev)
    requires CapturesNeverShrink(Admitted(s, init) + [ev])
    ensures !Undercuts(Outcome(s, init), s.policy, ev)
  {
    var w, before := Outcome(s, init), Admitted(s, init);
    CapturedAmountSource(s, init, ev.payment);
    if ev.kind == PaymentCaptured && PaymentOf(w, ev).captured > 0 {
      var e :| e in before && e.kind == PaymentCaptured && e.payment == ev.payment
        && e.amount == PaymentOf(w, ev).captured;
      var i :| 0 <= i < |before| && before[i] == e;
      assert (before + [ev])[i] == e && (before + [ev])[|before|] == ev;
    }
  }

  lemma ShrinkNeverInit(admitted: seq<Event>, ev: Event)
    requires CapturesNeverShrink(admitted + [ev])
    ensures CapturesNeverShrink(admitted)
  {
    assert forall i :: 0 <= i < |admitted| ==> (admitted + [ev])[i] == admitted[i];
  }

  lemma {:induction false} NonShrinkingCaptures(s: Setup, trace: seq<Event>)
    requires s.policy.guardRefunds && CapturesNeverShrink(Admitted(s, trace))
    ensures Holds(INV004, Outcome(s, trace))
  {
    if trace != [] {
      var init, ev := trace[..|trace| - 1], trace[|trace| - 1];
      assert Admitted(s, init) + [] == Admitted(s, init);
      if Admits(Outcome(s, init), s.policy, ev) {
        ShrinkNeverInit(Admitted(s, init), ev);
      }
      NonShrinkingCaptures(s, init);
      OutcomeSnoc(s, trace);
      if Admits(Outcome(s, init), s.policy, ev) {
        GrowingNeverUndercuts(s, init, ev);
      }
      RefundStep(Outcome(s, init), s.policy, ev);
    }
  }

  ghost predicate AlwaysOnGrowingCaptures(p: Policy) {
    forall s: Setup, trace :: s.policy == p && CapturesNeverShrink(Admitted(s, trace)) ==>
      Holds(INV004, Outcome(s, trace))
  }

  lemma RefundFlagDecides(p: Policy)
    ensures AlwaysOnGrowingCaptures(p) <==> p.guardRefunds
  {
    if p.guardRefunds {
      forall s: Setup, trace | s.policy == p && CapturesNeverShrink(Admitted(s, trace))
        ensures Holds(INV004, Outcome(s, trace))
      {
        NonShrinkingCaptures(s, trace);
      }
    } else {
      var a := Sample("e1", RefundProcessed, 1);
      var s := Setup(p, "t1", true);
      assert [a][..0] == [] && Outcome(s, []) == START;
      var w := Outcome(s, [a]);
      assert w == Apply(START, p, a) && Admitted(s, []) == [] && |Admitted(s, [a])| <= 1;
      assert w.payments["pay"].refunded == 1 && w.payments["pay"].captured == 0;
      assert CapturesNeverShrink(Admitted(s, [a])) && !Holds(INV004, w);
    }
  }

  // ------------------------------------------- complete delivery (INV-006)

  ghost predicate PaidDelivered(s: Setup, trace: seq<Event>, order: string) {
    exists ev :: ev in Admitted(s, trace) && ev.order == order && ev.kind == OrderPaid
  }

  ghost predicate FulfillingDelivered(s: Setup, trace: seq<Event>, order: string) {
    exists ev :: ev in Admitted(s, trace) && ev.order == order && TriesToFulfil(s.policy, ev.kind)
  }

  lemma {:induction false} OrderRecord(s: Setup, trace: seq<Event>, order: string)
    ensures var w := Outcome(s, trace);
      && (order in w.orders && w.orders[order].paidExpected <==> PaidDelivered(s, trace, order))
      && (order in w.orders && w.orders[order].fulfilled >= 1 <==> FulfillingDelivered(s, trace, order))
  {
    if trace != [] {
      var init, ev := trace[..|trace| - 1], trace[|trace| - 1];
      OrderRecord(s, init, order);
      OutcomeSnoc(s, trace);
      var mine := Admits(Outcome(s, init), s.policy, ev) && ev.order == order;
      assert forall x :: x in Admitted(s, trace) && x.order == order <==>
        (x in Admitted(s, init) && x.order == order) || (mine && x == ev);
      assert PaidDelivered(s, trace, order) <==> PaidDelivered(s, init, order) || (mine && ev.kind == OrderPaid);
      assert FulfillingDelivered(s, trace, order) <==>
        FulfillingDelivered(s, init, order) || (mine && TriesToFulfil(s.policy, ev.kind));
    }
  }

  ghost predicate DeliveryComplete(s: Setup, trace: seq<Event>) {
    forall order :: PaidDelivered(s, trace, order) ==> FulfillingDelivered(s, trace, order)
  }

  /** For every policy: INV-006 holds exactly when each paid order also got an event the policy fulfils on. */
  lemma CompleteDeliveryExact(s: Setup, trace: seq<Event>)
    ensures Holds(INV006, Outcome(s, trace)) <==> DeliveryComplete(s, trace)
    ensures !s.policy.requireCaptured ==> Holds(INV006, Outcome(s, trace))
  {
    forall order
      ensures var w := Outcome(s, trace);
        && (order in w.orders && w.orders[order].paidExpected <==> PaidDelivered(s, trace, order))
        && (order in w.orders && w.orders[order].fulfilled >= 1 <==> FulfillingDelivered(s, trace, order))
    {
      OrderRecord(s, trace, order);
    }
  }

  // ------------------------------------------- the correct integration

  /** On every consistent, non-shrinking, complete trace, in any order, nothing is violated. */
  lemma CorrectIsClean(s: Setup, trace: seq<Event>)
    requires s.policy == CORRECT
    requires ConsistentIds(trace) && CapturesNeverShrink(Admitted(s, trace)) && DeliveryComplete(s, trace)
    ensures forall id :: Holds(id, Outcome(s, trace))
  {
    FlagsSuffice(s, trace);
    ConsistentIdsSuffice(s, trace);
    NonShrinkingCaptures(s, trace);
    CompleteDeliveryExact(s, trace);
    forall id: InvariantId ensures Holds(id, Outcome(s, trace)) {
      match id
      case INV001 => case INV002 => case INV003 => case INV004 =>
      case INV005 => case INV006 => case INV007 => case INV008 =>
    }
  }
}
