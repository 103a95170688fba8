/**
  The eight executable invariants of the Reliability Lab. Each predicate says what an
  evaluator looks for; each method is the evaluator's scan, proved to decide it.
 */
module ReliabilityInvariants {
  import opened ReliabilityEngine

  datatype InvariantId = INV001 | INV002 | INV003 | INV004 | INV005 | INV006 | INV007 | INV008

  predicate CapturedFulfilment(w: World, e: Effect) {
    e.kind == Fulfilment ==> e.payment in w.payments && w.payments[e.payment].status == Captured
  }

  ghost predicate NoFulfilmentWithoutCaptured(w: World) {
    forall e :: e in w.effects ==> CapturedFulfilment(w, e)
  }

  ghost predicate OneEffectPerEvent(w: World) {
    forall i, j :: 0 <= i < j < |w.effects| ==> w.effects[i].source != w.effects[j].source
  }

  ghost predicate DeliveredUnsigned(w: World, id: string) {
    exists d :: d in w.processed && !d.signed && d.id == id
  }

  ghost predicate InvalidSignatureZeroEffect(w: World) {
    && (forall e :: e in w.effects ==> !DeliveredUnsigned(w, e.source))
    && (forall d :: d in w.processed && !d.signed ==> !d.accepted)
  }

  ghost predicate RefundLeCaptured(w: World) {
    forall id :: id in w.payments ==> w.payments[id].refunded <= w.payments[id].captured
  }

  ghost predicate TenantIsolation(w: World) {
    forall e :: e in w.effects ==> e.tenant == w.home
  }

  ghost predicate OutOfOrderConverges(w: World) {
    forall id :: id in w.orders && w.orders[id].paidExpected ==> w.orders[id].fulfilled >= 1
  }

  ghost predicate AtMostOnePurchase(w: World) {
    forall i, j :: 0 <= i < j < |w.effects| ==> !(w.effects[i].kind == Purchase && w.effects[j].kind == Purchase)
  }

  ghost predicate AgentMandateSingleUse(w: World) {
    w.mandateSingleUse ==> AtMostOnePurchase(w)
  }

  ghost predicate OneFulfilmentPerOrder(w: World) {
    forall i, j :: 0 <= i < j < |w.effects| && w.effects[i].kind == Fulfilment && w.effects[j].kind == Fulfilment ==>
      w.effects[i].order != w.effects[j].order
  }

  ghost predicate Holds(id: InvariantId, w: World) {
    match id
    case INV001 => NoFulfilmentWithoutCaptured(w)
    case INV002 => OneEffectPerEvent(w)
    case INV003 => InvalidSignatureZeroEffect(w)
    case INV004 => RefundLeCaptured(w)
    case INV005 => TenantIsolation(w)
    case INV006 => OutOfOrderConverges(w)
    case INV007 => AgentMandateSingleUse(w)
    case INV008 => OneFulfilmentPerOrder(w)
  }

  // ---------------------------------------------------------------- evaluators

  method CheckCapturedFulfilments(w: World) returns (ok: bool)
    ensures ok <==> NoFulfilmentWithoutCaptured(w)
  {
    for i := 0 to |w.effects|
      invariant forall k :: 0 <= k < i ==> CapturedFulfilment(w, w.effects[k])
    {
      if !CapturedFulfilment(w, w.effects[i]) {
        assert w.effects[i] in w.effects;
        return false;
      }
    }
    return true;
  }

  ghost predicate Distinct(keys: seq<string>) {
    forall i, j :: 0 <= i < j < |keys| ==> keys[i] != keys[j]
  }

  lemma DistinctSnoc(keys: seq<string>, last: string)
    ensures Distinct(keys + [last]) <==> Distinct(keys) && last !in keys
  {
    var all := keys + [last];
    if Distinct(all) {
      assert forall i :: 0 <= i < |keys| ==> keys[i] == all[i] && all[i] != all[|keys|];
    }
  }

  lemma DistinctByCount(keys: seq<string>)
    ensures Distinct(keys) <==> forall k :: k in keys ==> multiset(keys)[k] == 1
  {
    if keys != [] {
      var n := |keys| - 1;
      var init, last := keys[..n], keys[n];
      assert keys == init + [last];
      DistinctByCount(init);
      assert forall k :: multiset(keys)[k] == multiset(init)[k] + (if k == last then 1 else 0);
      if Distinct(keys) {
        assert Distinct(init) && last !in init;
      } else if last !in init {
        var i, j :| 0 <= i < j < |keys| && keys[i] == keys[j];
        assert init[i] == init[j];
        var k :| k in init && multiset(init)[k] != 1;
        assert k in keys && multiset(keys)[k] != 1;
      }
    }
  }

  /** Counts each key in a dictionary, then looks for a count above one. */
  method CheckDistinct(keys: seq<string>) returns (ok: bool)
    ensures ok <==> Distinct(keys)
  {
    var counts: map<string, nat> := map[];
    for i := 0 to |keys|
      invariant forall k :: k in counts <==> k in keys[..i]
      invariant forall k :: k in counts ==> counts[k] == multiset(keys[..i])[k]
    {
      assert keys[..i + 1] == keys[..i] + [keys[i]];
      var count := if keys[i] in counts then counts[keys[i]] else 0;
      counts := counts[keys[i] := count + 1];
    }
    assert keys[..|keys|] == keys;
    DistinctByCount(keys);
    var ids := counts.Keys;
    while ids != {}
      invariant ids <= counts.Keys
      invariant forall k :: k in counts && k !in ids ==> counts[k] == 1
    {
      var k :| k in ids;
      if counts[k] > 1 {
        return false;
      }
      ids := ids - {k};
    }
    return true;
  }

  method CheckOneEffectPerEvent(w: World) returns (ok: bool)
    ensures ok <==> OneEffectPerEvent(w)
  {
    var ids := seq(|w.effects|, i requires 0 <= i < |w.effects| => w.effects[i].source);
    assert forall i :: 0 <= i < |ids| ==> ids[i] == w.effects[i].source;
    ok := CheckDistinct(ids);
  }

  method CheckInvalidSignatures(w: World) returns (ok: bool)
    ensures ok <==> InvalidSignatureZeroEffect(w)
  {
    var badIds: set<string> := {};
    for i := 0 to |w.processed|
      invariant forall id :: id in badIds <==>
        exists k :: 0 <= k < i && !w.processed[k].signed && w.processed[k].id == id
      invariant forall k :: 0 <= k < i && !w.processed[k].signed ==> !w.processed[k].accepted
    {
      var d := w.processed[i];
      if !d.signed {
        if d.accepted {
          assert d in w.processed;
          return false;
        }
        badIds := badIds + {d.id};
      }
    }
    forall id ensures id in badIds <==> DeliveredUnsigned(w, id) {
      if id in badIds {
        var k :| 0 <= k < |w.processed| && !w.processed[k].signed && w.processed[k].id == id;
        assert w.processed[k] in w.processed;
      }
    }
    for i := 0 to |w.effects|
      invariant forall k :: 0 <= k < i ==> w.effects[k].source !in badIds
    {
      if w.effects[i].source in badIds {
        assert w.effects[i] in w.effects;
        return false;
      }
    }
    return true;
  }

  method CheckRefunds(w: World) returns (ok: bool)
    ensures ok <==> RefundLeCaptured(w)
  {
    var ids := w.payments.Keys;
    while ids != {}
      invariant ids <= w.payments.Keys
      invariant forall id :: id in w.payments && id !in ids ==> w.payments[id].refunded <= w.payments[id].captured
    {
      var id :| id in ids;
      if w.payments[id].refunded > w.payments[id].captured {
        return false;
      }
      ids := ids - {id};
    }
    return true;
  }

  method CheckTenants(w: World) returns (ok: bool)
    ensures ok <==> TenantIsolation(w)
  {
    for i := 0 to |w.effects|
      invariant forall k :: 0 <= k < i ==> w.effects[k].tenant == w.home
    {
      if w.effects[i].tenant != w.home {
        assert w.effects[i] in w.effects;
        return false;
      }
    }
    return true;
  }

  method CheckPaidOrders(w: World) returns (ok: bool)
    ensures ok <==> OutOfOrderConverges(w)
  {
    var ids := w.orders.Keys;
    while ids != {}
      invariant ids <= w.orders.Keys
      invariant forall id :: id in w.orders && id !in ids && w.orders[id].paidExpected ==> w.orders[id].fulfilled >= 1
    {
      var id :| id in ids;
      if w.orders[id].paidExpected && w.orders[id].fulfilled < 1 {
        return false;
      }
      ids := ids - {id};
    }
    return true;
  }

  method CheckMandate(w: World) returns (ok: bool)
    ensures ok <==> AgentMandateSingleUse(w)
  {
    var n := 0;
    for i := 0 to |w.effects|
      invariant n == 0 <==> forall k :: 0 <= k < i ==> w.effects[k].kind != Purchase
      invariant n <= 1 <==> forall j, k :: 0 <= j < k < i ==>
        !(w.effects[j].kind == Purchase && w.effects[k].kind == Purchase)
    {
      if w.effects[i].kind == Purchase {
        n := n + 1;
      }
    }
    return !(w.mandateSingleUse && n > 1);
  }

  function FulfilledOrders(effects: seq<Effect>): seq<string> {
    if effects == [] then []
    else
      var rest, last := FulfilledOrders(effects[..|effects| - 1]), effects[|effects| - 1];
      if last.kind == Fulfilment then rest + [last.order] else rest
  }

  lemma FulfilledOrdersMembers(effects: seq<Effect>)
    ensures forall o :: o in FulfilledOrders(effects) <==>
      exists i :: 0 <= i < |effects| && effects[i].kind == Fulfilment && effects[i].order == o
  {
    if effects != [] {
      FulfilledOrdersMembers(effects[..|effects| - 1]);
    }
  }

  lemma FulfilledOrdersDistinct(w: World)
    ensures OneFulfilmentPerOrder(w) <==> Distinct(FulfilledOrders(w.effects))
    decreases |w.effects|
  {
    if w.effects != [] {
      var n := |w.effects| - 1;
      var init, last := w.effects[..n], w.effects[n];
      FulfilledOrdersDistinct(w.(effects := init));
      FulfilledOrdersMembers(init);
      var rest := FulfilledOrders(init);
      if last.kind == Fulfilment {
        DistinctSnoc(rest, last.order);
      }
    }
  }

  method CheckOneFulfilment(w: World) returns (ok: bool)
    ensures ok <==> OneFulfilmentPerOrder(w)
  {
    FulfilledOrdersDistinct(w);
    ok := CheckDistinct(FulfilledOrders(w.effects));
  }

  const EVALUATORS := [INV001, INV002, INV003, INV004, INV005, INV006, INV007, INV008]

  method Check(id: InvariantId, w: World) returns (ok: bool)
    ensures ok <==> Holds(id, w)
  {
    match id
    case INV001 => ok := CheckCapturedFulfilments(w);
    case INV002 => ok := CheckOneEffectPerEvent(w);
    case INV003 => ok := CheckInvalidSignatures(w);
    case INV004 => ok := CheckRefunds(w);
    case INV005 => ok := CheckTenants(w);
    case INV006 => ok := CheckPaidOrders(w);
    case INV007 => ok := CheckMandate(w);
    case INV008 => ok := CheckOneFulfilment(w);
  }

  method Evaluate(w: World) returns (violations: set<InvariantId>)
    ensures forall id :: id in violations <==> !Holds(id, w)
  {
    violations := {};
    for i := 0 to |EVALUATORS|
      invariant forall id :: id in violations <==> id in EVALUATORS[..i] && !Holds(id, w)
    {
      var ok := Check(EVALUATORS[i], w);
      if !ok {
        violations := violations + {EVALUATORS[i]};
      }
    }
    assert EVALUATORS[..|EVALUATORS|] == EVALUATORS;
    forall id: InvariantId ensures id in EVALUATORS {
      match id
      case INV001 => assert EVALUATORS[0] == id;
      case INV002 => assert EVALUATORS[1] == id;
      case INV003 => assert EVALUATORS[2] == id;
      case INV004 => assert EVALUATORS[3] == id;
      case INV005 => assert EVALUATORS[4] == id;
      case INV006 => assert EVALUATORS[5] == id;
      case INV007 => assert EVALUATORS[6] == id;
      case INV008 => assert EVALUATORS[7] == id;
    }
  }
}
