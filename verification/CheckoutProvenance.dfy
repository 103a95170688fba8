/**
  Where a verified proof comes from: a signed callback, for a captured payment of a paid
  order of the right amount. Everything is said of the callback's and the tables' fields.
 */
module CheckoutProvenance {
  import opened Common
  import opened Ledger
  import opened Checkout
  import S = CheckoutSafety

  function OrderKey(c: Callback): Key { Key(Scope(c.organization, c.merchant, "razorpay"), c.orderRef) }

  function PaymentKeyOf(c: Callback): Key { Key(Scope(c.organization, c.merchant, "razorpay"), c.paymentRef) }

  /** The payment is known and of the order the callback names. */
  predicate NamesOrder(t: Tables, c: Callback) {
    PaymentKeyOf(c) in t.payments && t.payments[PaymentKeyOf(c)].orderRef == c.orderRef
  }

  /** The payment is captured and not refunded, and the order paid. */
  predicate CapturedAndPaid(t: Tables, c: Callback) {
    && PaymentKeyOf(c) in t.payments && t.payments[PaymentKeyOf(c)].status == Success
    && OrderKey(c) in t.orders && t.orders[OrderKey(c)].paid
  }

  /** The order has no amount of its own, or the payment's. */
  predicate AmountsAgree(t: Tables, c: Callback) {
    OrderKey(c) in t.orders && PaymentKeyOf(c) in t.payments &&
      t.orders[OrderKey(c)].amount in {0, t.payments[PaymentKeyOf(c)].amount}
  }

  /** A signed callback for a captured payment of a paid order of its amount. */
  predicate Genuine(t: Tables, c: Callback) {
    c.configured && c.signed && NamesOrder(t, c) && CapturedAndPaid(t, c) && AmountsAgree(t, c)
  }

  predicate IsValid(proofs: map<Key, Proof>, k: Key) {
    k in proofs && proofs[k].valid
  }

  /** Each verdict, by what the callback and the tables say. */
  lemma VerdictExactly(t: Tables, c: Callback)
    ensures var v, known := VerdictOn(t, c), OrderKey(c) in t.orders;
      && (v == UnknownOrder <==> !known)
      && (v == SecretNotConfigured <==> known && !c.configured)
      && (v == InvalidSignature <==> known && c.configured && !c.signed)
      && (v == OrderMismatch <==> known && c.configured && c.signed && !NamesOrder(t, c))
      && (v == NotCaptured <==>
            known && c.configured && c.signed && NamesOrder(t, c) && !CapturedAndPaid(t, c))
      && (v == AmountMismatch <==>
            c.configured && c.signed && NamesOrder(t, c) && CapturedAndPaid(t, c) && !AmountsAgree(t, c))
      && (v == Verified <==> Genuine(t, c))
  {}

  /** A callback makes a proof valid exactly if it is genuine, and only the proof of its own payment. */
  lemma ProvesExactly(s: State, c: Callback, k: Key)
    ensures IsValid(Next(s, Verify(c)).proofs, k) <==>
      IsValid(s.proofs, k) || (k == PaymentKeyOf(c) && Genuine(s.ledger, c))
  {
    VerdictExactly(s.ledger, c);
  }

  /** An unsigned callback, or one without a configured secret, proves nothing. */
  lemma UnsignedProvesNothing(s: State, c: Callback, k: Key)
    requires !c.signed || !c.configured
    ensures IsValid(Next(s, Verify(c)).proofs, k) ==> IsValid(s.proofs, k)
  {
    ProvesExactly(s, c, k);
  }

  /**
    The evidence a callback leaves for a payment seen for the first time: none for an unknown
    order or without a secret; else a row under the callback's order, linked to the payment
    only once the signature was accepted.
   */
  lemma FirstEvidence(s: State, c: Callback)
    requires PaymentKeyOf(c) !in s.proofs
    ensures var u, k := Next(s, Verify(c)), PaymentKeyOf(c);
      if OrderKey(c) !in s.ledger.orders || !c.configured then u == s
      else
        && k in u.proofs && u.proofs[k].order == OrderKey(c) && u.proofs[k].verifiedAt == c.now
        && (u.proofs[k].payment == if c.signed && k in s.ledger.payments then Some(k) else None)
        && (u.proofs[k].valid <==> Genuine(s.ledger, c))
        && (u.proofs[k].reason == None <==> Genuine(s.ledger, c))
        && (u.proofs[k].reason == Some(InvalidSignature) <==> !c.signed)
  {
    VerdictExactly(s.ledger, c);
  }

  /**
    The evidence a callback leaves for a payment already on record: a valid row stands as it
    is, and any other changes only by a genuine callback, which keeps its order.
   */
  lemma LaterEvidence(s: State, c: Callback)
    requires PaymentKeyOf(c) in s.proofs
    ensures var k := PaymentKeyOf(c);
      var row := s.proofs[k];
      Next(s, Verify(c)) ==
        if row.valid || !Genuine(s.ledger, c) then s
        else s.(proofs := s.proofs[k := Proof(row.order, Some(k), true, None, c.now)])
  {
    hide Genuine;
    VerdictExactly(s.ledger, c);
    GenuineIsKnown(s.ledger, c);
    assert s.proofs[PaymentKeyOf(c) := s.proofs[PaymentKeyOf(c)]] == s.proofs;
  }

  lemma GenuineIsKnown(t: Tables, c: Callback)
    ensures Genuine(t, c) ==> PaymentKeyOf(c) in t.payments
  {}

  // ---------------------------------------------------------------- over a run

  /** Step `n` of the run is a genuine callback for this payment. */
  predicate ProvedAt(steps: seq<Step>, n: nat, k: Key) {
    && n < |steps| && steps[n].Verify? && PaymentKeyOf(steps[n].callback) == k
    && Genuine(RunSteps(START, steps[..n]).ledger, steps[n].callback)
  }

  ghost predicate ProvedIn(steps: seq<Step>, k: Key) {
    exists n :: ProvedAt(steps, n, k)
  }

  lemma ProvedEarlier(steps: seq<Step>, n: nat, k: Key)
    requires n + 1 < |steps|
    ensures ProvedAt(steps[..|steps| - 1], n, k) <==> ProvedAt(steps, n, k)
  {
    hide RunSteps, Genuine;
    assert steps[..|steps| - 1][..n] == steps[..n];
  }

  lemma ProvedSnoc(steps: seq<Step>, k: Key)
    requires steps != []
    ensures ProvedIn(steps, k) <==> ProvedIn(steps[..|steps| - 1], k) || ProvedAt(steps, |steps| - 1, k)
  {
    hide RunSteps, Genuine;
    var init := steps[..|steps| - 1];
    if n: nat :| ProvedAt(init, n, k) {
      ProvedEarlier(steps, n, k);
    }
    if n: nat :| ProvedAt(steps, n, k) {
      if n < |init| {
        ProvedEarlier(steps, n, k);
      }
    }
  }

  /** A proof is valid after a run if and only if some step of it was a genuine callback for its payment. */
  lemma {:induction false} ProofProvenance(steps: seq<Step>, k: Key)
    ensures IsValid(RunSteps(START, steps).proofs, k) <==> ProvedIn(steps, k)
  {
    hide Next, Genuine;
    if steps != [] {
      ProofProvenance(steps[..|steps| - 1], k);
      LastProves(steps, k);
      ProvedSnoc(steps, k);
    }
  }

  lemma LastProves(steps: seq<Step>, k: Key)
    requires steps != []
    ensures var init := steps[..|steps| - 1];
      IsValid(RunSteps(START, steps).proofs, k) <==>
        IsValid(RunSteps(START, init).proofs, k) || ProvedAt(steps, |steps| - 1, k)
  {
    var init, last := steps[..|steps| - 1], steps[|steps| - 1];
    if last.Verify? {
      ProvesExactly(RunSteps(START, init), last.callback, k);
    }
  }

  /** So each Razorpay checkout fulfilment of a run rests on a signed callback for its payment. */
  lemma FulfilmentIsSigned(steps: seq<Step>, f: Fulfilment)
    requires f in RunSteps(START, steps).fulfilments
    requires f.order.scope.provider == "razorpay" && f.source == "razorpay_checkout"
    ensures ProvedIn(steps, f.payment)
  {
    S.ReachableIsGood(steps);
    assert S.Proven(RunSteps(START, steps).proofs, f);
    ProofProvenance(steps, f.payment);
  }

  // ---------------------------------------------------------------- fulfilment requests

  /** The payment is captured, names an order, and that order is paid. */
  predicate Deserves(t: Tables, k: Key) {
    && k in t.payments && t.payments[k].status in {Success, Refunded} && t.payments[k].orderRef != ""
    && var o := Key(k.scope, t.payments[k].orderRef); o in t.orders && t.orders[o].paid
  }

  /** A row fulfils this order. */
  ghost predicate IsFulfilled(rows: seq<Fulfilment>, o: Key) {
    exists f :: f in rows && f.order == o
  }

  ghost predicate KeyTakenBy(rows: seq<Fulfilment>, key: string) {
    exists f :: f in rows && f.idempotencyKey == key
  }

  /**
    A request is granted exactly if its payment deserves it, no proof is wanting, and the
    order is fulfilled already or the request's own key is free.
   */
  lemma GrantedExactly(s: State, k: Key, source: string, key: string)
    requires k in s.ledger.payments
    ensures FulfilOutcome(s, k, source, key).Done? <==>
      && Deserves(s.ledger, k)
      && (k.scope.provider == "razorpay" && source == "razorpay_checkout" ==> S.ProofAccepted(s, k))
      && (IsFulfilled(s.fulfilments, OrderOf(s.ledger, k)) || !KeyTakenBy(s.fulfilments, key))
  {
    var o := OrderOf(s.ledger, k);
    assert Existing(s.fulfilments, o).Some? <==> IsFulfilled(s.fulfilments, o);
    assert KeyUsed(s.fulfilments, key) <==> KeyTakenBy(s.fulfilments, key) by {
      if i :| 0 <= i < |s.fulfilments| && s.fulfilments[i].idempotencyKey == key {
        assert s.fulfilments[i] in s.fulfilments;
      }
    }
  }

  /** The order's row is the one answered once it exists, whatever the request's source and key. */
  lemma AnsweredAgain(s: State, k: Key, source: string, key: string)
    requires k in s.ledger.payments && FulfilOutcome(s, k, source, key).Done?
    requires IsFulfilled(s.fulfilments, OrderOf(s.ledger, k))
    ensures var row := FulfilOutcome(s, k, source, key).row;
      && row in s.fulfilments && row.order == Key(k.scope, s.ledger.payments[k].orderRef)
      && Next(s, Fulfil(k, source, key)) == s
  {}

  /** Why a request is refused, in this order: the payment, its reference, its order, the proof, the key. */
  lemma RefusedExactly(s: State, k: Key, source: string, key: string)
    requires k in s.ledger.payments
    ensures var r, p := FulfilOutcome(s, k, source, key), s.ledger.payments[k];
      var captured, named := p.status in {Success, Refunded}, p.orderRef != "";
      var proven := k.scope.provider == "razorpay" && source == "razorpay_checkout" ==> S.ProofAccepted(s, k);
      && (r == Uncaptured <==> !captured)
      && (r == NoOrderRef <==> captured && !named)
      && (r == OrderUnpaid <==> captured && named && !Deserves(s.ledger, k))
      && (r == NoProof || r == ProofNotLinked <==> Deserves(s.ledger, k) && !proven)
      && (r == KeyTaken <==>
            Deserves(s.ledger, k) && proven && !IsFulfilled(s.fulfilments, OrderOf(s.ledger, k))
            && KeyTakenBy(s.fulfilments, key))
      && (!r.Done? ==> Next(s, Fulfil(k, source, key)) == s)
  {
    hide LatestProof;
    GrantedExactly(s, k, source, key);
  }

  /** A new row is of the payment's order, under the request's source and key. */
  lemma RowGranted(s: State, k: Key, source: string, key: string)
    requires k in s.ledger.payments && FulfilOutcome(s, k, source, key).Done?
    requires !IsFulfilled(s.fulfilments, OrderOf(s.ledger, k))
    ensures var u, row := Next(s, Fulfil(k, source, key)), FulfilOutcome(s, k, source, key).row;
      && u.fulfilments == s.fulfilments + [row]
      && row.order == Key(k.scope, s.ledger.payments[k].orderRef) && row.source == source && row.idempotencyKey == key
      && (!(k.scope.provider == "razorpay" && source == "razorpay_checkout") ==> row.payment == k)
  {}
}
