/**
  Checkout proofs and fulfilment. A browser callback is checked against the ledger and
  leaves a proof row; fulfilling an order needs a captured payment of it and, for a
  Razorpay checkout, a verified proof.

  The keyed digest of a callback is the boolean `signed`; clocks are inputs.
 */
module Checkout {
  import opened Common
  import opened Ledger

  const RAZORPAY := "razorpay"
  const CHECKOUT_SOURCE := "razorpay_checkout"

  datatype Callback = Callback(
    organization: string, merchant: string, orderRef: string, paymentRef: string,
    configured: bool, signed: bool, now: int)

  datatype Verdict =
    | UnknownOrder | SecretNotConfigured | InvalidSignature
    | OrderMismatch | NotCaptured | AmountMismatch | Verified

  /** Evidence of one payment reference; its order is the one it was first filed under. */
  datatype Proof = Proof(order: Key, payment: Option<Key>, valid: bool, reason: Option<Verdict>, verifiedAt: int)

  datatype Fulfilment = Fulfilment(order: Key, payment: Key, source: string, idempotencyKey: string)

  datatype FulfilResult =
    | Uncaptured | NoOrderRef | OrderUnpaid | NoProof | ProofNotLinked | KeyTaken
    | Done(row: Fulfilment)

  /** `proofOrder` lists the proof rows as they were created. */
  datatype State = State(ledger: Tables, proofs: map<Key, Proof>, proofOrder: seq<Key>, fulfilments: seq<Fulfilment>)

  datatype Step =
    | Deliver(event: Event)
    | Verify(callback: Callback)
    | Fulfil(payment: Key, source: string, idempotencyKey: string)

  const START := State(EMPTY, map[], [], [])

  // ---------------------------------------------------------------- verification

  function CallbackScope(c: Callback): Scope { Scope(c.organization, c.merchant, RAZORPAY) }

  function CallbackOrder(c: Callback): Key { Key(CallbackScope(c), c.orderRef) }

  function CallbackPayment(c: Callback): Key { Key(CallbackScope(c), c.paymentRef) }

  function VerdictOn(t: Tables, c: Callback): Verdict {
    var o, k := CallbackOrder(c), CallbackPayment(c);
    if o !in t.orders then UnknownOrder
    else if !c.configured then SecretNotConfigured
    else if !c.signed then InvalidSignature
    else if k !in t.payments || t.payments[k].orderRef != c.orderRef then OrderMismatch
    else if t.payments[k].status != Success || !t.orders[o].paid then NotCaptured
    else if t.orders[o].amount != 0 && t.payments[k].amount != t.orders[o].amount then AmountMismatch
    else Verified
  }

  /** The verdicts that leave evidence behind. */
  predicate Files(v: Verdict) {
    v != UnknownOrder && v != SecretNotConfigured
  }

  /** The payment a proof row is linked to: none before the signature has been accepted. */
  function Linked(t: Tables, c: Callback, v: Verdict): Option<Key> {
    if v != InvalidSignature && CallbackPayment(c) in t.payments then Some(CallbackPayment(c)) else None
  }

  function FiledProof(proofs: map<Key, Proof>, c: Callback, link: Option<Key>, v: Verdict): Proof {
    var k := CallbackPayment(c);
    if k !in proofs then Proof(CallbackOrder(c), link, v == Verified, if v == Verified then None else Some(v), c.now)
    else if v == Verified && !proofs[k].valid then
      proofs[k].(payment := if link.Some? then link else proofs[k].payment,
                 valid := true, reason := None, verifiedAt := c.now)
    else proofs[k]
  }

  function ProofsAfter(s: State, c: Callback): map<Key, Proof> {
    var v := VerdictOn(s.ledger, c);
    if Files(v) then s.proofs[CallbackPayment(c) := FiledProof(s.proofs, c, Linked(s.ledger, c, v), v)] else s.proofs
  }

  function ProofOrderAfter(s: State, c: Callback): seq<Key> {
    if Files(VerdictOn(s.ledger, c)) && CallbackPayment(c) !in s.proofs then s.proofOrder + [CallbackPayment(c)]
    else s.proofOrder
  }

  // ---------------------------------------------------------------- fulfilment

  predicate Proves(proofs: map<Key, Proof>, k: Key, o: Key) {
    k in proofs && proofs[k].valid && proofs[k].order == o
  }

  /** The latest verified proof filed under an order, the oldest row first among equals. */
  function LatestProof(proofs: map<Key, Proof>, rows: seq<Key>, o: Key): Option<Key> {
    if rows == [] then None
    else
      var best, k := LatestProof(proofs, rows[..|rows| - 1], o), rows[|rows| - 1];
      if Proves(proofs, k, o)
         && (best.None? || best.value !in proofs || proofs[best.value].verifiedAt < proofs[k].verifiedAt)
      then Some(k) else best
  }

  /** The first row of an order, if it has one. */
  function Existing(rows: seq<Fulfilment>, o: Key): (row: Option<Fulfilment>)
    ensures row.Some? ==> row.value in rows && row.value.order == o
    ensures row.None? ==> forall f :: f in rows ==> f.order != o
  {
    if rows == [] then None
    else if rows[0].order == o then Some(rows[0])
    else Existing(rows[1..], o)
  }

  predicate KeyUsed(rows: seq<Fulfilment>, key: string) {
    exists i :: 0 <= i < |rows| && rows[i].idempotencyKey == key
  }

  function OrderOf(t: Tables, k: Key): Key
    requires k in t.payments
  {
    Key(k.scope, t.payments[k].orderRef)
  }

  /** Whether a captured payment of a paid order asks for the fulfilment. */
  function Ready(t: Tables, k: Key): Option<FulfilResult>
    requires k in t.payments
  {
    if !Captured(t.payments[k].status) then Some(Uncaptured)
    else if t.payments[k].orderRef == "" then Some(NoOrderRef)
    else if OrderOf(t, k) !in t.orders || !t.orders[OrderOf(t, k)].paid then Some(OrderUnpaid)
    else None
  }

  predicate NeedsProof(k: Key, source: string) {
    k.scope.provider == RAZORPAY && source == CHECKOUT_SOURCE
  }

  /** The payment a fulfilment is booked on, or why it is refused for want of a proof. */
  function Backing(s: State, k: Key, source: string): (Option<FulfilResult>, Key)
    requires k in s.ledger.payments
  {
    if !NeedsProof(k, source) then (None, k)
    else
      var o := OrderOf(s.ledger, k);
      var best := LatestProof(s.proofs, s.proofOrder, o);
      if best.None? || best.value !in s.proofs then (Some(NoProof), k)
      else
        var link := s.proofs[best.value].payment;
        if link.None? then (None, k)
        else if link.value !in s.ledger.payments || s.ledger.payments[link.value].orderRef != o.id then
          (Some(ProofNotLinked), k)
        else (None, link.value)
  }

  function BookedOn(rows: seq<Fulfilment>, o: Key, payment: Key, source: string, key: string): FulfilResult {
    if Existing(rows, o).Some? then Done(Existing(rows, o).value)
    else if KeyUsed(rows, key) then KeyTaken
    else Done(Fulfilment(o, payment, source, key))
  }

  function FulfilOutcome(s: State, k: Key, source: string, key: string): FulfilResult
    requires k in s.ledger.payments
  {
    var ready, (proof, payment) := Ready(s.ledger, k), Backing(s, k, source);
    if ready.Some? then ready.value
    else if proof.Some? then proof.value
    else BookedOn(s.fulfilments, OrderOf(s.ledger, k), payment, source, key)
  }

  /** A fulfilment of an unknown payment is refused before the ledger is asked. */
  function FulfilmentsAfter(s: State, k: Key, source: string, key: string): seq<Fulfilment> {
    if k !in s.ledger.payments then s.fulfilments
    else
      var r := FulfilOutcome(s, k, source, key);
      if r.Done? && Existing(s.fulfilments, r.row.order).None? then s.fulfilments + [r.row] else s.fulfilments
  }

  // ---------------------------------------------------------------- runs

  function Next(s: State, step: Step): State {
    match step
    case Deliver(e) => s.(ledger := Apply(s.ledger, e))
    case Verify(c) => s.(proofs := ProofsAfter(s, c), proofOrder := ProofOrderAfter(s, c))
    case Fulfil(k, source, key) => s.(fulfilments := FulfilmentsAfter(s, k, source, key))
  }

  function RunSteps(s: State, steps: seq<Step>): State {
    if steps == [] then s else Next(RunSteps(s, steps[..|steps| - 1]), steps[|steps| - 1])
  }

  // ---------------------------------------------------------------- the tables

  class CheckoutTables {
    const ledger: LedgerTables
    var proofs: map<Key, Proof>
    var proofOrder: seq<Key>
    var fulfilments: seq<Fulfilment>

    ghost function Model(): State
      reads this, ledger
    {
      State(ledger.Model(), proofs, proofOrder, fulfilments)
    }

    constructor (ledger: LedgerTables)
      ensures this.ledger == ledger
      ensures proofs == map[] && proofOrder == [] && fulfilments == []
    {
      this.ledger := ledger;
      proofs, proofOrder, fulfilments := map[], [], [];
    }

    /** Inserts a proof row, or upgrades a rejected one; a verified row never changes. */
    method Record(c: Callback, link: Option<Key>, v: Verdict)
      modifies this`proofs, this`proofOrder
      ensures proofs == old(proofs)[CallbackPayment(c) := FiledProof(old(proofs), c, link, v)]
      ensures proofOrder == old(proofOrder) + if CallbackPayment(c) in old(proofs) then [] else [CallbackPayment(c)]
    {
      var k := CallbackPayment(c);
      if k !in proofs {
        proofs := proofs[k := Proof(CallbackOrder(c), link, v == Verified,
                  if v == Verified then None else Some(v), c.now)];
        proofOrder := proofOrder + [k];
        return;
      }
      if v == Verified && !proofs[k].valid {
        var row := proofs[k].(valid := true, reason := None, verifiedAt := c.now);
        if link.Some? {
          row := row.(payment := link);
        }
        proofs := proofs[k := row];
      }
      assert proofs == old(proofs)[k := FiledProof(old(proofs), c, link, v)];
    }

    method VerifyCheckout(c: Callback) returns (v: Verdict)
      modifies this`proofs, this`proofOrder
      ensures v == VerdictOn(ledger.Model(), c)
      ensures Model() == Next(old(Model()), Verify(c))
    {
      var o, k := CallbackOrder(c), CallbackPayment(c);
      if o !in ledger.orders {
        return UnknownOrder;
      }
      if !c.configured {
        return SecretNotConfigured;
      }
      if !c.signed {
        Record(c, None, InvalidSignature);
        return InvalidSignature;
      }
      var link := if k in ledger.payments then Some(k) else None;
      if k !in ledger.payments || ledger.payments[k].orderRef != c.orderRef {
        Record(c, link, OrderMismatch);
        return OrderMismatch;
      }
      if ledger.payments[k].status != Success || !ledger.orders[o].paid {
        Record(c, link, NotCaptured);
        return NotCaptured;
      }
      if ledger.orders[o].amount != 0 && ledger.payments[k].amount != ledger.orders[o].amount {
        Record(c, link, AmountMismatch);
        return AmountMismatch;
      }
      Record(c, link, Verified);
      return Verified;
    }

    method FindLatestProof(o: Key) returns (best: Option<Key>)
      ensures best == LatestProof(proofs, proofOrder, o)
    {
      best := None;
      for i := 0 to |proofOrder|
        invariant best == LatestProof(proofs, proofOrder[..i], o)
      {
        var k := proofOrder[i];
        assert proofOrder[..i + 1][..i] == proofOrder[..i];
        if k in proofs && proofs[k].valid && proofs[k].order == o {
          if best.None? || best.value !in proofs || proofs[best.value].verifiedAt < proofs[k].verifiedAt {
            best := Some(k);
          }
        }
      }
      assert proofOrder[..|proofOrder|] == proofOrder;
    }

    method FindBacking(k: Key, source: string) returns (refusal: Option<FulfilResult>, payment: Key)
      requires k in ledger.payments
      ensures (refusal, payment) == Backing(Model(), k, source)
    {
      if k.scope.provider != RAZORPAY || source != CHECKOUT_SOURCE {
        return None, k;
      }
      var best := FindLatestProof(Key(k.scope, ledger.payments[k].orderRef));
      if best.None? || best.value !in proofs {
        return Some(NoProof), k;
      }
      var link := proofs[best.value].payment;
      if link.None? {
        return None, k;
      }
      if link.value !in ledger.payments || ledger.payments[link.value].orderRef != ledger.payments[k].orderRef {
        return Some(ProofNotLinked), k;
      }
      return None, link.value;
    }

    method FindExisting(o: Key) returns (row: Option<Fulfilment>)
      ensures row == Existing(fulfilments, o)
    {
      for i := 0 to |fulfilments|
        invariant Existing(fulfilments, o) == Existing(fulfilments[i..], o)
      {
        if fulfilments[i].order == o {
          return Some(fulfilments[i]);
        }
        assert fulfilments[i..][1..] == fulfilments[i + 1..];
      }
      return None;
    }

    method RecordFulfilment(k: Key, source: string, key: string) returns (r: FulfilResult)
      requires k in ledger.payments
      modifies this`fulfilments
      ensures r == FulfilOutcome(old(Model()), k, source, key)
      ensures Model() == Next(old(Model()), Fulfil(k, source, key))
    {
      var p := ledger.payments[k];
      if p.status != Success && p.status != Refunded {
        return Uncaptured;
      }
      if p.orderRef == "" {
        return NoOrderRef;
      }
      var o := Key(k.scope, p.orderRef);
      if o !in ledger.orders || !ledger.orders[o].paid {
        return OrderUnpaid;
      }
      var refusal, payment := FindBacking(k, source);
      if refusal.Some? {
        return refusal.value;
      }
      var existing := FindExisting(o);
      if existing.Some? {
        return Done(existing.value);
      }
      if exists i :: 0 <= i < |fulfilments| && fulfilments[i].idempotencyKey == key {
        return KeyTaken;
      }
      var row := Fulfilment(o, payment, source, key);
      fulfilments := fulfilments + [row];
      return Done(row);
    }
  }
}
