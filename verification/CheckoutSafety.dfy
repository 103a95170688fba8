/**
  Safety of fulfilment over every run of events, browser callbacks and fulfilment
  requests, and the one thing a run can get wrong: a proof filed under another order.
 */
module CheckoutSafety {
  import opened Common
  import opened Ledger
  import opened LedgerRefunds
  import L = LedgerOrders
  import opened Checkout

  // ---------------------------------------------------------------- what the ledger keeps

  ghost predicate PaymentsForward(t: Tables, u: Tables) {
    forall k :: k in t.payments ==> k in u.payments && Forward(t.payments[k], u.payments[k])
  }

  // ---------------------------------------------------------------- the invariant

  predicate CapturedWithOrder(t: Tables, k: Key) {
    k in t.payments && Captured(t.payments[k].status) && t.payments[k].orderRef != ""
  }

  /** A proof row links its own payment or none, and a verified one a captured payment. */
  predicate ProofSound(s: State, k: Key) {
    k in s.proofs ==>
      var row := s.proofs[k];
      && k.scope.provider == RAZORPAY && row.order.scope == k.scope && row.order in s.ledger.orders
      && (row.payment.Some? ==> row.payment == Some(k))
      && (row.valid ==> row.payment == Some(k) && CapturedWithOrder(s.ledger, k))
  }

  /** The order is paid, and the payment captured and of that order. */
  predicate Earned(t: Tables, f: Fulfilment) {
    && f.order in t.orders && t.orders[f.order].paid
    && f.payment in t.payments && Captured(t.payments[f.payment].status)
    && f.payment.scope == f.order.scope && t.payments[f.payment].orderRef == f.order.id
  }

  /** A Razorpay checkout fulfilment rests on a verified proof of this order naming its payment. */
  predicate Proven(proofs: map<Key, Proof>, f: Fulfilment) {
    f.order.scope.provider == RAZORPAY && f.source == CHECKOUT_SOURCE ==>
      Proves(proofs, f.payment, f.order) && proofs[f.payment].payment == Some(f.payment)
  }

  /** No two rows fulfil one order or share an idempotency key. */
  ghost predicate Single(rows: seq<Fulfilment>) {
    forall i, j :: 0 <= i < j < |rows| ==>
      rows[i].order != rows[j].order && rows[i].idempotencyKey != rows[j].idempotencyKey
  }

  ghost predicate Good(s: State) {
    && SoundLedger(s.ledger) && L.Named(s.ledger) && L.AllBacked(s.ledger)
    && (forall k :: ProofSound(s, k))
    && (forall f :: f in s.fulfilments ==> Earned(s.ledger, f) && Proven(s.proofs, f))
    && Single(s.fulfilments)
    && (forall k :: k in s.proofOrder <==> k in s.proofs)
  }

  /** What a step may not take back: rows of the ledger, proofs, and fulfilments. */
  ghost predicate Kept(s: State, u: State) {
    && L.OrdersKept(s.ledger, u.ledger) && PaymentsForward(s.ledger, u.ledger)
    && (forall k :: k in s.proofs ==> k in u.proofs && ProofKept(s.proofs[k], u.proofs[k]))
    && s.fulfilments <= u.fulfilments
  }

  /** A proof row keeps the order it was filed under, and a verified one never changes. */
  predicate ProofKept(p: Proof, q: Proof) {
    q.order == p.order && (p.valid ==> q == p)
  }

  lemma DeliverStep(s: State, e: Event)
    requires Good(s)
    ensures Good(Next(s, Deliver(e))) && Kept(s, Next(s, Deliver(e)))
  {
    var u := Next(s, Deliver(e));
    SoundStep(s.ledger, e);
    L.OrdersStep(s.ledger, e);
    L.OrdersStayKnown(s.ledger, e);
    forall k ensures ProofSound(u, k) {
      assert ProofSound(s, k);
    }
    forall f | f in u.fulfilments ensures Earned(u.ledger, f) {
      assert Earned(s.ledger, f);
    }
  }

  lemma VerifyStep(s: State, c: Callback)
    requires Good(s)
    ensures Good(Next(s, Verify(c))) && Kept(s, Next(s, Verify(c)))
  {
    var u := Next(s, Verify(c));
    forall k ensures ProofSound(u, k) {
      assert ProofSound(s, k);
    }
    forall f | f in u.fulfilments ensures Proven(u.proofs, f) {
      assert Proven(s.proofs, f);
    }
  }

  lemma {:induction false} LatestProves(proofs: map<Key, Proof>, rows: seq<Key>, o: Key)
    ensures var best := LatestProof(proofs, rows, o);
      && (best.Some? ==> best.value in rows && Proves(proofs, best.value, o))
      && (forall k :: k in rows && Proves(proofs, k, o) ==>
            best.Some? && proofs[k].verifiedAt <= proofs[best.value].verifiedAt)
  {
    if rows != [] {
      LatestProves(proofs, rows[..|rows| - 1], o);
      assert forall k :: k in rows ==> k in rows[..|rows| - 1] || k == rows[|rows| - 1];
    }
  }

  /** A new row is earned and proven, whatever payment the request named. */
  lemma NewRow(s: State, k: Key, source: string, key: string)
    requires Good(s) && k in s.ledger.payments
    ensures var r := FulfilOutcome(s, k, source, key);
      && (r.Done? ==> r.row.order == OrderOf(s.ledger, k))
      && (r.Done? && Existing(s.fulfilments, r.row.order).None? ==>
            Earned(s.ledger, r.row) && Proven(s.proofs, r.row) && !KeyUsed(s.fulfilments, r.row.idempotencyKey))
  {
    var o := OrderOf(s.ledger, k);
    LatestProves(s.proofs, s.proofOrder, o);
    var best := LatestProof(s.proofs, s.proofOrder, o);
    assert best.Some? ==> ProofSound(s, best.value);
  }

  lemma FulfilStep(s: State, k: Key, source: string, key: string)
    requires Good(s)
    ensures Good(Next(s, Fulfil(k, source, key))) && Kept(s, Next(s, Fulfil(k, source, key)))
  {
    var u := Next(s, Fulfil(k, source, key));
    forall x ensures ProofSound(u, x) {
      assert ProofSound(s, x);
    }
    if k in s.ledger.payments {
      NewRow(s, k, source, key);
    }
  }

  lemma GoodStep(s: State, step: Step)
    requires Good(s)
    ensures Good(Next(s, step)) && Kept(s, Next(s, step))
  {
    match step
    case Deliver(e) => DeliverStep(s, e);
    case Verify(c) => VerifyStep(s, c);
    case Fulfil(k, source, key) => FulfilStep(s, k, source, key);
  }

  /** In every reachable state each order has at most one fulfilment, earned and proven. */
  lemma {:induction false} FulfilmentSafety(s: State, steps: seq<Step>)
    requires Good(s)
    ensures Good(RunSteps(s, steps)) && Kept(s, RunSteps(s, steps))
  {
    if steps != [] {
      var init := steps[..|steps| - 1];
      FulfilmentSafety(s, init);
      GoodStep(RunSteps(s, init), steps[|steps| - 1]);
    }
  }

  /** In every state reached from empty tables. */
  lemma ReachableIsGood(steps: seq<Step>)
    ensures Good(RunSteps(START, steps))
  {
    FulfilmentSafety(START, steps);
  }

  lemma {:induction false} ExistingIsUnique(rows: seq<Fulfilment>, f: Fulfilment)
    requires Single(rows) && f in rows
    ensures Existing(rows, f.order) == Some(f)
  {
    if rows[0] != f {
      assert f in rows[1..];
      ExistingIsUnique(rows[1..], f);
    }
  }

  /** Once an order is fulfilled, every later granted request for it returns that same row. */
  lemma FulfilledForGood(s: State, steps: seq<Step>, f: Fulfilment, k: Key, source: string, key: string)
    requires Good(s) && f in s.fulfilments
    requires var u := RunSteps(s, steps);
      k in u.ledger.payments && OrderOf(u.ledger, k) == f.order && FulfilOutcome(u, k, source, key).Done?
    ensures FulfilOutcome(RunSteps(s, steps), k, source, key).row == f
  {
    FulfilmentSafety(s, steps);
    ExistingIsUnique(RunSteps(s, steps).fulfilments, f);
  }

  // ---------------------------------------------------------------- proofs filed under another order

  /** A checkout request is not turned away for want of a proof. */
  predicate ProofAccepted(s: State, k: Key)
    requires k in s.ledger.payments
  {
    Backing(s, k, CHECKOUT_SOURCE).0 == None
  }

  /** A proof row whose payment belongs to another order than the one it is filed under. */
  predicate Misfiled(s: State, k: Key) {
    k in s.proofs && k in s.ledger.payments && OrderOf(s.ledger, k) != s.proofs[k].order
  }

  /** Accepted means: some verified proof is filed under the order, and the latest is not misfiled. */
  lemma AcceptedExactly(s: State, k: Key)
    requires Good(s) && k in s.ledger.payments && k.scope.provider == RAZORPAY
    ensures var o := OrderOf(s.ledger, k);
      var best := LatestProof(s.proofs, s.proofOrder, o);
      && (ProofAccepted(s, k) <==> best.Some? && Proves(s.proofs, best.value, o) && !Misfiled(s, best.value))
      && (best.Some? <==> exists x :: Proves(s.proofs, x, o))
      && (best.Some? ==> Proves(s.proofs, best.value, o))
  {
    var o := OrderOf(s.ledger, k);
    LatestProves(s.proofs, s.proofOrder, o);
    var best := LatestProof(s.proofs, s.proofOrder, o);
    assert best.Some? ==> ProofSound(s, best.value);
  }

  lemma VerifiedProves(s: State, c: Callback, x: Key)
    requires Good(s) && VerdictOn(s.ledger, c) == Verified
    ensures var u, k, o := Next(s, Verify(c)), CallbackPayment(c), CallbackOrder(c);
      && (Proves(u.proofs, x, o) <==>
            if x == k then k !in s.proofs || s.proofs[k].order == o else Proves(s.proofs, x, o))
      && (Proves(u.proofs, x, o) ==> (Misfiled(u, x) <==> x != k && Misfiled(s, x)))
  {
    assert ProofSound(s, x);
  }

  /** The proof of another order's payment or of none changes nothing for this order. */
  lemma {:induction false} LatestFrame(proofs: map<Key, Proof>, k: Key, row: Proof, rows: seq<Key>, o: Key)
    requires !Proves(proofs, k, o) && !Proves(proofs[k := row], k, o)
    ensures LatestProof(proofs[k := row], rows, o) == LatestProof(proofs, rows, o)
  {
    if rows != [] {
      LatestFrame(proofs, k, row, rows[..|rows| - 1], o);
      LatestProves(proofs, rows[..|rows| - 1], o);
    }
  }

  /** A new proof of the order takes over from the latest one exactly if that one is older; a tie may go either way. */
  predicate TakesOver(proofs: map<Key, Proof>, before: Option<Key>, after: Option<Key>,
                      k: Key, now: int, listed: bool) {
    && (before.Some? ==> before.value in proofs)
    && (after == before || (after == Some(k) && (before.Some? ==> proofs[before.value].verifiedAt <= now)))
    && (listed && (before.Some? ==> proofs[before.value].verifiedAt < now) ==> after == Some(k))
  }

  lemma {:induction false} LatestAfterFiling(proofs: map<Key, Proof>, k: Key, row: Proof, rows: seq<Key>, o: Key)
    requires !Proves(proofs, k, o) && row.valid && row.order == o
    ensures TakesOver(proofs, LatestProof(proofs, rows, o), LatestProof(proofs[k := row], rows, o), k, row.verifiedAt,
                      k in rows)
  {
    if rows != [] {
      var init, x := rows[..|rows| - 1], rows[|rows| - 1];
      LatestAfterFiling(proofs, k, row, init, o);
      LatestProves(proofs, init, o);
      assert rows == init + [x];
    }
  }

  /** The callback's payment has no proof row yet, or one of this order that is not verified. */
  predicate FiledHere(s: State, c: Callback) {
    CallbackPayment(c) in s.proofs ==>
      !s.proofs[CallbackPayment(c)].valid && s.proofs[CallbackPayment(c)].order == CallbackOrder(c)
  }

  /** No proof of the order before it, or only older ones. */
  predicate Newest(s: State, prior: Option<Key>, now: int) {
    prior.Some? ==> prior.value in s.proofs && s.proofs[prior.value].verifiedAt < now
  }

  /** A misfiled latest proof of the order is not of this very moment. */
  predicate NoMisfiledTie(s: State, prior: Option<Key>, now: int) {
    prior.Some? && Misfiled(s, prior.value) ==> s.proofs[prior.value].verifiedAt != now
  }

  lemma VerifiedLatest(s: State, c: Callback)
    requires Good(s) && VerdictOn(s.ledger, c) == Verified
    ensures var u, k, o := Next(s, Verify(c)), CallbackPayment(c), CallbackOrder(c);
      var prior, best := LatestProof(s.proofs, s.proofOrder, o), LatestProof(u.proofs, u.proofOrder, o);
      if FiledHere(s, c) then TakesOver(s.proofs, prior, best, k, c.now, true) else best == prior
  {
    var u, k, o := Next(s, Verify(c)), CallbackPayment(c), CallbackOrder(c);
    if FiledHere(s, c) {
      LatestAfterFiling(s.proofs, k, u.proofs[k], u.proofOrder, o);
      if k !in s.proofs {
        assert u.proofOrder[..|u.proofOrder| - 1] == s.proofOrder;
      }
    } else if !s.proofs[k].valid {
      LatestFrame(s.proofs, k, u.proofs[k], s.proofOrder, o);
    } else {
      assert u.proofs == s.proofs;
    }
  }

  /** No proof of the order before it, or none verified later. */
  predicate NoneLater(s: State, prior: Option<Key>, now: int) {
    prior.Some? ==> prior.value in s.proofs && s.proofs[prior.value].verifiedAt <= now
  }

  /**
    After a callback is verified, its payment can be fulfilled exactly when the latest proof
    of its order was sound before, or the callback files a newer one. Where it files one of
    the same instant as a misfiled latest proof, either may be taken for the latest.
   */
  lemma VerifiedThenFulfilled(s: State, c: Callback)
    requires Good(s) && VerdictOn(s.ledger, c) == Verified
    ensures var prior := LatestProof(s.proofs, s.proofOrder, CallbackOrder(c));
      var accepted := ProofAccepted(Next(s, Verify(c)), CallbackPayment(c));
      var sound := prior.Some? && !Misfiled(s, prior.value);
      && (sound || (FiledHere(s, c) && Newest(s, prior, c.now)) ==> accepted)
      && (accepted ==> sound || (FiledHere(s, c) && NoneLater(s, prior, c.now)))
      && (NoMisfiledTie(s, prior, c.now) ==> (accepted <==> sound || (FiledHere(s, c) && Newest(s, prior, c.now))))
  {
    var u, k, o := Next(s, Verify(c)), CallbackPayment(c), CallbackOrder(c);
    VerifyStep(s, c);
    AcceptedExactly(u, k);
    VerifiedLatest(s, c);
    LatestProves(s.proofs, s.proofOrder, o);
    var best := LatestProof(u.proofs, u.proofOrder, o);
    if best.Some? {
      VerifiedProves(s, c, best.value);
    }
  }

  function Capture(id: string, payment: string, order: string): Event {
    Event(PaymentSuccess, SHOP, id, 0, payment, 1000, order, 1000, 0, "", 0, None)
  }

  function Browser(order: string, payment: string, signed: bool): Callback {
    Callback("org", "shop", order, payment, true, signed, 0)
  }

  /** Payments A of order O and B of order X, both captured. */
  const TWO_PAID := Tables(
    map[Key(SHOP, "A") := Payment("O", 1000, 0, Success, 0), Key(SHOP, "B") := Payment("X", 1000, 0, Success, 0)],
    map[], [],
    map[Key(SHOP, "O") := Order(1000, true, 1000, Some(0)), Key(SHOP, "X") := Order(1000, true, 1000, Some(0))])

  const ONE_PAID := Tables(
    map[Key(SHOP, "A") := Payment("O", 1000, 0, Success, 0)], map[], [],
    map[Key(SHOP, "O") := Order(1000, true, 1000, Some(0))])

  lemma FirstPaid(id: string)
    ensures Apply(EMPTY, Capture(id, "A", "O")) == ONE_PAID
  {}

  lemma SecondPaid(id: string)
    ensures Apply(ONE_PAID, Capture(id, "B", "X")) == TWO_PAID
  {}

  lemma StepSnoc(s: State, steps: seq<Step>, step: Step)
    ensures RunSteps(s, steps + [step]) == Next(RunSteps(s, steps), step)
  {
    assert (steps + [step])[..|steps|] == steps;
  }

  const FIRST := Capture("evt_1", "A", "O")
  const SECOND := Capture("evt_2", "B", "X")

  lemma TwoPaidReachable()
    ensures Receivable([FIRST, SECOND])
    ensures RunSteps(START, [] + [Deliver(FIRST)] + [Deliver(SECOND)]) == State(TWO_PAID, map[], [], [])
  {
    FirstPaid("evt_1");
    SecondPaid("evt_2");
    StepSnoc(START, [], Deliver(FIRST));
    StepSnoc(START, [] + [Deliver(FIRST)], Deliver(SECOND));
    assert "evt_1"[4] != "evt_2"[4];
  }

  /** The two callbacks on the tables with both payments captured. */
  lemma WrongOrderThen()
    ensures var s := State(TWO_PAID, map[], [], []);
      var u := Next(s, Verify(Browser("X", "A", false)));
      && VerdictOn(u.ledger, Browser("O", "A", true)) == Verified
      && FulfilOutcome(Next(s, Verify(Browser("O", "A", true))), Key(SHOP, "A"), CHECKOUT_SOURCE, "k").Done?
      && FulfilOutcome(Next(u, Verify(Browser("O", "A", true))), Key(SHOP, "A"), CHECKOUT_SOURCE, "k") == NoProof
  {
    var s, good := State(TWO_PAID, map[], [], []), Browser("O", "A", true);
    var a, o := Key(SHOP, "A"), Key(SHOP, "O");
    var u := Next(s, Verify(Browser("X", "A", false)));
    assert u.proofOrder == [a] && u.proofs[a].order == Key(SHOP, "X");
    LatestOfOne(Next(u, Verify(good)).proofs, a, o);
    LatestOfOne(Next(s, Verify(good)).proofs, a, o);
  }

  /** What a checkout request for a payment gets; none for an unknown payment. */
  function Asked(s: State, k: Key): Option<FulfilResult> {
    if k in s.ledger.payments then Some(FulfilOutcome(s, k, CHECKOUT_SOURCE, "k")) else None
  }

  /**
    From empty tables, two orders are paid. After one unsigned callback naming the wrong
    order the genuine one still verifies, but the payment can no longer be fulfilled.
   */
  lemma WrongOrderFirst()
    ensures var paid := [] + [Deliver(FIRST)] + [Deliver(SECOND)];
      var wrong, right := Verify(Browser("X", "A", false)), Verify(Browser("O", "A", true));
      && Receivable([FIRST, SECOND])
      && VerdictOn(RunSteps(START, paid + [wrong]).ledger, right.callback) == Verified
      && Asked(RunSteps(START, paid + [wrong] + [right]), Key(SHOP, "A")) == Some(NoProof)
      && (var r := Asked(RunSteps(START, paid + [right]), Key(SHOP, "A")); r.Some? && r.value.Done?)
  {
    var paid := [] + [Deliver(FIRST)] + [Deliver(SECOND)];
    var wrong, right := Verify(Browser("X", "A", false)), Verify(Browser("O", "A", true));
    TwoPaidReachable();
    WrongOrderThen();
    StepSnoc(START, paid, wrong);
    StepSnoc(START, paid, right);
    StepSnoc(START, paid + [wrong], right);
  }

  lemma LatestOfOne(proofs: map<Key, Proof>, k: Key, o: Key)
    ensures LatestProof(proofs, [k], o) == if Proves(proofs, k, o) then Some(k) else None
  {
    assert [k][..0] == [];
  }

  /** Only this payment's callbacks name the order. */
  ghost predicate OnlyVia(steps: seq<Step>, o: Key, k: Key) {
    forall step :: step in steps && step.Verify? && CallbackOrder(step.callback) == o ==>
      CallbackPayment(step.callback) == k
  }

  ghost predicate NothingFiled(s: State, o: Key) {
    forall x :: x in s.proofs ==> s.proofs[x].order != o
  }

  lemma {:induction false} StaysMisfiled(s: State, steps: seq<Step>, k: Key)
    requires Good(s) && Misfiled(s, k) && s.ledger.payments[k].orderRef != ""
    requires NothingFiled(s, OrderOf(s.ledger, k)) && OnlyVia(steps, OrderOf(s.ledger, k), k)
    ensures var u := RunSteps(s, steps);
      Good(u) && Misfiled(u, k) && OrderOf(u.ledger, k) == OrderOf(s.ledger, k) && NothingFiled(u, OrderOf(s.ledger, k))
  {
    FulfilmentSafety(s, steps);
    if steps != [] {
      var init, last := steps[..|steps| - 1], steps[|steps| - 1];
      assert last in steps;
      StaysMisfiled(s, init, k);
    }
  }

  /**
    A payment whose proof is filed under another order is refused for want of a proof for
    ever, however often its callback verifies, until another payment proves the order.
   */
  lemma MisfiledNeverFulfilled(s: State, steps: seq<Step>, k: Key)
    requires Good(s) && Misfiled(s, k) && s.ledger.payments[k].orderRef != "" && k.scope.provider == RAZORPAY
    requires NothingFiled(s, OrderOf(s.ledger, k)) && OnlyVia(steps, OrderOf(s.ledger, k), k)
    ensures k in RunSteps(s, steps).ledger.payments && !ProofAccepted(RunSteps(s, steps), k)
  {
    StaysMisfiled(s, steps, k);
    var u := RunSteps(s, steps);
    LatestProves(u.proofs, u.proofOrder, OrderOf(u.ledger, k));
  }
}
