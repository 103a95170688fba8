/**
  The payment ledger: canonical provider events, arriving late, twice or out of order,
  drive payments, refunds and orders. Rows are keyed by tenant scope and provider
  reference, as the unique constraints are.

  An absent or empty string field of an event is "" and an absent or zero amount is 0:
  the code reads both through `or`.
 */
module Ledger {
  import opened Common

  datatype Scope = Scope(organization: string, merchant: string, provider: string)

  datatype Key = Key(scope: Scope, id: string)

  datatype PaymentStatus = Created | Authorized | TimedOut | Failed | Success | Refunded

  datatype EventKind =
    | PaymentCreated | PaymentAuthorized | PaymentTimeout | PaymentFailed | PaymentSuccess | OrderPaid
    | RefundCreated | RefundFailed | RefundUpdated | ConnectorHealth

  /** Refund row and provider statuses; `Unknown` stands for any other provider string. */
  datatype RefundStatus =
    | RCreated | RPending | RUpdated | RProcessed | RFailed | RRejected | RPendingReconciliation
    | Unknown(name: string)

  datatype Event = Event(
    kind: EventKind, scope: Scope, externalId: string, occurredAt: int, paymentRef: string, amount: nat,
    orderRef: string, paymentAmount: nat, orderAmount: nat,
    refundRef: string, refundAmount: nat, refundStatus: Option<RefundStatus>)

  datatype Payment = Payment(orderRef: string, amount: nat, refunded: nat, status: PaymentStatus, occurredAt: int)

  datatype Refund = Refund(payment: Key, amount: nat, status: RefundStatus)

  datatype Order = Order(amount: nat, paid: bool, amountPaid: nat, paidAt: Option<int>)

  /** `refundOrder` lists the refund rows as they were created. */
  datatype Tables = Tables(
    payments: map<Key, Payment>, refunds: map<Key, Refund>, refundOrder: seq<Key>, orders: map<Key, Order>)

  const EMPTY := Tables(map[], map[], [], map[])

  /** The tenant scope of the concrete runs. */
  const SHOP := Scope("org", "shop", "razorpay")

  /** What the event contract asks of one event's references. */
  predicate WellFormed(e: Event) {
    3 <= |e.externalId| <= 200 && 1 <= |e.paymentRef| <= 200
  }

  /** Events as the inbox lets them through: well formed, each with its own id. */
  ghost predicate Receivable(trace: seq<Event>) {
    && (forall e :: e in trace ==> WellFormed(e))
    && (forall i, j :: 0 <= i < j < |trace| ==> trace[i].externalId != trace[j].externalId)
  }

  function Or(a: nat, b: nat): nat { if a != 0 then a else b }

  function OrText(a: string, b: string): string { if a != "" then a else b }

  function Max(a: int, b: int): int { if a < b then b else a }

  predicate Captured(st: PaymentStatus) { st == Success || st == Refunded }

  // ---------------------------------------------------------------- payments

  function PaymentKey(e: Event): Key { Key(e.scope, e.paymentRef) }

  /** The payment row an event works on, created or given its order reference if need be. */
  function EnsuredPayment(payments: map<Key, Payment>, e: Event): Payment {
    var k := PaymentKey(e);
    if k !in payments then Payment(e.orderRef, Or(e.paymentAmount, e.amount), 0, Created, e.occurredAt)
    else if e.orderRef != "" && payments[k].orderRef == "" then payments[k].(orderRef := e.orderRef)
    else payments[k]
  }

  function Target(kind: EventKind): Option<PaymentStatus> {
    match kind
    case PaymentCreated => Some(Created)
    case PaymentAuthorized => Some(Authorized)
    case PaymentTimeout => Some(TimedOut)
    case PaymentFailed => Some(Failed)
    case PaymentSuccess => Some(Success)
    case OrderPaid => Some(Success)
    case _ => None
  }

  function Allowed(current: PaymentStatus): set<PaymentStatus> {
    match current
    case Created => {Created, Authorized, TimedOut, Failed, Success, Refunded}
    case Authorized => {Authorized, TimedOut, Failed, Success, Refunded}
    case TimedOut => {TimedOut, Authorized, Failed, Success, Refunded}
    case Failed => {Failed, Authorized, Success, Refunded}
    case Success => {Success, Refunded}
    case Refunded => {Refunded}
  }

  predicate CanTransition(p: Payment, target: PaymentStatus, occurredAt: int) {
    if target == p.status then true
    else if p.status == Refunded then false
    else if p.status == Success then target == Refunded && occurredAt >= p.occurredAt
    else target in Allowed(p.status)
  }

  /** A status event the payment refuses: it changes nothing beyond the ensured row. */
  predicate Blocked(p: Payment, e: Event) {
    Target(e.kind).Some? && !CanTransition(p, Target(e.kind).value, e.occurredAt)
  }

  function Advanced(p: Payment, e: Event): Payment {
    if Target(e.kind).Some? then p.(status := Target(e.kind).value) else p
  }

  // ---------------------------------------------------------------- refunds

  predicate IsRefund(kind: EventKind) {
    kind == RefundCreated || kind == RefundFailed || kind == RefundUpdated
  }

  predicate IsCapture(kind: EventKind) {
    kind == PaymentSuccess || kind == OrderPaid
  }

  function RefundKey(e: Event): Key { Key(e.scope, OrText(e.refundRef, "event:" + e.externalId)) }

  function RefundAmount(e: Event): nat { Or(e.refundAmount, e.amount) }

  function ProviderStatus(e: Event): RefundStatus {
    if e.kind == RefundFailed then RFailed
    else if e.kind == RefundUpdated then RUpdated
    else if e.kind == RefundCreated && e.refundStatus == None then
      if e.scope.provider == "razorpay" then RCreated else RProcessed
    else if e.refundStatus == None then RCreated
    else e.refundStatus.value
  }

  predicate Settles(p: Payment, row: Refund) {
    p.refunded + row.amount <= p.amount
  }

  /** Credits a refund to a captured payment, unless it exceeds what is left. */
  function SettledPayment(p: Payment, row: Refund): Payment {
    if !Settles(p, row) then p
    else
      p.(refunded := p.refunded + row.amount,
         status := if p.refunded + row.amount == p.amount then Refunded else p.status)
  }

  function SettledRow(p: Payment, row: Refund): Refund {
    row.(status := if Settles(p, row) then RProcessed else RRejected)
  }

  /** The refund row an event works on: a fresh one belongs to the event's payment. */
  function EnsuredRefund(refunds: map<Key, Refund>, e: Event): Refund {
    if RefundKey(e) in refunds then refunds[RefundKey(e)] else Refund(PaymentKey(e), RefundAmount(e), RCreated)
  }

  /** Whether a refund event asks to credit its (not yet processed) row to a captured payment. */
  predicate Credits(p: Payment, row: Refund, e: Event) {
    && row.amount == RefundAmount(e) && ProviderStatus(e) == RProcessed
    && row.status != RProcessed && Captured(p.status)
  }

  function RefundRowAfter(p: Payment, row: Refund, e: Event): Refund {
    var st := ProviderStatus(e);
    if row.amount != RefundAmount(e) then row.(status := RRejected)
    else if st == RFailed then row.(status := RFailed)
    else if st !in {RProcessed, RCreated, RPending, RUpdated} then row.(status := st)
    else if row.status == RProcessed then row
    else if st != RProcessed then row.(status := st)
    else if !Captured(p.status) then row.(status := RPendingReconciliation)
    else SettledRow(p, row)
  }

  function RefundPaymentAfter(p: Payment, row: Refund, e: Event): Payment {
    if Credits(p, row, e) then SettledPayment(p, row) else p
  }

  predicate Held(refunds: map<Key, Refund>, r: Key, k: Key) {
    r in refunds && refunds[r].payment == k && refunds[r].status == RPendingReconciliation
  }

  /** Settles a payment's held refunds, oldest first. */
  function SettleAll(p: Payment, refunds: map<Key, Refund>, k: Key, order: seq<Key>): (Payment, map<Key, Refund>)
    decreases |order|
  {
    if order == [] then (p, refunds)
    else if Held(refunds, order[0], k) then
      var row := refunds[order[0]];
      SettleAll(SettledPayment(p, row), refunds[order[0] := SettledRow(p, row)], k, order[1..])
    else SettleAll(p, refunds, k, order[1..])
  }

  // ---------------------------------------------------------------- orders

  function OrderRef(p: Payment, e: Event): string { OrText(e.orderRef, p.orderRef) }

  function EnsuredOrder(orders: map<Key, Order>, p: Payment, e: Event): Order {
    var k := Key(e.scope, OrderRef(p, e));
    if k !in orders then Order(Or(e.orderAmount, p.amount), false, 0, None)
    else if orders[k].amount == 0 && p.amount != 0 then orders[k].(amount := p.amount)
    else orders[k]
  }

  function PaidOrder(o: Order, p: Payment, e: Event): Order {
    o.(paid := true, amountPaid := if o.amountPaid < p.amount then p.amount else o.amountPaid,
       paidAt := if o.paidAt == None then Some(e.occurredAt) else o.paidAt)
  }

  /** `p` is the payment when the order is ensured, `q` when it may be marked paid. */
  function OrdersAfter(orders: map<Key, Order>, p: Payment, q: Payment, e: Event): map<Key, Order> {
    if OrderRef(p, e) == "" then orders
    else
      var o := EnsuredOrder(orders, p, e);
      orders[Key(e.scope, OrderRef(p, e)) := if IsCapture(e.kind) && Captured(q.status) then PaidOrder(o, q, e) else o]
  }

  // ---------------------------------------------------------------- one event

  /** Payment and refund rows after the refund part of an event. */
  function MoneyAfter(refunds: map<Key, Refund>, order: seq<Key>, p: Payment, e: Event): (Payment, map<Key, Refund>) {
    if IsRefund(e.kind) then
      var row := EnsuredRefund(refunds, e);
      (RefundPaymentAfter(p, row, e), refunds[RefundKey(e) := RefundRowAfter(p, row, e)])
    else if IsCapture(e.kind) then SettleAll(p, refunds, PaymentKey(e), order)
    else (p, refunds)
  }

  function RefundOrderAfter(refunds: map<Key, Refund>, order: seq<Key>, e: Event): seq<Key> {
    if IsRefund(e.kind) && RefundKey(e) !in refunds then order + [RefundKey(e)] else order
  }

  function Touched(p: Payment, e: Event): Payment {
    p.(occurredAt := Max(p.occurredAt, e.occurredAt))
  }

  function Apply(t: Tables, e: Event): Tables {
    var p := EnsuredPayment(t.payments, e);
    if Blocked(p, e) then t.(payments := t.payments[PaymentKey(e) := p])
    else
      var p1 := Advanced(p, e);
      var (q, refunds) := MoneyAfter(t.refunds, t.refundOrder, p1, e);
      Tables(
        t.payments[PaymentKey(e) := Touched(q, e)], refunds,
        RefundOrderAfter(t.refunds, t.refundOrder, e), OrdersAfter(t.orders, p1, q, e))
  }

  function Run(t: Tables, trace: seq<Event>): Tables {
    if trace == [] then t else Apply(Run(t, trace[..|trace| - 1]), trace[|trace| - 1])
  }

  /** The repair of one payment. */
  function Reconcile(t: Tables, k: Key): Tables {
    if k in t.payments && Captured(t.payments[k].status) then
      var (p, refunds) := SettleAll(t.payments[k], t.refunds, k, t.refundOrder);
      t.(payments := t.payments[k := p], refunds := refunds)
    else t
  }

  function HeldCount(refunds: map<Key, Refund>, k: Key, order: seq<Key>): nat {
    if order == [] then 0
    else HeldCount(refunds, k, order[..|order| - 1]) + if Held(refunds, order[|order| - 1], k) then 1 else 0
  }

  /** How many held refunds the repair of one payment reports. */
  function Examined(t: Tables, k: Key): nat {
    if k in t.payments && Captured(t.payments[k].status) then HeldCount(t.refunds, k, t.refundOrder) else 0
  }

  /** The repair sweep over some payments, and the total it reports. */
  function Sweep(t: Tables, keys: seq<Key>): (Tables, nat) {
    if keys == [] then (t, 0)
    else
      var (u, n) := Sweep(t, keys[..|keys| - 1]);
      (Reconcile(u, keys[|keys| - 1]), n + Examined(u, keys[|keys| - 1]))
  }

  lemma {:induction false} SettleNothing(p: Payment, refunds: map<Key, Refund>, k: Key, order: seq<Key>)
    requires forall r :: r in order ==> !Held(refunds, r, k)
    ensures SettleAll(p, refunds, k, order) == (p, refunds)
    decreases |order|
  {
    if order != [] {
      SettleNothing(p, refunds, k, order[1..]);
    }
  }

  lemma {:induction false} NoneHeld(refunds: map<Key, Refund>, k: Key, order: seq<Key>)
    requires HeldCount(refunds, k, order) == 0
    ensures forall r :: r in order ==> !Held(refunds, r, k)
  {
    if order != [] {
      NoneHeld(refunds, k, order[..|order| - 1]);
      assert order == order[..|order| - 1] + [order[|order| - 1]];
    }
  }

  // ---------------------------------------------------------------- the tables

  class LedgerTables {
    var payments: map<Key, Payment>
    var refunds: map<Key, Refund>
    var refundOrder: seq<Key>
    var orders: map<Key, Order>

    ghost function Model(): Tables
      reads this
    {
      Tables(payments, refunds, refundOrder, orders)
    }

    constructor ()
      ensures Model() == EMPTY
    {
      payments, refunds, refundOrder, orders := map[], map[], [], map[];
    }

    method EnsurePayment(e: Event)
      modifies this`payments
      ensures payments == old(payments)[PaymentKey(e) := EnsuredPayment(old(payments), e)]
    {
      var k := PaymentKey(e);
      if k !in payments {
        payments := payments[k := Payment(e.orderRef, Or(e.paymentAmount, e.amount), 0, Created, e.occurredAt)];
      } else if e.orderRef != "" && payments[k].orderRef == "" {
        payments := payments[k := payments[k].(orderRef := e.orderRef)];
      }
      assert payments == old(payments)[k := EnsuredPayment(old(payments), e)];
    }

    method EnsureOrder(p: Payment, e: Event) returns (orderRef: string)
      modifies this`orders
      ensures orderRef == OrderRef(p, e)
      ensures orders == if orderRef == "" then old(orders)
                        else old(orders)[Key(e.scope, orderRef) := EnsuredOrder(old(orders), p, e)]
    {
      orderRef := if e.orderRef != "" then e.orderRef else p.orderRef;
      if orderRef == "" {
        return;
      }
      var k := Key(e.scope, orderRef);
      if k !in orders {
        orders := orders[k := Order(Or(e.orderAmount, p.amount), false, 0, None)];
      } else if orders[k].amount == 0 && p.amount != 0 {
        orders := orders[k := orders[k].(amount := p.amount)];
      }
      assert orders == old(orders)[k := EnsuredOrder(old(orders), p, e)];
    }

    method MarkOrderPaid(k: Key, p: Payment, e: Event)
      requires k in orders
      modifies this`orders
      ensures orders == old(orders)[k := if Captured(p.status) then PaidOrder(old(orders)[k], p, e) else old(orders)[k]]
    {
      if p.status != Success && p.status != Refunded {
        assert orders == orders[k := orders[k]];
        return;
      }
      var o := orders[k].(paid := true);
      if o.amountPaid < p.amount {
        o := o.(amountPaid := p.amount);
      }
      if o.paidAt == None {
        o := o.(paidAt := Some(e.occurredAt));
      }
      orders := orders[k := o];
    }

    method SettleRefund(k: Key, r: Key)
      requires k in payments && r in refunds
      modifies this`payments, this`refunds
      ensures payments == old(payments)[k := SettledPayment(old(payments)[k], old(refunds)[r])]
      ensures refunds == old(refunds)[r := SettledRow(old(payments)[k], old(refunds)[r])]
    {
      var p, row := payments[k], refunds[r];
      if p.refunded + row.amount > p.amount {
        refunds := refunds[r := row.(status := RRejected)];
        assert payments == payments[k := p];
        return;
      }
      p := p.(refunded := p.refunded + row.amount);
      refunds := refunds[r := row.(status := RProcessed)];
      if p.refunded == p.amount {
        p := p.(status := Refunded);
      }
      payments := payments[k := p];
    }

    /** The held refunds of one payment, oldest first. */
    method SettlePendingRefunds(k: Key)
      requires k in payments
      modifies this`payments, this`refunds
      ensures var (p, rs) := SettleAll(old(payments)[k], old(refunds), k, refundOrder);
        payments == old(payments)[k := p] && refunds == rs
    {
      ghost var (p, rs) := SettleAll(payments[k], refunds, k, refundOrder);
      assert payments == payments[k := payments[k]];
      for i := 0 to |refundOrder|
        invariant k in payments && payments == old(payments)[k := payments[k]]
        invariant SettleAll(payments[k], refunds, k, refundOrder[i..]) == (p, rs)
      {
        var r := refundOrder[i];
        assert refundOrder[i..][1..] == refundOrder[i + 1..];
        if r in refunds && refunds[r].payment == k && refunds[r].status == RPendingReconciliation {
          SettleRefund(k, r);
        }
      }
    }

    /** Writes the row of a refund event and reports whether it is still to be settled. */
    method RecordRefund(p: Payment, e: Event) returns (settle: bool)
      requires IsRefund(e.kind)
      modifies this`refunds, this`refundOrder
      ensures refundOrder == RefundOrderAfter(old(refunds), old(refundOrder), e)
      ensures var row := EnsuredRefund(old(refunds), e);
        && settle == Credits(p, row, e)
        && refunds == old(refunds)[RefundKey(e) := if settle then row else RefundRowAfter(p, row, e)]
    {
      var r, amount, st := RefundKey(e), RefundAmount(e), ProviderStatus(e);
      if r !in refunds {
        refunds := refunds[r := Refund(PaymentKey(e), amount, RCreated)];
        refundOrder := refundOrder + [r];
      } else if refunds[r].amount != amount {
        refunds := refunds[r := refunds[r].(status := RRejected)];
        return false;
      }
      var row := refunds[r];
      assert refunds == old(refunds)[r := row];
      if st == RFailed {
        row := row.(status := RFailed);
      } else if st !in {RProcessed, RCreated, RPending, RUpdated} {
        row := row.(status := st);
      } else if st != RProcessed {
        if row.status != RProcessed {
          row := row.(status := st);
        }
      } else if row.status == RProcessed {
        // Duplicate delivery: no second credit.
      } else if p.status != Success && p.status != Refunded {
        row := row.(status := RPendingReconciliation);
      } else {
        return true;
      }
      refunds := refunds[r := row];
      return false;
    }

    method ApplyRefund(k: Key, e: Event)
      requires k in payments && k == PaymentKey(e) && IsRefund(e.kind)
      modifies this`payments, this`refunds, this`refundOrder
      ensures var (q, rs) := MoneyAfter(old(refunds), old(refundOrder), old(payments)[k], e);
        payments == old(payments)[k := q] && refunds == rs
      ensures refundOrder == RefundOrderAfter(old(refunds), old(refundOrder), e)
    {
      ghost var row := EnsuredRefund(refunds, e);
      var settle := RecordRefund(payments[k], e);
      if settle {
        SettleRefund(k, RefundKey(e));
      }
      assert payments == old(payments)[k := RefundPaymentAfter(old(payments)[k], row, e)];
      assert refunds == old(refunds)[RefundKey(e) := RefundRowAfter(old(payments)[k], row, e)];
    }

    method ApplyMoney(k: Key, e: Event)
      requires k in payments && k == PaymentKey(e)
      modifies this`payments, this`refunds, this`refundOrder
      ensures var (q, rs) := MoneyAfter(old(refunds), old(refundOrder), old(payments)[k], e);
        payments == old(payments)[k := q] && refunds == rs
      ensures refundOrder == RefundOrderAfter(old(refunds), old(refundOrder), e)
    {
      if IsRefund(e.kind) {
        ApplyRefund(k, e);
      } else if e.kind == PaymentSuccess || e.kind == OrderPaid {
        SettlePendingRefunds(k);
      } else {
        assert payments == payments[k := payments[k]];
      }
    }

    method ApplyEvent(e: Event)
      modifies this
      ensures Model() == Apply(old(Model()), e)
    {
      var k := PaymentKey(e);
      EnsurePayment(e);
      var target := Target(e.kind);
      if target.Some? {
        if !CanTransition(payments[k], target.value, e.occurredAt) {
          return;
        }
        payments := payments[k := payments[k].(status := target.value)];
      }
      Materialize(e, old(Model()));
    }

    method Touch(k: Key, e: Event)
      requires k in payments
      modifies this`payments
      ensures payments == old(payments)[k := Touched(old(payments)[k], e)]
    {
      if payments[k].occurredAt < e.occurredAt {
        payments := payments[k := payments[k].(occurredAt := e.occurredAt)];
      }
      assert payments == old(payments)[k := Touched(old(payments)[k], e)];
    }

    /** The part of an event that follows the status change: order, refunds, settlement. */
    method Materialize(e: Event, ghost before: Tables)
      requires PaymentKey(e) in payments
      requires payments == before.payments[PaymentKey(e) := payments[PaymentKey(e)]]
      requires refunds == before.refunds && refundOrder == before.refundOrder && orders == before.orders
      modifies this
      ensures
        var p := old(payments)[PaymentKey(e)];
        var (q, rs) := MoneyAfter(before.refunds, before.refundOrder, p, e);
        && payments == before.payments[PaymentKey(e) := Touched(q, e)]
        && refunds == rs && refundOrder == RefundOrderAfter(before.refunds, before.refundOrder, e)
        && orders == OrdersAfter(before.orders, p, q, e)
    {
      var k := PaymentKey(e);
      ghost var p := payments[k];
      var orderRef := EnsureOrder(payments[k], e);
      ApplyMoney(k, e);
      ghost var q := payments[k];
      if (e.kind == PaymentSuccess || e.kind == OrderPaid) && orderRef != "" {
        MarkOrderPaid(Key(e.scope, orderRef), payments[k], e);
      }
      assert orders == OrdersAfter(before.orders, p, q, e);
      Touch(k, e);
      assert payments == before.payments[k := Touched(q, e)];
    }

    method CountPending(k: Key) returns (pending: nat)
      ensures pending == HeldCount(refunds, k, refundOrder)
    {
      pending := 0;
      for i := 0 to |refundOrder|
        invariant pending == HeldCount(refunds, k, refundOrder[..i])
      {
        var r := refundOrder[i];
        assert refundOrder[..i + 1][..i] == refundOrder[..i];
        if r in refunds && refunds[r].payment == k && refunds[r].status == RPendingReconciliation {
          pending := pending + 1;
        }
      }
      assert refundOrder[..|refundOrder|] == refundOrder;
    }

    method ReconcilePendingRefunds(k: Key) returns (pending: nat)
      modifies this`payments, this`refunds
      ensures Model() == Reconcile(old(Model()), k) && pending == Examined(old(Model()), k)
    {
      if k !in payments || (payments[k].status != Success && payments[k].status != Refunded) {
        return 0;
      }
      pending := CountPending(k);
      if pending == 0 {
        NoneHeld(refunds, k, refundOrder);
        SettleNothing(payments[k], refunds, k, refundOrder);
        assert payments == payments[k := payments[k]];
        return;
      }
      SettlePendingRefunds(k);
    }

    /** The repair sweep; `keys` are the captured payments the worker selects. */
    method ReconcileFinancialState(keys: seq<Key>) returns (held: nat)
      modifies this`payments, this`refunds
      ensures (Model(), held) == Sweep(old(Model()), keys)
    {
      held := 0;
      for i := 0 to |keys|
        invariant (Model(), held) == Sweep(old(Model()), keys[..i])
      {
        assert keys[..i + 1][..i] == keys[..i];
        var pending := ReconcilePendingRefunds(keys[i]);
        held := held + pending;
      }
      assert keys[..|keys|] == keys;
    }
  }
}
