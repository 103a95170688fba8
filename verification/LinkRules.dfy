/**
  Each answer of the local link desk, by the fields of the request, the link and its order:
  when it refuses and why, and what it leaves when it does not.
 */
module LinkRules {
  import opened Common
  import opened PaymentLinks

  // ---------------------------------------------------------------- outcomes

  predicate OrderPaidBefore(d: Desk, receipt: string) {
    receipt in d.orders && d.orders[receipt].paid
  }

  /** A payment comes after the link's expiry; expiring and cancelling never do. */
  predicate TooLate(l: Link, o: LinkOutcome, now: int) {
    (o.PayInFull? || o.PayPart?) && now > l.expiresAt
  }

  /** Why an outcome is refused, if it is; none if it goes through. */
  ghost predicate RefusedFor(d: Desk, i: nat, o: LinkOutcome, now: int, e: Option<LocalError>) {
    var known := i < |d.links|;
    var open := known && d.links[i].status in {Issued, PartiallyPaid};
    var late := open && TooLate(d.links[i], o, now);
    var again := open && !late && o.PayInFull? && OrderPaidBefore(d, d.links[i].receipt);
    var bad := open && !late && o.PayPart? && (o.amount < 1 || o.amount >= d.links[i].amount);
    && (e == Some(NoSuchLink) <==> !known)
    && (e == Some(LinkClosed) <==> known && d.links[i].status in {Paid, Cancelled, Expired})
    && (e == Some(LinkExpired) <==> late)
    && (e == Some(OrderAlreadyPaid) <==> again)
    && (e == Some(BadPartial) <==> bad)
    && (e == None <==> open && !late && !again && !bad)
  }

  /** The status and payment an outcome leaves on a link. */
  predicate Moved(l: Link, m: Link, o: LinkOutcome) {
    match o
    case PayInFull => m == l.(status := Paid, paid := l.amount)
    case PayPart(amount) => m == l.(status := PartiallyPaid, paid := m.paid) && m.paid in {l.paid, amount} &&
      m.paid >= l.paid && m.paid >= amount
    case Expire => m == l.(status := LinkStatus.Expired)
    case Cancel => m == l.(status := Cancelled)
  }

  /** Only link `i` moves, and only a full payment pays its order. */
  ghost predicate OnlyLinkMoves(d: Desk, e: Desk, i: nat, o: LinkOutcome) {
    && i < |d.links| == |e.links| && Moved(d.links[i], e.links[i], o)
    && (forall j :: 0 <= j < |d.links| && j != i ==> e.links[j] == d.links[j])
    && e.orders.Keys == d.orders.Keys
    && forall r :: r in d.orders ==>
         && e.orders[r].amount == d.orders[r].amount
         && (e.orders[r].paid <==> d.orders[r].paid || (o.PayInFull? && r == d.links[i].receipt))
  }

  lemma OutcomeExactly(d: Desk, i: nat, o: LinkOutcome, now: int)
    ensures var r := Simulate(d, i, o, now);
      && RefusedFor(d, i, o, now, if r.Failure? then Some(r.error) else None)
      && (r.Success? ==> OnlyLinkMoves(d, r.value, i, o))
  {
    if i < |d.links| {
      match d.links[i].status
      case Issued => case PartiallyPaid => case Paid => case Cancelled => case Expired =>
    }
  }

  // ---------------------------------------------------------------- orders

  /** Why an order of one's own is refused, if it is. */
  predicate OrderRefusedFor(
    orders: map<string, LocalOrder>, amount: int, receipt: string, currency: string, e: Option<LocalError>)
  {
    var small, foreign, long := amount < 100, currency != "INR", |receipt| > 80;
    var taken := receipt in orders && orders[receipt].amount != amount;
    && (e == Some(AmountTooSmall) <==> small)
    && (e == Some(BadCurrency) <==> !small && foreign)
    && (e == Some(ReceiptTooLong) <==> !small && !foreign && long)
    && (e == Some(ReceiptTaken) <==> !small && !foreign && !long && taken)
    && (e == None <==> !small && !foreign && !long && !taken)
  }

  lemma OrderExactly(orders: map<string, LocalOrder>, amount: int, receipt: string, currency: string)
    ensures OrderRefusedFor(orders, amount, receipt, currency, AskedRefusal(orders, amount, receipt, currency))
    ensures var after := OrdersWith(orders, amount, receipt);
      && (forall r :: r in orders ==> r in after && after[r] == orders[r])
      && receipt in after && after.Keys == orders.Keys + {receipt}
      && (receipt !in orders ==> after[receipt] == LocalOrder(amount, false))
  {}

  // ---------------------------------------------------------------- issuing

  /** The first link of a reference, if it has one. */
  predicate FirstOf(links: seq<Link>, i: nat, reference: string) {
    i < |links| && links[i].reference == reference && forall j :: 0 <= j < i ==> links[j].reference != reference
  }

  ghost predicate Bears(links: seq<Link>, reference: string) {
    exists i: nat :: FirstOf(links, i, reference)
  }

  /** Some first link of the reference asks another amount. */
  ghost predicate BearsOther(links: seq<Link>, reference: string, amount: int) {
    exists i: nat :: FirstOf(links, i, reference) && links[i].amount != amount
  }

  /** Why a link is refused, if it is. */
  ghost predicate LinkRefusedFor(d: Desk, r: LinkRequest, e: Option<LocalError>) {
    var channel := r.channel in {"whatsapp", "sms", "email"};
    var expiry := channel && 5 <= r.expiresAfter <= 1440;
    var named := expiry && 1 <= |r.reference| <= 80;
    var known := Bears(d.links, r.reference);
    var receipt := Receipt(r.reference);
    var large := named && !known && r.amount >= 100;
    var clash := large && receipt in d.orders && d.orders[receipt].amount != r.amount;
    && (e == Some(BadChannel) <==> !channel)
    && (e == Some(BadExpiry) <==> channel && !expiry)
    && (e == Some(BadReference) <==> expiry && !named)
    && (e == Some(ReferenceTaken) <==> named && BearsOther(d.links, r.reference, r.amount))
    && (e == Some(AmountTooSmall) <==> named && !known && !large)
    && (e == Some(ReceiptTaken) <==> clash)
    && (e == None <==> (named && known && !BearsOther(d.links, r.reference, r.amount)) || (large && !clash))
  }

  /** A new reference issues an unpaid link that expires as asked, on an order of its receipt. */
  ghost predicate Issues(d: Desk, e: Desk, r: LinkRequest, now: int) {
    var receipt := Receipt(r.reference);
    if Bears(d.links, r.reference) then e == d
    else
      && e.links == d.links + [
           Link(r.reference, receipt, r.execution, r.group, r.amount, 0, Issued, now + 60 * r.expiresAfter)]
      && e.orders == if receipt in d.orders then d.orders else d.orders[receipt := LocalOrder(r.amount, false)]
  }

  lemma BearsExactly(links: seq<Link>, reference: string, amount: int)
    ensures Bears(links, reference) <==> HasReference(links, reference)
    ensures BearsOther(links, reference, amount) <==>
      HasReference(links, reference) && links[Find(links, reference)].amount != amount
  {
    if HasReference(links, reference) {
      var first := Find(links, reference);
      assert FirstOf(links, first, reference);
      forall i: nat | FirstOf(links, i, reference) ensures i == first {
        assert i < first || i == first || first < i;
      }
    }
  }

  lemma IssueExactly(d: Desk, r: LinkRequest, now: int)
    ensures var made := CreateLink(d, r, now);
      && LinkRefusedFor(d, r, if made.Failure? then Some(made.error) else None)
      && (made.Success? ==> Issues(d, made.value, r, now))
  {
    hide HasReference, Receipt, Bears, BearsOther;
    BearsExactly(d.links, r.reference, r.amount);
  }

  // ---------------------------------------------------------------- cancelling

  function OpenOf(links: seq<Link>, execution: nat): set<nat> {
    set j: nat | j < |links| && links[j].execution == Some(execution) && links[j].status in {Issued, PartiallyPaid}
  }

  /** Cancelling closes exactly the open links of the execution and counts them. */
  lemma CancelExactly(links: seq<Link>, execution: nat)
    ensures var after := CancelOpen(links, execution);
      && |after| == |links| && CountOpen(links, execution) == |OpenOf(links, execution)|
      && forall j :: 0 <= j < |links| ==>
           after[j] == if j in OpenOf(links, execution) then links[j].(status := Cancelled) else links[j]
  {
    CountExactly(links, execution);
  }

  lemma {:induction false} CountExactly(links: seq<Link>, execution: nat)
    ensures CountOpen(links, execution) == |OpenOf(links, execution)|
  {
    if links != [] {
      var n := |links| - 1;
      CountExactly(links[..n], execution);
      var open := links[n].execution == Some(execution) && links[n].status in {Issued, PartiallyPaid};
      var before, after := OpenOf(links[..n], execution), OpenOf(links, execution);
      forall j ensures j in after <==> j in before || (open && j == n) {}
      assert after == before + if open then {n} else {};
    }
  }
}
