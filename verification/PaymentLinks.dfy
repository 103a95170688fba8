/**
  The local provider's payment links of one merchant: issued against an order of their
  own, then partly paid, paid, cancelled or expired.

  Orders are keyed by receipt, links by their position. The random token of a generated
  reference or receipt is an input. Times are seconds.
 */
module PaymentLinks {
  import opened Common
  import opened Names

  const MIN_AMOUNT := 100
  const MAX_REFERENCE := 80
  const MIN_EXPIRY := 5
  const MAX_EXPIRY := 1440

  datatype Result<+T, +E> = Success(value: T) | Failure(error: E)

  datatype LinkStatus = Issued | PartiallyPaid | Paid | Cancelled | Expired

  datatype Link = Link(
    reference: string, receipt: string, execution: Option<nat>, group: string,
    amount: int, paid: int, status: LinkStatus, expiresAt: int)

  datatype LocalOrder = LocalOrder(amount: int, paid: bool)

  datatype Desk = Desk(links: seq<Link>, orders: map<string, LocalOrder>)

  datatype LocalError =
    | BadChannel | BadExpiry | BadReference | ReferenceTaken
    | AmountTooSmall | BadCurrency | ReceiptTooLong | ReceiptTaken
    | NoSuchLink | LinkClosed | LinkExpired | OrderAlreadyPaid | BadPartial

  datatype LinkRequest = LinkRequest(
    amount: int, reference: string, group: string, execution: Option<nat>, channel: string, expiresAfter: int)

  datatype LinkOutcome = PayInFull | PayPart(amount: int) | Expire | Cancel

  const NO_LINKS := Desk([], map[])

  predicate IsOpen(l: Link) {
    l.status == Issued || l.status == PartiallyPaid
  }

  // ---------------------------------------------------------------- issuing

  /** The refusals of an order asked for by hand. */
  function AskedRefusal(orders: map<string, LocalOrder>, amount: int, receipt: string, currency: string)
    : Option<LocalError>
  {
    if amount < MIN_AMOUNT then Some(AmountTooSmall)
    else if currency != "INR" then Some(BadCurrency)
    else OrderRefusal(orders, amount, receipt)
  }

  function OrderRefusal(orders: map<string, LocalOrder>, amount: int, receipt: string): Option<LocalError> {
    if amount < MIN_AMOUNT then Some(AmountTooSmall)
    else if |receipt| > MAX_REFERENCE then Some(ReceiptTooLong)
    else if receipt in orders && orders[receipt].amount != amount then Some(ReceiptTaken)
    else None
  }

  function OrdersWith(orders: map<string, LocalOrder>, amount: int, receipt: string): map<string, LocalOrder> {
    if receipt in orders then orders else orders[receipt := LocalOrder(amount, false)]
  }

  /** The order receipt of a link, cut to what a receipt may hold and then stripped again. */
  function Receipt(reference: string): (receipt: string)
    ensures |receipt| <= MAX_REFERENCE
  {
    Stripped(Cut(reference))
  }

  function Cut(reference: string): (receipt: string)
    ensures 0 < |receipt| <= MAX_REFERENCE && receipt[0] == 'p'
  {
    var whole := "plink-" + reference;
    if |whole| <= MAX_REFERENCE then whole else whole[..MAX_REFERENCE]
  }

  /** A link's receipt is passed on as given, and names its order unchanged. */
  lemma ReceiptIsNamed(reference: string, token: string)
    ensures NameOr(Cut(reference), "ptw-", token) == Receipt(reference)
  {}

  lemma ReceiptKept(reference: string)
    requires reference != "" && NoBlankEnds(reference) && |reference| <= MAX_REFERENCE - 6
    ensures Receipt(reference) == "plink-" + reference
  {
    var whole := "plink-" + reference;
    assert whole[|whole| - 1] == reference[|reference| - 1];
  }

  predicate HasReference(links: seq<Link>, reference: string) {
    exists i :: 0 <= i < |links| && links[i].reference == reference
  }

  function Find(links: seq<Link>, reference: string): (i: nat)
    requires HasReference(links, reference)
    ensures i < |links| && links[i].reference == reference
    ensures forall j :: 0 <= j < i ==> links[j].reference != reference
  {
    if links[0].reference == reference then 0 else 1 + Find(links[1..], reference)
  }

  function RequestRefusal(r: LinkRequest): Option<LocalError> {
    if r.channel !in {"whatsapp", "sms", "email"} then Some(BadChannel)
    else if !(MIN_EXPIRY <= r.expiresAfter <= MAX_EXPIRY) then Some(BadExpiry)
    else if r.reference == "" || |r.reference| > MAX_REFERENCE then Some(BadReference)
    else None
  }

  function NewLink(r: LinkRequest, now: int): Link {
    Link(r.reference, Receipt(r.reference), r.execution, r.group, r.amount, 0, Issued, now + 60 * r.expiresAfter)
  }

  function Named(asked: LinkRequest, token: string): LinkRequest {
    asked.(reference := NameOr(asked.reference, "recovery-", token))
  }

  /** A reference in use returns its link unchanged; a new one issues a link on its own order. */
  function CreateLink(d: Desk, r: LinkRequest, now: int): Result<Desk, LocalError> {
    if RequestRefusal(r).Some? then Failure(RequestRefusal(r).value)
    else if HasReference(d.links, r.reference) then
      if d.links[Find(d.links, r.reference)].amount != r.amount then Failure(ReferenceTaken) else Success(d)
    else
      match OrderRefusal(d.orders, r.amount, Receipt(r.reference))
      case Some(e) => Failure(e)
      case None => Success(Desk(d.links + [NewLink(r, now)], OrdersWith(d.orders, r.amount, Receipt(r.reference))))
  }

  // ---------------------------------------------------------------- outcomes

  function OutcomeRefusal(d: Desk, i: nat, o: LinkOutcome, now: int): Option<LocalError> {
    if i >= |d.links| then Some(NoSuchLink)
    else
      var l := d.links[i];
      if !IsOpen(l) then Some(LinkClosed)
      else if l.expiresAt < now && !o.Expire? && !o.Cancel? then Some(LinkExpired)
      else if o.PayInFull? && l.receipt in d.orders && d.orders[l.receipt].paid then Some(OrderAlreadyPaid)
      else if o.PayPart? && !(1 <= o.amount < l.amount) then Some(BadPartial)
      else None
  }

  function LinkAfter(l: Link, o: LinkOutcome): Link {
    match o
    case PayInFull => l.(status := Paid, paid := l.amount)
    case PayPart(amount) => l.(status := PartiallyPaid, paid := if l.paid < amount then amount else l.paid)
    case Expire => l.(status := Expired)
    case Cancel => l.(status := Cancelled)
  }

  /** Paying a link in full pays its order. */
  function OrderPaid(orders: map<string, LocalOrder>, receipt: string): map<string, LocalOrder> {
    if receipt in orders then orders[receipt := orders[receipt].(paid := true)] else orders
  }

  function Simulate(d: Desk, i: nat, o: LinkOutcome, now: int): Result<Desk, LocalError> {
    match OutcomeRefusal(d, i, o, now)
    case Some(e) => Failure(e)
    case None =>
      if i >= |d.links| then Failure(NoSuchLink)
      else
        var orders := if o.PayInFull? then OrderPaid(d.orders, d.links[i].receipt) else d.orders;
        Success(Desk(d.links[i := LinkAfter(d.links[i], o)], orders))
  }

  function CancelledIf(l: Link, execution: nat): Link {
    if l.execution == Some(execution) && IsOpen(l) then l.(status := Cancelled) else l
  }

  function CancelOpen(links: seq<Link>, execution: nat): (after: seq<Link>)
    ensures |after| == |links|
    ensures forall i :: 0 <= i < |links| ==> after[i] == CancelledIf(links[i], execution)
  {
    seq(|links|, i requires 0 <= i < |links| => CancelledIf(links[i], execution))
  }

  function CountOpen(links: seq<Link>, execution: nat): nat {
    if links == [] then 0
    else
      var l := links[|links| - 1];
      CountOpen(links[..|links| - 1], execution) + if l.execution == Some(execution) && IsOpen(l) then 1 else 0
  }

  // ---------------------------------------------------------------- the tables

  class LinkDesk {
    var links: seq<Link>
    var orders: map<string, LocalOrder>

    ghost function Model(): Desk
      reads this
    {
      Desk(links, orders)
    }

    constructor ()
      ensures Model() == NO_LINKS
    {
      links, orders := [], map[];
    }

    /** An empty receipt stands for none given. */
    method CreateOrder(amount: int, given: string, currency: string, token: string)
      returns (refusal: Option<LocalError>)
      modifies this`orders
      ensures refusal == AskedRefusal(old(orders), amount, NameOr(given, "ptw-", token), currency)
      ensures orders == if refusal == None then OrdersWith(old(orders), amount, NameOr(given, "ptw-", token))
                        else old(orders)
    {
      if amount < MIN_AMOUNT {
        return Some(AmountTooSmall);
      }
      if currency != "INR" {
        return Some(BadCurrency);
      }
      var receipt := NameOr(given, "ptw-", token);
      if |receipt| > MAX_REFERENCE {
        return Some(ReceiptTooLong);
      }
      if receipt in orders {
        return if orders[receipt].amount != amount then Some(ReceiptTaken) else None;
      }
      orders := orders[receipt := LocalOrder(amount, false)];
      return None;
    }

    method FindReference(reference: string) returns (i: Option<nat>)
      ensures i.Some? <==> HasReference(links, reference)
      ensures i.Some? ==> i.value == Find(links, reference)
    {
      for k := 0 to |links|
        invariant forall j :: 0 <= j < k ==> links[j].reference != reference
      {
        if links[k].reference == reference {
          return Some(k);
        }
      }
      return None;
    }

    method IssueLink(r: LinkRequest, now: int) returns (result: Result<nat, LocalError>)
      modifies this
      ensures match CreateLink(old(Model()), r, now)
        case Failure(e) => result == Failure(e) && Model() == old(Model())
        case Success(d) =>
          Model() == d && result.Success? && result.value < |links| && links[result.value].reference == r.reference
    {
      if r.channel !in {"whatsapp", "sms", "email"} {
        return Failure(BadChannel);
      }
      if r.expiresAfter < MIN_EXPIRY || r.expiresAfter > MAX_EXPIRY {
        return Failure(BadExpiry);
      }
      if r.reference == "" || |r.reference| > MAX_REFERENCE {
        return Failure(BadReference);
      }
      var existing := FindReference(r.reference);
      if existing.Some? {
        if links[existing.value].amount != r.amount {
          return Failure(ReferenceTaken);
        }
        return Success(existing.value);
      }
      ReceiptIsNamed(r.reference, "");
      var refusal := CreateOrder(r.amount, Cut(r.reference), "INR", "");
      if refusal.Some? {
        return Failure(refusal.value);
      }
      links := links + [NewLink(r, now)];
      return Success(|links| - 1);
    }

    /** An empty reference stands for none given. */
    method CreatePaymentLink(asked: LinkRequest, token: string, now: int) returns (result: Result<nat, LocalError>)
      modifies this
      ensures var r := Named(asked, token);
        match CreateLink(old(Model()), r, now)
        case Failure(e) => result == Failure(e) && Model() == old(Model())
        case Success(d) =>
          Model() == d && result.Success? && result.value < |links| && links[result.value].reference == r.reference
    {
      result := IssueLink(asked.(reference := NameOr(asked.reference, "recovery-", token)), now);
    }

    method SimulateOutcome(i: nat, o: LinkOutcome, now: int) returns (refusal: Option<LocalError>)
      modifies this
      ensures match Simulate(old(Model()), i, o, now)
        case Failure(e) => refusal == Some(e) && Model() == old(Model())
        case Success(d) => refusal == None && Model() == d
    {
      if i >= |links| {
        return Some(NoSuchLink);
      }
      var l := links[i];
      if l.status in {Paid, Cancelled, Expired} {
        return Some(LinkClosed);
      }
      if l.expiresAt < now && !o.Expire? && !o.Cancel? {
        return Some(LinkExpired);
      }
      match o {
        case PayInFull =>
          if l.receipt in orders {
            if orders[l.receipt].paid {
              return Some(OrderAlreadyPaid);
            }
            orders := orders[l.receipt := orders[l.receipt].(paid := true)];
          }
          l := l.(paid := l.amount, status := Paid);
        case PayPart(amount) =>
          if amount < 1 || amount >= l.amount {
            return Some(BadPartial);
          }
          l := l.(paid := if l.paid < amount then amount else l.paid, status := PartiallyPaid);
        case Expire =>
          l := l.(status := Expired);
        case Cancel =>
          l := l.(status := Cancelled);
      }
      links := links[i := l];
      return None;
    }

    method CancelOpenLinks(execution: nat) returns (cancelled: nat)
      modifies this`links
      ensures links == CancelOpen(old(links), execution)
      ensures cancelled == CountOpen(old(links), execution)
    {
      cancelled := 0;
      for i := 0 to |links|
        invariant |links| == |old(links)| && cancelled == CountOpen(old(links)[..i], execution)
        invariant forall j :: 0 <= j < |links| ==>
                    links[j] == if j < i then CancelledIf(old(links)[j], execution) else old(links)[j]
      {
        assert old(links)[..i + 1][..i] == old(links)[..i];
        if links[i].execution == Some(execution) && (links[i].status == Issued || links[i].status == PartiallyPaid) {
          links := links[i := links[i].(status := Cancelled)];
          cancelled := cancelled + 1;
        }
      }
      assert old(links)[..|links|] == old(links);
    }
  }

  // ---------------------------------------------------------------- the life of a link

  predicate LinkSound(l: Link, orders: map<string, LocalOrder>) {
    && l.amount >= MIN_AMOUNT
    && l.receipt in orders && orders[l.receipt].amount == l.amount
    && (match l.status
        case Issued => l.paid == 0
        case PartiallyPaid => 1 <= l.paid < l.amount
        case Paid => l.paid == l.amount && orders[l.receipt].paid
        case _ => 0 <= l.paid < l.amount)
  }

  /** References are unique, every link is sound, and no order is paid through two links. */
  ghost predicate Sound(d: Desk) {
    && (forall i :: 0 <= i < |d.links| ==> LinkSound(d.links[i], d.orders))
    && (forall i, j :: 0 <= i < j < |d.links| ==> d.links[i].reference != d.links[j].reference)
    && (forall i, j :: 0 <= i < j < |d.links| && d.links[i].status == Paid == d.links[j].status ==>
          d.links[i].receipt != d.links[j].receipt)
  }

  /** A link keeps what it was issued for; its payments only grow, and once closed it never changes. */
  predicate LinkForward(l: Link, m: Link) {
    && m.reference == l.reference && m.receipt == l.receipt && m.execution == l.execution
    && m.group == l.group && m.amount == l.amount && m.paid >= l.paid
    && (!IsOpen(l) ==> m == l)
    && (l.status == PartiallyPaid ==> m.status != Issued)
  }

  ghost predicate Forward(d: Desk, e: Desk) {
    |d.links| <= |e.links| && forall i :: 0 <= i < |d.links| ==> LinkForward(d.links[i], e.links[i])
  }

  lemma CreateSound(d: Desk, r: LinkRequest, now: int)
    requires Sound(d) && CreateLink(d, r, now).Success?
    ensures Sound(CreateLink(d, r, now).value) && Forward(d, CreateLink(d, r, now).value)
  {}

  lemma SimulateSound(d: Desk, i: nat, o: LinkOutcome, now: int)
    requires Sound(d) && Simulate(d, i, o, now).Success?
    ensures Sound(Simulate(d, i, o, now).value) && Forward(d, Simulate(d, i, o, now).value)
  {
    var l, e := d.links[i], Simulate(d, i, o, now).value;
    assert LinkSound(l, d.orders);
    assert LinkSound(LinkAfter(l, o), e.orders) && LinkForward(l, LinkAfter(l, o));
  }

  lemma CancelSound(d: Desk, execution: nat)
    requires Sound(d)
    ensures Sound(d.(links := CancelOpen(d.links, execution)))
      && Forward(d, d.(links := CancelOpen(d.links, execution)))
  {}
}
