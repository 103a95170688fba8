/**
  Inbox and ledger together: however the deliveries of a payment's case are ordered,
  repeated and interleaved with worker passes, and whichever of them fail, once the queue
  is drained the payment and its refunds end the same if the worker was left the case.
 */
module EndToEnd {
  import opened Ledger
  import opened InboxDeferred
  import C = LedgerConfluence

  /** What the worker is left: the deliveries that come first of their key and do not raise. */
  lemma TakenAre(trace: seq<Turn>, e: Event)
    ensures e in Taken(trace) <==> CameFirst(Arrivals(trace), Arrival(e, false))
  {
    InPassing(Firsts(Arrivals(trace)), e);
    InFirsts(Arrivals(trace), Arrival(e, false));
  }

  lemma EmptyCase(c: C.Case, events: seq<Event>)
    requires C.Delivers(c, events) && C.Total(c.refunds, c.refunds.Keys) <= c.principal
    ensures C.EndsIn(c, Run(EMPTY, events))
  {
    C.Settled(c, EMPTY, events);
  }

  /** The payment and its refunds after the worker has been left a case and has drained the queue. */
  lemma CaseEnds(c: C.Case, trace: seq<Turn>)
    requires Drained(Deferred(trace)) && C.Delivers(c, Taken(trace))
    requires C.Total(c.refunds, c.refunds.Keys) <= c.principal
    ensures C.EndsIn(c, Deferred(trace).ledger)
  {
    DrainedAppliedTaken(trace);
    BothReflect(trace);
    EmptyCase(c, Taken(trace));
  }

  /** Any two ways of delivering and working off one case leave payment and refunds the same. */
  lemma EndToEndConfluence(c: C.Case, a: seq<Turn>, b: seq<Turn>)
    requires Drained(Deferred(a)) && C.Delivers(c, Taken(a))
    requires Drained(Deferred(b)) && C.Delivers(c, Taken(b))
    requires C.Total(c.refunds, c.refunds.Keys) <= c.principal
    ensures var s, t := Deferred(a).ledger, Deferred(b).ledger;
      && c.payment in s.payments && c.payment in t.payments
      && s.payments[c.payment].status == t.payments[c.payment].status
      && s.payments[c.payment].refunded == t.payments[c.payment].refunded
      && forall r :: r in c.refunds ==> r in s.refunds && r in t.refunds && s.refunds[r] == t.refunds[r]
  {
    CaseEnds(c, a);
    CaseEnds(c, b);
  }
}
