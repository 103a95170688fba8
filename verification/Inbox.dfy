/**
  The durable inbox. An authenticated delivery is accepted once per (organization,
  provider, external id), acknowledged, and materialised later by a worker into the
  canonical log, the ledger and the outbox; `Ingest` does both in one transaction.

  Every operation is one transaction. `raises` tells whether applying the event raises,
  which rolls the transaction back. Times are microseconds.
 */
module Inbox {
  import opened Common
  import opened Ledger

  const LATE_AFTER := 60_000_000
  const BATCH_MAX := 1000

  datatype DeliveryKey = DeliveryKey(organization: string, provider: string, externalId: string)

  datatype RowStatus = Received | Processed | Duplicate | Dead

  /** `envelope` is absent when the stored one cannot be read back. */
  datatype InboxRow = InboxRow(key: DeliveryKey, status: RowStatus, envelope: Option<Event>)

  datatype LogRow = LogRow(event: Event, late: bool)

  datatype Notice = Notice(event: Event, late: bool, status: PaymentStatus)

  /** Inbox rows in the order they were received, canonical log and outbox in insertion order. */
  datatype State = State(inbox: seq<InboxRow>, log: seq<LogRow>, ledger: Tables, outbox: seq<Notice>)

  datatype Outcome = NotFound | AlreadyDone | InvalidEnvelope | Collision | Raised | Applied(late: bool)

  const START := State([], [], EMPTY, [])

  function KeyOf(e: Event): DeliveryKey {
    DeliveryKey(e.scope.organization, e.scope.provider, e.externalId)
  }

  // ---------------------------------------------------------------- accepting

  predicate Known(inbox: seq<InboxRow>, key: DeliveryKey) {
    exists i :: 0 <= i < |inbox| && inbox[i].key == key
  }

  /** The row of a known key. */
  function Find(inbox: seq<InboxRow>, key: DeliveryKey): (i: nat)
    requires Known(inbox, key)
    ensures i < |inbox| && inbox[i].key == key
    ensures forall j :: 0 <= j < i ==> inbox[j].key != key
  {
    if inbox[0].key == key then 0 else 1 + Find(inbox[1..], key)
  }

  /** A redelivery marks a processed row as a duplicate and touches no other. */
  function AcceptedInbox(inbox: seq<InboxRow>, e: Event): seq<InboxRow> {
    if !Known(inbox, KeyOf(e)) then inbox + [InboxRow(KeyOf(e), Received, Some(e))]
    else
      var i := Find(inbox, KeyOf(e));
      if inbox[i].status == Processed then inbox[i := inbox[i].(status := Duplicate)] else inbox
  }

  // ---------------------------------------------------------------- materialising

  predicate Logged(log: seq<LogRow>, key: DeliveryKey) {
    exists i :: 0 <= i < |log| && KeyOf(log[i].event) == key
  }

  /** The latest occurrence the log holds for a merchant. */
  function LastSeen(log: seq<LogRow>, merchant: string): Option<int> {
    if log == [] then None
    else
      var seen, last := LastSeen(log[..|log| - 1], merchant), log[|log| - 1].event;
      if last.scope.merchant == merchant && (seen.None? || seen.value < last.occurredAt) then Some(last.occurredAt)
      else seen
  }

  predicate IsLate(log: seq<LogRow>, e: Event) {
    var last := LastSeen(log, e.scope.merchant);
    last.Some? && e.occurredAt < last.value - LATE_AFTER
  }

  function OutcomeOf(s: State, i: nat, raises: bool): Outcome {
    if i >= |s.inbox| then NotFound
    else if s.inbox[i].status in {Processed, Duplicate} then AlreadyDone
    else match s.inbox[i].envelope
      case None => InvalidEnvelope
      case Some(e) =>
        if Logged(s.log, KeyOf(e)) then Collision
        else if raises then Raised
        else Applied(IsLate(s.log, e))
  }

  function Applying(s: State, i: nat): State
    requires i < |s.inbox| && s.inbox[i].envelope.Some?
  {
    var e := s.inbox[i].envelope.value;
    var late, ledger := IsLate(s.log, e), Apply(s.ledger, e);
    State(s.inbox[i := s.inbox[i].(status := Processed)], s.log + [LogRow(e, late)], ledger,
      s.outbox + [Notice(e, late, ledger.payments[PaymentKey(e)].status)])
  }

  function Mark(s: State, i: nat, status: RowStatus): State
    requires i < |s.inbox|
  {
    s.(inbox := s.inbox[i := s.inbox[i].(status := status)])
  }

  function Materialized(s: State, i: nat, raises: bool): State {
    match OutcomeOf(s, i, raises)
    case Applied(_) => Applying(s, i)
    case InvalidEnvelope => Mark(s, i, Dead)
    case Collision => Mark(s, i, Processed)
    case _ => s
  }

  /** One item of a worker batch: a raised failure is rolled back and the row set aside. */
  function Worked(s: State, i: nat, raises: bool): State {
    if OutcomeOf(s, i, raises) == Raised && i < |s.inbox| then Mark(s, i, Dead) else Materialized(s, i, raises)
  }

  // ---------------------------------------------------------------- batches

  /** Positions of the received rows, oldest first. */
  function Pending(inbox: seq<InboxRow>): (ids: seq<nat>)
    ensures forall i :: i in ids <==> 0 <= i < |inbox| && inbox[i].status == Received
  {
    if inbox == [] then []
    else
      var n := |inbox| - 1;
      Pending(inbox[..n]) + if inbox[n].status == Received then [n] else []
  }

  function BatchSize(limit: int): nat {
    if limit < 1 then 1 else if limit > BATCH_MAX then BATCH_MAX else limit
  }

  function Selected(inbox: seq<InboxRow>, limit: int): seq<nat> {
    var ids := Pending(inbox);
    if |ids| <= BatchSize(limit) then ids else ids[..BatchSize(limit)]
  }

  function WorkedAll(s: State, ids: seq<nat>, raises: set<nat>): State {
    if ids == [] then s
    else
      var n := |ids| - 1;
      Worked(WorkedAll(s, ids[..n], raises), ids[n], ids[n] in raises)
  }

  predicate Succeeds(r: Outcome) {
    r !in {NotFound, InvalidEnvelope, Raised}
  }

  function Successes(s: State, ids: seq<nat>, raises: set<nat>): nat {
    if ids == [] then 0
    else
      var n := |ids| - 1;
      var r := OutcomeOf(WorkedAll(s, ids[..n], raises), ids[n], ids[n] in raises);
      Successes(s, ids[..n], raises) + if Succeeds(r) then 1 else 0
  }

  /** One worker pass; `raises` are the rows whose event raises. */
  function Batch(s: State, limit: int, raises: set<nat>): State {
    WorkedAll(s, Selected(s.inbox, limit), raises)
  }

  // ---------------------------------------------------------------- the synchronous path

  /** Accept and materialise in one transaction: if applying raises, nothing is kept. */
  function Ingested(s: State, e: Event, raises: bool): State {
    var accepted := s.(inbox := AcceptedInbox(s.inbox, e));
    if Known(s.inbox, KeyOf(e)) then accepted
    else if OutcomeOf(accepted, |s.inbox|, raises) == Raised then s
    else Materialized(accepted, |s.inbox|, raises)
  }

  // ---------------------------------------------------------------- the tables

  class InboxTables {
    const ledger: LedgerTables
    var inbox: seq<InboxRow>
    var log: seq<LogRow>
    var outbox: seq<Notice>

    ghost function Model(): State
      reads this, ledger
    {
      State(inbox, log, ledger.Model(), outbox)
    }

    constructor (ledger: LedgerTables)
      ensures this.ledger == ledger && inbox == [] && log == [] && outbox == []
    {
      this.ledger := ledger;
      inbox, log, outbox := [], [], [];
    }

    method FindRow(key: DeliveryKey) returns (row: Option<nat>)
      ensures row.Some? <==> Known(inbox, key)
      ensures row.Some? ==> row.value == Find(inbox, key)
    {
      for i := 0 to |inbox|
        invariant forall j :: 0 <= j < i ==> inbox[j].key != key
      {
        if inbox[i].key == key {
          return Some(i);
        }
      }
      return None;
    }

    /** Returns the new row's position, or none for a duplicate. */
    method AcceptWebhook(e: Event) returns (row: Option<nat>)
      modifies this`inbox
      ensures inbox == AcceptedInbox(old(inbox), e)
      ensures row == if Known(old(inbox), KeyOf(e)) then None else Some(|old(inbox)|)
    {
      var existing := FindRow(KeyOf(e));
      if existing.Some? {
        var i := existing.value;
        if inbox[i].status == Processed {
          inbox := inbox[i := inbox[i].(status := Duplicate)];
        }
        return None;
      }
      inbox := inbox + [InboxRow(KeyOf(e), Received, Some(e))];
      return Some(|inbox| - 1);
    }

    method CheckLate(e: Event) returns (late: bool)
      ensures late == IsLate(log, e)
    {
      var last: Option<int> := None;
      for i := 0 to |log|
        invariant last == LastSeen(log[..i], e.scope.merchant)
      {
        assert log[..i + 1][..i] == log[..i];
        if log[i].event.scope.merchant == e.scope.merchant && (last.None? || last.value < log[i].event.occurredAt) {
          last := Some(log[i].event.occurredAt);
        }
      }
      assert log[..|log|] == log;
      return last.Some? && e.occurredAt < last.value - LATE_AFTER;
    }

    /** A raised failure leaves the tables as they were: the caller rolls back. */
    method MaterializeInbox(i: nat, raises: bool) returns (r: Outcome)
      modifies this, ledger
      ensures r == OutcomeOf(old(Model()), i, raises)
      ensures Model() == Materialized(old(Model()), i, raises)
    {
      if i >= |inbox| {
        return NotFound;
      }
      if inbox[i].status == Processed || inbox[i].status == Duplicate {
        return AlreadyDone;
      }
      if inbox[i].envelope.None? {
        inbox := inbox[i := inbox[i].(status := Dead)];
        return InvalidEnvelope;
      }
      var e := inbox[i].envelope.value;
      if exists j :: 0 <= j < |log| && KeyOf(log[j].event) == KeyOf(e) {
        inbox := inbox[i := inbox[i].(status := Processed)];
        return Collision;
      }
      if raises {
        return Raised;
      }
      var late := CheckLate(e);
      log := log + [LogRow(e, late)];
      ledger.ApplyEvent(e);
      inbox := inbox[i := inbox[i].(status := Processed)];
      outbox := outbox + [Notice(e, late, ledger.payments[PaymentKey(e)].status)];
      return Applied(late);
    }

    method WorkOne(i: nat, raises: bool) returns (r: Outcome)
      modifies this, ledger
      ensures r == OutcomeOf(old(Model()), i, raises)
      ensures Model() == Worked(old(Model()), i, raises)
    {
      r := MaterializeInbox(i, raises);
      if r == Raised && i < |inbox| {
        inbox := inbox[i := inbox[i].(status := Dead)];
      }
    }

    method SelectPending(limit: int) returns (ids: seq<nat>)
      ensures ids == Selected(inbox, limit)
    {
      ids := [];
      for i := 0 to |inbox|
        invariant ids == Pending(inbox[..i])
      {
        assert inbox[..i + 1][..i] == inbox[..i];
        if inbox[i].status == Received {
          ids := ids + [i];
        }
      }
      assert inbox[..|inbox|] == inbox;
      if |ids| > BatchSize(limit) {
        ids := ids[..BatchSize(limit)];
      }
    }

    method ProcessPending(limit: int, raises: set<nat>) returns (processed: nat, failed: nat)
      modifies this, ledger
      ensures Model() == Batch(old(Model()), limit, raises)
      ensures processed == Successes(old(Model()), Selected(old(inbox), limit), raises)
      ensures processed + failed == |Selected(old(inbox), limit)|
    {
      var ids := SelectPending(limit);
      processed, failed := 0, 0;
      for k := 0 to |ids|
        invariant Model() == WorkedAll(old(Model()), ids[..k], raises)
        invariant processed == Successes(old(Model()), ids[..k], raises) && processed + failed == k
      {
        assert ids[..k + 1][..k] == ids[..k];
        var r := WorkOne(ids[k], ids[k] in raises);
        if r == NotFound || r == InvalidEnvelope || r == Raised {
          failed := failed + 1;
        } else {
          processed := processed + 1;
        }
      }
      assert ids[..|ids|] == ids;
    }

    method IngestWebhook(e: Event, raises: bool)
      modifies this, ledger
      ensures Model() == Ingested(old(Model()), e, raises)
    {
      var row := AcceptWebhook(e);
      if row.Some? {
        var r := MaterializeInbox(row.value, raises);
        if r == Raised {
          // The whole transaction is rolled back, the accepted row with it.
          inbox := inbox[..row.value];
        }
      }
    }
  }
}
