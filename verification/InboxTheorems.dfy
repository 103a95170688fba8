/**
  The inbox applies every delivery at most once whatever the interleaving of deliveries,
  redeliveries, workers and failures, and deferring the work changes nothing: drained, the
  worker has produced what the synchronous path produces.
 */
module InboxTheorems {
  import opened Common
  import opened Ledger
  import opened Inbox

  // ---------------------------------------------------------------- what a log means

  function Events(log: seq<LogRow>): seq<Event> {
    if log == [] then [] else Events(log[..|log| - 1]) + [log[|log| - 1].event]
  }

  /** The log that applying these events one by one writes. */
  function LogOf(events: seq<Event>): seq<LogRow> {
    if events == [] then []
    else
      var log, e := LogOf(events[..|events| - 1]), events[|events| - 1];
      log + [LogRow(e, IsLate(log, e))]
  }

  function StatusIn(t: Tables, k: Key): PaymentStatus {
    if k in t.payments then t.payments[k].status else Created
  }

  function OutboxOf(events: seq<Event>): seq<Notice> {
    if events == [] then []
    else
      var init, e := events[..|events| - 1], events[|events| - 1];
      OutboxOf(init) + [Notice(e, IsLate(LogOf(init), e), StatusIn(Run(EMPTY, events), PaymentKey(e)))]
  }

  /** Log, ledger and outbox are exactly what applying these events in order produces. */
  ghost predicate Reflects(s: State, events: seq<Event>) {
    s.log == LogOf(events) && s.ledger == Run(EMPTY, events) && s.outbox == OutboxOf(events)
  }

  function Times(log: seq<LogRow>, key: DeliveryKey): nat {
    if log == [] then 0 else Times(log[..|log| - 1], key) + if KeyOf(log[|log| - 1].event) == key then 1 else 0
  }

  predicate Settled(row: InboxRow) {
    row.status == Processed || row.status == Duplicate
  }

  // ---------------------------------------------------------------- the invariant

  /** A row is settled exactly when its delivery has been applied, and then once. */
  predicate RowSound(log: seq<LogRow>, row: InboxRow) {
    && (row.envelope.Some? ==> KeyOf(row.envelope.value) == row.key)
    && Times(log, row.key) == (if Settled(row) then 1 else 0)
  }

  ghost predicate UniqueKeys(inbox: seq<InboxRow>) {
    forall i, j :: 0 <= i < j < |inbox| ==> inbox[i].key != inbox[j].key
  }

  /** Inbox and log agree: one row a key, sound, and nothing logged without a row. */
  ghost predicate Books(inbox: seq<InboxRow>, log: seq<LogRow>) {
    && UniqueKeys(inbox)
    && (forall i :: 0 <= i < |inbox| ==> RowSound(log, inbox[i]))
    && (forall key :: !Known(inbox, key) ==> Times(log, key) == 0)
  }

  ghost predicate Good(s: State) {
    Books(s.inbox, s.log)
  }

  lemma {:induction false} LoggedTimes(log: seq<LogRow>, key: DeliveryKey)
    ensures Logged(log, key) <==> Times(log, key) > 0
  {
    if log != [] {
      LoggedTimes(log[..|log| - 1], key);
      assert forall i :: 0 <= i < |log| - 1 ==> log[..|log| - 1][i] == log[i];
    }
  }

  lemma Snoc(log: seq<LogRow>, row: LogRow)
    ensures Events(log + [row]) == Events(log) + [row.event]
    ensures forall key :: Times(log + [row], key) == Times(log, key) + if KeyOf(row.event) == key then 1 else 0
  {
    assert (log + [row])[..|log|] == log;
  }

  lemma AppliedStatus(t: Tables, e: Event)
    ensures PaymentKey(e) in Apply(t, e).payments
    ensures StatusIn(Apply(t, e), PaymentKey(e)) == Apply(t, e).payments[PaymentKey(e)].status
  {}

  /** Applying one more event extends what the state reflects by that event. */
  lemma ApplyingReflects(s: State, i: nat)
    requires i < |s.inbox| && s.inbox[i].envelope.Some? && Reflects(s, Events(s.log))
    ensures Events(Applying(s, i).log) == Events(s.log) + [s.inbox[i].envelope.value]
    ensures Reflects(Applying(s, i), Events(Applying(s, i).log))
  {
    hide Apply, IsLate, Times;
    var e, u, before := s.inbox[i].envelope.value, Applying(s, i), Events(s.log);
    AppliedStatus(s.ledger, e);
    Snoc(s.log, LogRow(e, IsLate(s.log, e)));
    assert (before + [e])[..|before|] == before;
  }

  // ---------------------------------------------------------------- steps

  datatype Step =
    | Accept(event: Event)
    | Ingest(event: Event, raises: bool)
    | Materialize(row: nat, raises: bool)
    | Work(row: nat, raises: bool)
    | Pass(limit: int, failing: set<nat>)

  function Next(s: State, step: Step): State {
    match step
    case Accept(e) => s.(inbox := AcceptedInbox(s.inbox, e))
    case Ingest(e, raises) => Ingested(s, e, raises)
    case Materialize(i, raises) => Materialized(s, i, raises)
    case Work(i, raises) => Worked(s, i, raises)
    case Pass(limit, failing) => Batch(s, limit, failing)
  }

  function RunSteps(s: State, steps: seq<Step>): State {
    if steps == [] then s else Next(RunSteps(s, steps[..|steps| - 1]), steps[|steps| - 1])
  }

  /** Rows are never removed or rewritten, and only their status moves on. */
  predicate RowKept(p: InboxRow, q: InboxRow) {
    && q.key == p.key && q.envelope == p.envelope
    && (p.status == Processed ==> Settled(q)) && (p.status == Duplicate ==> q.status == Duplicate)
  }

  ghost predicate RowsKept(a: seq<InboxRow>, b: seq<InboxRow>) {
    |a| <= |b| && forall i :: 0 <= i < |a| ==> RowKept(a[i], b[i])
  }

  ghost predicate Kept(s: State, u: State) {
    RowsKept(s.inbox, u.inbox) && s.log <= u.log && s.outbox <= u.outbox
  }

  lemma KeptThrough(s: State, u: State, v: State)
    requires Kept(s, u) && Kept(u, v)
    ensures Kept(s, v)
  {
    forall i | 0 <= i < |s.inbox| ensures RowKept(s.inbox[i], v.inbox[i]) {
      assert RowKept(s.inbox[i], u.inbox[i]) && RowKept(u.inbox[i], v.inbox[i]);
    }
  }

  lemma KnownGrows(a: seq<InboxRow>, b: seq<InboxRow>, key: DeliveryKey)
    requires |a| <= |b| && forall i :: 0 <= i < |a| ==> b[i].key == a[i].key
    requires Known(a, key)
    ensures Known(b, key)
  {
    var i :| 0 <= i < |a| && a[i].key == key;
    assert b[i].key == key;
  }

  lemma RemarkedBooks(inbox: seq<InboxRow>, log: seq<LogRow>, i: nat, status: RowStatus)
    requires Books(inbox, log) && i < |inbox| && Settled(inbox[i]) == Settled(inbox[i].(status := status))
    ensures Books(inbox[i := inbox[i].(status := status)], log)
  {
    var after := inbox[i := inbox[i].(status := status)];
    forall j | 0 <= j < |after| ensures RowSound(log, after[j]) {
      assert RowSound(log, inbox[j]);
    }
    forall key | !Known(after, key) ensures Times(log, key) == 0 {
      if Known(inbox, key) {
        KnownGrows(inbox, after, key);
      }
    }
  }

  lemma AppendedBooks(inbox: seq<InboxRow>, log: seq<LogRow>, e: Event)
    requires Books(inbox, log) && !Known(inbox, KeyOf(e))
    ensures Books(inbox + [InboxRow(KeyOf(e), Received, Some(e))], log)
  {
    var after := inbox + [InboxRow(KeyOf(e), Received, Some(e))];
    forall j | 0 <= j < |after| ensures RowSound(log, after[j]) {
      assert j < |inbox| ==> RowSound(log, inbox[j]);
    }
    forall key | !Known(after, key) ensures Times(log, key) == 0 {
      if Known(inbox, key) {
        KnownGrows(inbox, after, key);
      }
    }
  }

  lemma AppliedBooks(inbox: seq<InboxRow>, log: seq<LogRow>, i: nat, late: bool)
    requires Books(inbox, log) && i < |inbox| && inbox[i].envelope.Some? && !Settled(inbox[i])
    ensures Books(inbox[i := inbox[i].(status := Processed)], log + [LogRow(inbox[i].envelope.value, late)])
  {
    var after, row := inbox[i := inbox[i].(status := Processed)], LogRow(inbox[i].envelope.value, late);
    Snoc(log, row);
    assert RowSound(log, inbox[i]);
    forall j | 0 <= j < |after| ensures RowSound(log + [row], after[j]) {
      assert RowSound(log, inbox[j]);
      assert j != i ==> inbox[j].key != inbox[i].key;
    }
    forall key | !Known(after, key) ensures Times(log + [row], key) == 0 {
      if Known(inbox, key) {
        KnownGrows(inbox, after, key);
      }
      assert after[i].key == KeyOf(row.event);
    }
  }

  lemma AcceptStep(s: State, e: Event)
    requires Good(s)
    ensures Good(Next(s, Accept(e))) && Kept(s, Next(s, Accept(e)))
  {
    if !Known(s.inbox, KeyOf(e)) {
      AppendedBooks(s.inbox, s.log, e);
    } else if s.inbox[Find(s.inbox, KeyOf(e))].status == Processed {
      RemarkedBooks(s.inbox, s.log, Find(s.inbox, KeyOf(e)), Duplicate);
    }
  }

  lemma DeadStep(s: State, i: nat)
    requires Good(s) && i < |s.inbox| && !Settled(s.inbox[i])
    ensures Good(Mark(s, i, Dead)) && Kept(s, Mark(s, i, Dead))
  {
    RemarkedBooks(s.inbox, s.log, i, Dead);
  }

  lemma ApplyingStep(s: State, i: nat)
    requires Good(s) && i < |s.inbox| && s.inbox[i].envelope.Some? && !Settled(s.inbox[i])
    ensures Good(Applying(s, i)) && Kept(s, Applying(s, i))
  {
    AppliedBooks(s.inbox, s.log, i, IsLate(s.log, s.inbox[i].envelope.value));
  }

  /** An open row is applied, or fails; no open row ever collides with the log. */
  lemma OpenOutcome(s: State, i: nat, raises: bool)
    requires Books(s.inbox, s.log) && i < |s.inbox| && !Settled(s.inbox[i])
    ensures OutcomeOf(s, i, raises) ==
      if s.inbox[i].envelope.None? then InvalidEnvelope
      else if raises then Raised
      else Applied(IsLate(s.log, s.inbox[i].envelope.value))
  {
    assert RowSound(s.log, s.inbox[i]);
    LoggedTimes(s.log, s.inbox[i].key);
  }

  predicate Open(s: State, i: nat) {
    i < |s.inbox| && !Settled(s.inbox[i])
  }

  function WorkResult(s: State, i: nat, raises: bool, worker: bool): State {
    if worker then Worked(s, i, raises) else Materialized(s, i, raises)
  }

  lemma WorkStep(s: State, i: nat, raises: bool, worker: bool)
    requires Good(s)
    ensures Good(WorkResult(s, i, raises, worker)) && Kept(s, WorkResult(s, i, raises, worker))
  {
    var u := WorkResult(s, i, raises, worker);
    if Open(s, i) {
      OpenOutcome(s, i, raises);
      if s.inbox[i].envelope.None? || raises {
        DeadStep(s, i);
        assert u == Mark(s, i, Dead) || u == s;
      } else {
        ApplyingStep(s, i);
        assert u == Applying(s, i);
      }
    } else {
      assert u == s;
    }
  }

  lemma {:induction false} BatchStep(s: State, ids: seq<nat>, raises: set<nat>)
    requires Good(s)
    ensures Good(WorkedAll(s, ids, raises)) && Kept(s, WorkedAll(s, ids, raises))
  {
    if ids != [] {
      var n := |ids| - 1;
      var u := WorkedAll(s, ids[..n], raises);
      BatchStep(s, ids[..n], raises);
      WorkStep(u, ids[n], ids[n] in raises, true);
      KeptThrough(s, u, WorkResult(u, ids[n], ids[n] in raises, true));
    }
  }

  lemma GoodStep(s: State, step: Step)
    requires Good(s)
    ensures Good(Next(s, step)) && Kept(s, Next(s, step))
  {
    match step
    case Accept(e) => AcceptStep(s, e);
    case Ingest(e, raises) =>
      AcceptStep(s, e);
      IngestStep(s, e, raises);
    case Materialize(i, raises) => WorkStep(s, i, raises, false);
    case Work(i, raises) => WorkStep(s, i, raises, true);
    case Pass(limit, failing) => BatchStep(s, Selected(s.inbox, limit), failing);
  }

  lemma IngestStep(s: State, e: Event, raises: bool)
    requires Good(s)
    ensures Good(Ingested(s, e, raises)) && Kept(s, Ingested(s, e, raises))
  {
    var accepted := Next(s, Accept(e));
    AcceptStep(s, e);
    WorkStep(accepted, |s.inbox|, raises, false);
    KeptThrough(s, accepted, WorkResult(accepted, |s.inbox|, raises, false));
  }

  // ---------------------------------------------------------------- the ledger reflects the log

  lemma WorkShape(s: State, i: nat, raises: bool, worker: bool)
    ensures var u := WorkResult(s, i, raises, worker);
      if OutcomeOf(s, i, raises).Applied? then i < |s.inbox| && s.inbox[i].envelope.Some? && u == Applying(s, i)
      else u.log == s.log && u.ledger == s.ledger && u.outbox == s.outbox
  {}

  lemma WorkReflects(s: State, i: nat, raises: bool, worker: bool)
    requires Reflects(s, Events(s.log))
    ensures var u := WorkResult(s, i, raises, worker); Reflects(u, Events(u.log))
  {
    WorkShape(s, i, raises, worker);
    if OutcomeOf(s, i, raises).Applied? {
      ApplyingReflects(s, i);
    } else {
      assert Events(WorkResult(s, i, raises, worker).log) == Events(s.log);
    }
  }

  lemma {:induction false} BatchReflects(s: State, ids: seq<nat>, raises: set<nat>)
    requires Reflects(s, Events(s.log))
    ensures var u := WorkedAll(s, ids, raises); Reflects(u, Events(u.log))
  {
    if ids != [] {
      var n := |ids| - 1;
      BatchReflects(s, ids[..n], raises);
      WorkReflects(WorkedAll(s, ids[..n], raises), ids[n], ids[n] in raises, true);
    }
  }

  lemma ReflectsStep(s: State, step: Step)
    requires Reflects(s, Events(s.log))
    ensures var u := Next(s, step); Reflects(u, Events(u.log))
  {
    hide LogOf, OutboxOf, Run, Events, WorkedAll, OutcomeOf, Applying;
    match step
    case Accept(e) =>
    case Ingest(e, raises) => WorkReflects(Next(s, Accept(e)), |s.inbox|, raises, false);
    case Materialize(i, raises) => WorkReflects(s, i, raises, false);
    case Work(i, raises) => WorkReflects(s, i, raises, true);
    case Pass(limit, failing) => BatchReflects(s, Selected(s.inbox, limit), failing);
  }

  // ---------------------------------------------------------------- whole runs

  /**
    Over any run of deliveries, redeliveries, workers and failures, each delivery is applied
    at most once: once if its row is processed or duplicate, not at all otherwise. No row is
    ever lost or taken back.
   */
  lemma {:induction false} ExactlyOnce(s: State, steps: seq<Step>)
    requires Good(s)
    ensures Good(RunSteps(s, steps)) && Kept(s, RunSteps(s, steps))
  {
    if steps != [] {
      var init := steps[..|steps| - 1];
      ExactlyOnce(s, init);
      GoodStep(RunSteps(s, init), steps[|steps| - 1]);
      KeptThrough(s, RunSteps(s, init), RunSteps(s, steps));
    }
  }

  /** In every state reached from an empty inbox. */
  lemma ReachableIsGood(steps: seq<Step>)
    ensures Good(RunSteps(START, steps))
  {
    ExactlyOnce(START, steps);
  }

  /** Log, ledger and outbox are always what applying the logged events in order produces. */
  lemma {:induction false} LedgerReflectsLog(steps: seq<Step>)
    ensures var u := RunSteps(START, steps); Reflects(u, Events(u.log))
  {
    if steps != [] {
      LedgerReflectsLog(steps[..|steps| - 1]);
      ReflectsStep(RunSteps(START, steps[..|steps| - 1]), steps[|steps| - 1]);
    }
  }

  /** A redelivery never takes a row off the worker's queue, and a new delivery goes to its end. */
  lemma AcceptKeepsQueue(inbox: seq<InboxRow>, e: Event)
    ensures Pending(AcceptedInbox(inbox, e)) ==
      if Known(inbox, KeyOf(e)) then Pending(inbox) else Pending(inbox) + [|inbox|]
  {
    var after := AcceptedInbox(inbox, e);
    if Known(inbox, KeyOf(e)) {
      RedeliveryShape(inbox, e);
      SameQueue(inbox, after);
    } else {
      QueueSnoc(inbox, InboxRow(KeyOf(e), Received, Some(e)));
    }
  }

  lemma RedeliveryShape(inbox: seq<InboxRow>, e: Event)
    requires Known(inbox, KeyOf(e))
    ensures var after := AcceptedInbox(inbox, e);
      |after| == |inbox| && forall i :: 0 <= i < |inbox| ==>
        (inbox[i].status == Received <==> after[i].status == Received)
  {}

  lemma QueueSnoc(inbox: seq<InboxRow>, row: InboxRow)
    requires row.status == Received
    ensures Pending(inbox + [row]) == Pending(inbox) + [|inbox|]
  {
    assert (inbox + [row])[..|inbox|] == inbox;
  }

  lemma {:induction false} SameQueue(a: seq<InboxRow>, b: seq<InboxRow>)
    requires |a| == |b| && forall i :: 0 <= i < |a| ==> (a[i].status == Received <==> b[i].status == Received)
    ensures Pending(a) == Pending(b)
  {
    if a != [] {
      SameQueue(a[..|a| - 1], b[..|b| - 1]);
    }
  }

  // ---------------------------------------------------------------- failures

  lemma {:induction false} BatchFrame(s: State, ids: seq<nat>, raises: set<nat>, i: nat)
    requires i < |s.inbox| && i !in ids
    ensures var u := WorkedAll(s, ids, raises); i < |u.inbox| && u.inbox[i] == s.inbox[i]
  {
    if ids != [] {
      BatchFrame(s, ids[..|ids| - 1], raises, i);
    }
  }

  /** Deliveries and worker passes, with nobody materialising a row by hand. */
  predicate Routine(step: Step) {
    step.Accept? || step.Ingest? || step.Pass?
  }

  lemma DeadStepStays(s: State, step: Step, i: nat)
    requires i < |s.inbox| && s.inbox[i].status == Dead && Routine(step)
    ensures var u := Next(s, step); i < |u.inbox| && u.inbox[i] == s.inbox[i]
  {
    if step.Pass? {
      assert i !in Pending(s.inbox);
      BatchFrame(s, Selected(s.inbox, step.limit), step.failing, i);
    }
  }

  /**
    A delivery the worker has set aside is never applied again: its redeliveries are
    answered as duplicates, and no pass picks it up.
   */
  lemma {:induction false} DeadForGood(s: State, steps: seq<Step>, i: nat)
    requires Good(s) && i < |s.inbox| && s.inbox[i].status == Dead && forall step :: step in steps ==> Routine(step)
    ensures var u := RunSteps(s, steps);
      i < |u.inbox| && u.inbox[i] == s.inbox[i] && Times(u.log, s.inbox[i].key) == 0
  {
    ExactlyOnce(s, steps);
    if steps != [] {
      DeadForGood(s, steps[..|steps| - 1], i);
      DeadStepStays(RunSteps(s, steps[..|steps| - 1]), steps[|steps| - 1], i);
    }
    assert RowSound(RunSteps(s, steps).log, RunSteps(s, steps).inbox[i]);
  }

  /** The synchronous path forgets a delivery that failed, so a redelivery starts afresh. */
  lemma FailedIngestIsForgotten(s: State, e: Event)
    requires Good(s) && !Known(s.inbox, KeyOf(e))
    ensures Ingested(s, e, true) == s
    ensures Times(Ingested(s, e, false).log, KeyOf(e)) == 1
  {
    var accepted := Next(s, Accept(e));
    AcceptStep(s, e);
    OpenOutcome(accepted, |s.inbox|, true);
    OpenOutcome(accepted, |s.inbox|, false);
    Snoc(s.log, LogRow(e, IsLate(s.log, e)));
  }
}
