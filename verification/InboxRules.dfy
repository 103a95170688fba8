/**
  What the inbox leaves behind, row by row: which deliveries are flagged late over any
  run, and what accepting or working off a delivery does to its row.
 */
module InboxRules {
  import opened Common
  import opened Ledger
  import opened Inbox
  import T = InboxTheorems

  // ---------------------------------------------------------------- lateness

  /** An event of the same merchant among some log rows occurred over a minute after this one. */
  ghost predicate Overtaken(log: seq<LogRow>, e: Event) {
    exists i :: 0 <= i < |log| && log[i].event.scope.merchant == e.scope.merchant
      && log[i].event.occurredAt > e.occurredAt + 60_000_000
  }

  ghost predicate SeenAt(log: seq<LogRow>, merchant: string, time: int) {
    exists i :: 0 <= i < |log| && log[i].event.scope.merchant == merchant && log[i].event.occurredAt == time
  }

  lemma {:induction false} LastSeenIsGreatest(log: seq<LogRow>, merchant: string)
    ensures var last := LastSeen(log, merchant);
      && (last.Some? ==> SeenAt(log, merchant, last.value))
      && forall i :: 0 <= i < |log| && log[i].event.scope.merchant == merchant ==>
           last.Some? && log[i].event.occurredAt <= last.value
  {
    if log != [] {
      var init := log[..|log| - 1];
      LastSeenIsGreatest(init, merchant);
      assert forall i :: 0 <= i < |init| ==> init[i] == log[i];
      assert log[|init|].event.scope.merchant == merchant ==> SeenAt(log, merchant, log[|init|].event.occurredAt);
      forall time | SeenAt(init, merchant, time) ensures SeenAt(log, merchant, time) {
        var i :| 0 <= i < |init| && init[i].event.scope.merchant == merchant && init[i].event.occurredAt == time;
        assert log[i].event.scope.merchant == merchant && log[i].event.occurredAt == time;
      }
    }
  }

  lemma LateExactly(log: seq<LogRow>, e: Event)
    ensures IsLate(log, e) <==> Overtaken(log, e)
  {
    LastSeenIsGreatest(log, e.scope.merchant);
  }

  /** Each logged event is flagged by those logged before it. */
  ghost predicate FlaggedLate(log: seq<LogRow>) {
    forall j :: 0 <= j < |log| ==> (log[j].late <==> Overtaken(log[..j], log[j].event))
  }

  /** The outbox tells of each logged event, its flag and the status it left its payment in. */
  ghost predicate Announces(log: seq<LogRow>, outbox: seq<Notice>) {
    && |outbox| == |log|
    && forall j :: 0 <= j < |log| ==>
         && outbox[j].event == log[j].event && outbox[j].late == log[j].late
         && var t := Run(EMPTY, T.Events(log[..j + 1]));
            PaymentKey(log[j].event) in t.payments && outbox[j].status == t.payments[PaymentKey(log[j].event)].status
  }

  lemma {:induction false} EventsOfLog(events: seq<Event>)
    ensures T.Events(T.LogOf(events)) == events && |T.LogOf(events)| == |T.OutboxOf(events)| == |events|
  {
    hide IsLate, Run;
    if events != [] {
      var init, e := events[..|events| - 1], events[|events| - 1];
      EventsOfLog(init);
      T.Snoc(T.LogOf(init), LogRow(e, IsLate(T.LogOf(init), e)));
    }
  }

  lemma {:induction false} LogIsFlagged(events: seq<Event>)
    ensures FlaggedLate(T.LogOf(events))
  {
    if events != [] {
      var init, e := events[..|events| - 1], events[|events| - 1];
      LogIsFlagged(init);
      var before, log := T.LogOf(init), T.LogOf(events);
      LateExactly(before, e);
      forall j | 0 <= j < |log| ensures log[j].late <==> Overtaken(log[..j], log[j].event) {
        if j < |before| {
          assert log[j] == before[j] && log[..j] == before[..j];
        } else {
          assert log[..j] == before;
        }
      }
    }
  }

  lemma AnnouncesSnoc(log: seq<LogRow>, outbox: seq<Notice>, row: LogRow, notice: Notice)
    requires Announces(log, outbox)
    requires notice.event == row.event && notice.late == row.late
    requires notice.status == T.StatusIn(Run(EMPTY, T.Events(log + [row])), PaymentKey(row.event))
    requires PaymentKey(row.event) in Run(EMPTY, T.Events(log + [row])).payments
    ensures Announces(log + [row], outbox + [notice])
  {
    hide Run, T.Events;
    var rows, notices := log + [row], outbox + [notice];
    assert rows[..|rows|] == rows;
    forall j | 0 <= j < |log| ensures rows[j] == log[j] && notices[j] == outbox[j] && rows[..j + 1] == log[..j + 1] {}
  }

  lemma {:induction false} OutboxAnnounces(events: seq<Event>)
    ensures Announces(T.LogOf(events), T.OutboxOf(events))
  {
    if events != [] {
      hide Announces, IsLate, Apply, T.Events;
      var init, e := events[..|events| - 1], events[|events| - 1];
      OutboxAnnounces(init);
      EventsOfLog(events);
      T.AppliedStatus(Run(EMPTY, init), e);
      var log, outbox := T.LogOf(events), T.OutboxOf(events);
      AnnouncesSnoc(T.LogOf(init), T.OutboxOf(init), log[|log| - 1], outbox[|outbox| - 1]);
    }
  }

  /**
    Over every run, an event is logged late exactly if an event of its merchant logged
    earlier occurred more than a minute after it, and is announced as it was logged.
   */
  lemma LateOverRuns(steps: seq<T.Step>)
    ensures var u := T.RunSteps(START, steps); FlaggedLate(u.log) && Announces(u.log, u.outbox)
  {
    var u := T.RunSteps(START, steps);
    T.LedgerReflectsLog(steps);
    LogIsFlagged(T.Events(u.log));
    OutboxAnnounces(T.Events(u.log));
  }

  // ---------------------------------------------------------------- one delivery

  predicate SameDelivery(key: DeliveryKey, e: Event) {
    key.organization == e.scope.organization && key.provider == e.scope.provider && key.externalId == e.externalId
  }

  /** Row `i` gets a status; nothing else of the inbox changes. */
  ghost predicate Marks(a: seq<InboxRow>, b: seq<InboxRow>, i: nat, status: RowStatus) {
    && i < |a| == |b| && b[i] == InboxRow(a[i].key, status, a[i].envelope)
    && forall j :: 0 <= j < |a| && j != i ==> b[j] == a[j]
  }

  /** Row `i`, the first of the delivery's key, becomes a duplicate if it was processed. */
  ghost predicate Redelivered(a: seq<InboxRow>, b: seq<InboxRow>, i: nat, e: Event) {
    && i < |a| && SameDelivery(a[i].key, e) && (forall j :: 0 <= j < i ==> !SameDelivery(a[j].key, e))
    && if a[i].status == Processed then Marks(a, b, i, Duplicate) else b == a
  }

  /** A redelivery turns the processed row of its key into a duplicate; a new delivery waits at the end. */
  lemma AcceptExactly(s: State, e: Event)
    ensures var u := T.Next(s, T.Accept(e));
      && u == s.(inbox := u.inbox)
      && if forall i :: 0 <= i < |s.inbox| ==> !SameDelivery(s.inbox[i].key, e) then
           u.inbox == s.inbox +
             [InboxRow(DeliveryKey(e.scope.organization, e.scope.provider, e.externalId), Received, Some(e))]
         else exists i: nat :: Redelivered(s.inbox, u.inbox, i, e)
  {
    assert forall i :: 0 <= i < |s.inbox| ==> (SameDelivery(s.inbox[i].key, e) <==> s.inbox[i].key == KeyOf(e));
    if Known(s.inbox, KeyOf(e)) {
      var i := Find(s.inbox, KeyOf(e));
      assert Redelivered(s.inbox, AcceptedInbox(s.inbox, e), i, e);
    }
  }

  /** The event is applied: logged, announced, and its row processed. */
  ghost predicate Applies(s: State, u: State, i: nat, e: Event) {
    && Marks(s.inbox, u.inbox, i, Processed) && u.ledger == Apply(s.ledger, e)
    && |u.log| == |s.log| + 1 && u.log[..|s.log|] == s.log && u.log[|s.log|].event == e
    && |u.outbox| == |s.outbox| + 1 && u.outbox[..|s.outbox|] == s.outbox
  }

  /**
    Materialising a row: settled rows are left, unreadable ones are dead, an event already
    logged settles its row, and any other is applied. If applying raises, the worker's row is
    dead and the synchronous path keeps nothing.
   */
  lemma WorkExactly(s: State, i: nat, raises: bool, worker: bool)
    ensures var u := T.Next(s, if worker then T.Work(i, raises) else T.Materialize(i, raises));
      if i >= |s.inbox| || s.inbox[i].status in {Processed, Duplicate} then u == s
      else if s.inbox[i].envelope == None then u == s.(inbox := u.inbox) && Marks(s.inbox, u.inbox, i, Dead)
      else
        var e := s.inbox[i].envelope.value;
        if exists l :: l in s.log && SameDelivery(KeyOf(l.event), e) then
          u == s.(inbox := u.inbox) && Marks(s.inbox, u.inbox, i, Processed)
        else if !raises then Applies(s, u, i, e)
        else if worker then u == s.(inbox := u.inbox) && Marks(s.inbox, u.inbox, i, Dead)
        else u == s
  {
    hide Apply, IsLate;
    if i < |s.inbox| && s.inbox[i].envelope.Some? {
      LoggedExactly(s.log, s.inbox[i].envelope.value);
    }
  }

  lemma LoggedExactly(log: seq<LogRow>, e: Event)
    ensures Logged(log, KeyOf(e)) <==> exists l :: l in log && SameDelivery(KeyOf(l.event), e)
  {
    forall i | 0 <= i < |log| ensures KeyOf(log[i].event) == KeyOf(e) <==> SameDelivery(KeyOf(log[i].event), e) {}
    if Logged(log, KeyOf(e)) {
      var i :| 0 <= i < |log| && KeyOf(log[i].event) == KeyOf(e);
      assert log[i] in log && SameDelivery(KeyOf(log[i].event), e);
    }
  }

  // ---------------------------------------------------------------- one pass

  ghost predicate Ascending(ids: seq<nat>) {
    forall j, k :: 0 <= j < k < |ids| ==> ids[j] < ids[k]
  }

  lemma AscendingInit(init: seq<nat>, last: nat)
    requires Ascending(init + [last])
    ensures Ascending(init) && last !in init
    ensures forall i :: i in init + [last] <==> i in init || i == last
  {
    var ids := init + [last];
    forall j | 0 <= j < |init| ensures init[j] != last {
      assert ids[j] < ids[|init|];
    }
    forall j, k | 0 <= j < k < |init| ensures init[j] < init[k] {
      assert ids[j] < ids[k];
    }
  }

  lemma {:induction false} PendingAscending(inbox: seq<InboxRow>)
    ensures Ascending(Pending(inbox))
  {
    if inbox != [] {
      var n := |inbox| - 1;
      PendingAscending(inbox[..n]);
      assert forall k :: 0 <= k < |Pending(inbox[..n])| ==> Pending(inbox[..n])[k] in Pending(inbox[..n]);
    }
  }

  /** A pass takes the waiting rows, oldest first, up to its limit taken between 1 and 1000. */
  lemma PassTakes(inbox: seq<InboxRow>, limit: int)
    ensures var waiting, taken := Pending(inbox), Selected(inbox, limit);
      var most := if limit < 1 then 1 else if limit < 1000 then limit else 1000;
      && taken <= waiting && |taken| == (if |waiting| < most then |waiting| else most)
      && Ascending(taken) && forall i :: i in taken ==> i < |inbox| && inbox[i].status == Received
  {
    PendingAscending(inbox);
    assert forall i :: i in Selected(inbox, limit) ==> i in Pending(inbox);
  }

  /** Those of the rows that end up processed. */
  function ProcessedOf(inbox: seq<InboxRow>, ids: seq<nat>): set<nat> {
    set i | i in ids && i < |inbox| && inbox[i].status == Processed
  }

  ghost predicate AllWorked(inbox: seq<InboxRow>, ids: seq<nat>) {
    forall i :: i in ids ==> i < |inbox| && inbox[i].status in {Processed, Dead}
  }

  /** Marking a row not among the ones counted counts it if it is processed. */
  lemma ProcessedSnoc(a: seq<InboxRow>, b: seq<InboxRow>, ids: seq<nat>, i: nat, status: RowStatus)
    requires Marks(a, b, i, status) && i !in ids && status in {Processed, Dead}
    ensures |ProcessedOf(b, ids + [i])| == |ProcessedOf(a, ids)| + if status == Processed then 1 else 0
    ensures AllWorked(a, ids) ==> AllWorked(b, ids + [i])
  {
    var before, after := ProcessedOf(a, ids), ProcessedOf(b, ids + [i]);
    forall j ensures j in after <==> j in before || (j == i && status == Processed) {
      assert j in ids + [i] <==> j in ids || j == i;
    }
    assert after == before + if status == Processed then {i} else {};
  }

  lemma {:induction false} CountsOf(s: State, ids: seq<nat>, raises: set<nat>)
    requires Ascending(ids) && forall i :: i in ids ==> i < |s.inbox| && s.inbox[i].status == Received
    ensures var u := WorkedAll(s, ids, raises);
      AllWorked(u.inbox, ids) && Successes(s, ids, raises) == |ProcessedOf(u.inbox, ids)|
  {
    if ids != [] {
      hide Ascending, Worked, OutcomeOf, Succeeds, ProcessedOf, AllWorked, Marks;
      var init, i := ids[..|ids| - 1], ids[|ids| - 1];
      assert ids == init + [i];
      AscendingInit(init, i);
      CountsOf(s, init, raises);
      T.BatchFrame(s, init, raises, i);
      var v := WorkedAll(s, init, raises);
      WorkedRow(v, i, i in raises);
      var status := if Succeeds(OutcomeOf(v, i, i in raises)) then Processed else Dead;
      ProcessedSnoc(v.inbox, WorkedAll(s, ids, raises).inbox, init, i, status);
    }
  }

  lemma WorkedRow(s: State, i: nat, raises: bool)
    requires i < |s.inbox| && s.inbox[i].status == Received
    ensures var u := Worked(s, i, raises);
      && Marks(s.inbox, u.inbox, i, if Succeeds(OutcomeOf(s, i, raises)) then Processed else Dead)
  {
    hide Apply, IsLate;
  }

  /** A pass reports the rows it leaves processed, and leaves the others it took dead. */
  lemma PassCounts(s: State, limit: int, raises: set<nat>)
    ensures var ids, u := Selected(s.inbox, limit), Batch(s, limit, raises);
      AllWorked(u.inbox, ids) && Successes(s, ids, raises) == |ProcessedOf(u.inbox, ids)|
  {
    PassTakes(s.inbox, limit);
    CountsOf(s, Selected(s.inbox, limit), raises);
  }
}
