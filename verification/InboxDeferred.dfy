/**
  Deferred work against synchronous work: deliveries, redeliveries and bounded worker
  passes interleave, and applying an event may raise. Once the queue is drained the log,
  the ledger and the outbox are those of materialising every delivery on arrival, exactly
  if no delivery that failed at first would have succeeded when it came again.
 */
module InboxDeferred {
  import opened Common
  import opened Ledger
  import opened Inbox
  import opened InboxTheorems

  /** A delivery, and whether applying it raises. */
  datatype Arrival = Arrival(event: Event, fails: bool)

  datatype Turn = Arrive(arrival: Arrival) | WorkerPass(limit: int)

  // ---------------------------------------------------------------- what arrived

  function Arrivals(trace: seq<Turn>): seq<Arrival> {
    if trace == [] then []
    else
      var init, turn := Arrivals(trace[..|trace| - 1]), trace[|trace| - 1];
      match turn
      case Arrive(a) => init + [a]
      case WorkerPass(_) => init
  }

  predicate Came(arrivals: seq<Arrival>, key: DeliveryKey) {
    exists i :: 0 <= i < |arrivals| && KeyOf(arrivals[i].event) == key
  }

  /** A delivery of this key that does not raise has come. */
  predicate Passed(arrivals: seq<Arrival>, key: DeliveryKey) {
    exists i :: 0 <= i < |arrivals| && KeyOf(arrivals[i].event) == key && !arrivals[i].fails
  }

  /** The first delivery of each key: the one the inbox keeps. */
  function Firsts(arrivals: seq<Arrival>): seq<Arrival> {
    if arrivals == [] then []
    else
      var init, last := arrivals[..|arrivals| - 1], arrivals[|arrivals| - 1];
      Firsts(init) + if Came(init, KeyOf(last.event)) then [] else [last]
  }

  /** The events whose application does not raise. */
  function Passing(arrivals: seq<Arrival>): seq<Event> {
    if arrivals == [] then []
    else
      var last := arrivals[|arrivals| - 1];
      Passing(arrivals[..|arrivals| - 1]) + if last.fails then [] else [last.event]
  }

  /** The first delivery of each key that does not raise. */
  function Succeeded(arrivals: seq<Arrival>): seq<Event> {
    if arrivals == [] then []
    else
      var init, last := arrivals[..|arrivals| - 1], arrivals[|arrivals| - 1];
      Succeeded(init) + if last.fails || Passed(init, KeyOf(last.event)) then [] else [last.event]
  }

  /** What the worker is to apply: the first delivery of each key, if it does not raise. */
  function Taken(trace: seq<Turn>): seq<Event> {
    Passing(Firsts(Arrivals(trace)))
  }

  predicate IsFirst(arrivals: seq<Arrival>, i: nat)
    requires i < |arrivals|
  {
    !Came(arrivals[..i], KeyOf(arrivals[i].event))
  }

  /** No key comes first with a delivery that raises and later with one that does not. */
  ghost predicate Steady(arrivals: seq<Arrival>) {
    forall i, j :: 0 <= i < j < |arrivals| && KeyOf(arrivals[i].event) == KeyOf(arrivals[j].event) ==>
      arrivals[i].fails && IsFirst(arrivals, i) ==> arrivals[j].fails
  }

  // ---------------------------------------------------------------- the two paths

  function Failing(firsts: seq<Arrival>): set<nat> {
    set i | 0 <= i < |firsts| && firsts[i].fails
  }

  /** Deliveries are acknowledged at once and left to the worker. */
  function DeferredTurn(s: State, turn: Turn, firsts: seq<Arrival>): State {
    match turn
    case Arrive(a) => Next(s, Accept(a.event))
    case WorkerPass(limit) => Next(s, Pass(limit, Failing(firsts)))
  }

  /** Deliveries are materialised on arrival; there is nothing left for a worker. */
  function SynchronousTurn(s: State, turn: Turn): State {
    match turn
    case Arrive(a) => Next(s, Ingest(a.event, a.fails))
    case WorkerPass(_) => s
  }

  function Deferred(trace: seq<Turn>): State {
    if trace == [] then START
    else
      var init := trace[..|trace| - 1];
      DeferredTurn(Deferred(init), trace[|trace| - 1], Firsts(Arrivals(init)))
  }

  function Synchronous(trace: seq<Turn>): State {
    if trace == [] then START else SynchronousTurn(Synchronous(trace[..|trace| - 1]), trace[|trace| - 1])
  }

  // ---------------------------------------------------------------- the queue

  /** Row `i` holds its first delivery: waiting from position `n` on, worked off before it. */
  predicate Placed(inbox: seq<InboxRow>, firsts: seq<Arrival>, n: nat, i: nat)
    requires i < |inbox| == |firsts|
  {
    && inbox[i].envelope == Some(firsts[i].event)
    && (if i >= n then inbox[i].status == Received
        else if firsts[i].fails then inbox[i].status == Dead
        else Settled(inbox[i]))
  }

  ghost predicate Rows(inbox: seq<InboxRow>, firsts: seq<Arrival>, n: nat) {
    |inbox| == |firsts| && n <= |firsts| && forall i :: 0 <= i < |firsts| ==> Placed(inbox, firsts, n, i)
  }

  /** The inbox keeps the first deliveries, and the log is what passed of the first `n`. */
  ghost predicate Queue(s: State, firsts: seq<Arrival>, n: nat) {
    Good(s) && Rows(s.inbox, firsts, n) && Events(s.log) == Passing(firsts[..n])
  }

  lemma KnownInQueue(s: State, firsts: seq<Arrival>, n: nat, key: DeliveryKey)
    requires Queue(s, firsts, n)
    ensures Known(s.inbox, key) <==> Came(firsts, key)
  {
    forall i | 0 <= i < |firsts| ensures s.inbox[i].key == KeyOf(firsts[i].event) {
      assert Placed(s.inbox, firsts, n, i) && RowSound(s.log, s.inbox[i]);
    }
  }

  lemma AcceptQueue(s: State, firsts: seq<Arrival>, n: nat, a: Arrival)
    requires Queue(s, firsts, n)
    ensures Queue(Next(s, Accept(a.event)), if Came(firsts, KeyOf(a.event)) then firsts else firsts + [a], n)
  {
    var u := Next(s, Accept(a.event));
    KnownInQueue(s, firsts, n, KeyOf(a.event));
    AcceptStep(s, a.event);
    var after := if Came(firsts, KeyOf(a.event)) then firsts else firsts + [a];
    forall i | 0 <= i < |after| ensures Placed(u.inbox, after, n, i) {
      assert i < |firsts| ==> Placed(s.inbox, firsts, n, i);
    }
    assert after[..n] == firsts[..n];
  }

  /** Row `n` worked off. */
  lemma WorkedRow(inbox: seq<InboxRow>, firsts: seq<Arrival>, n: nat, status: RowStatus)
    requires Rows(inbox, firsts, n) && n < |firsts|
    requires status == if firsts[n].fails then Dead else Processed
    ensures Rows(inbox[n := inbox[n].(status := status)], firsts, n + 1)
  {
    var after, next := inbox[n := inbox[n].(status := status)], n + 1;
    forall i | 0 <= i < |firsts| ensures Placed(after, firsts, next, i) {
      assert Placed(inbox, firsts, n, i);
    }
  }

  lemma PassingNext(firsts: seq<Arrival>, n: nat)
    requires n < |firsts|
    ensures Passing(firsts[..n + 1]) == Passing(firsts[..n]) + if firsts[n].fails then [] else [firsts[n].event]
  {
    assert firsts[..n + 1][..n] == firsts[..n];
  }

  /** The worker takes the oldest waiting row and applies it, or sets it aside. */
  lemma WorkQueue(s: State, firsts: seq<Arrival>, n: nat)
    requires Queue(s, firsts, n) && n < |firsts|
    ensures Queue(Worked(s, n, firsts[n].fails), firsts, n + 1)
  {
    var u := Worked(s, n, firsts[n].fails);
    assert Placed(s.inbox, firsts, n, n);
    OpenOutcome(s, n, firsts[n].fails);
    PassingNext(firsts, n);
    if firsts[n].fails {
      assert u == Mark(s, n, Dead);
      WorkedRow(s.inbox, firsts, n, Dead);
      DeadStep(s, n);
    } else {
      assert u == Applying(s, n);
      WorkedRow(s.inbox, firsts, n, Processed);
      ApplyingStep(s, n);
      Snoc(s.log, u.log[|s.log|]);
    }
  }

  lemma {:induction false} PendingQueue(inbox: seq<InboxRow>, n: nat)
    requires n <= |inbox| && forall i :: 0 <= i < |inbox| ==> (inbox[i].status == Received <==> n <= i)
    ensures |Pending(inbox)| == |inbox| - n && forall j :: 0 <= j < |inbox| - n ==> Pending(inbox)[j] == n + j
  {
    if inbox != [] {
      var init := inbox[..|inbox| - 1];
      assert forall i :: 0 <= i < |init| ==> init[i] == inbox[i];
      PendingQueue(init, if n < |inbox| then n else n - 1);
    }
  }

  lemma WorkNext(s: State, firsts: seq<Arrival>, n: nat, i: nat, fails: bool, total: nat)
    requires Queue(s, firsts, n) && i == n < |firsts| && fails == firsts[n].fails && total == n + 1
    ensures Queue(Worked(s, i, fails), firsts, total)
  {
    WorkQueue(s, firsts, n);
  }

  ghost predicate Consecutive(ids: seq<nat>, n: nat) {
    forall j :: 0 <= j < |ids| ==> ids[j] == n + j
  }

  /** A batch of the oldest waiting rows works them all off, in order. */
  lemma {:induction false} BatchQueue(s: State, firsts: seq<Arrival>, n: nat, ids: seq<nat>, raises: set<nat>)
    requires Queue(s, firsts, n) && n + |ids| <= |firsts| && Consecutive(ids, n)
    requires forall i :: 0 <= i < |firsts| ==> (i in raises <==> firsts[i].fails)
    ensures Queue(WorkedAll(s, ids, raises), firsts, n + |ids|)
  {
    if ids == [] {
      assert WorkedAll(s, ids, raises) == s && n + |ids| == n;
    } else {
      var init, i := ids[..|ids| - 1], ids[|ids| - 1];
      BatchQueue(s, firsts, n, init, raises);
      WorkNext(WorkedAll(s, init, raises), firsts, n + |init|, i, i in raises, n + |ids|);
    }
  }

  /** How many waiting rows a pass takes, of `total` rows with `n` worked off. */
  function PassSize(total: nat, n: nat, limit: int): nat {
    if total <= n then 0 else if BatchSize(limit) < total - n then BatchSize(limit) else total - n
  }

  lemma SelectedQueue(s: State, firsts: seq<Arrival>, n: nat, limit: int)
    requires Queue(s, firsts, n)
    ensures Consecutive(Selected(s.inbox, limit), n) && |Selected(s.inbox, limit)| == PassSize(|firsts|, n, limit)
  {
    forall i | 0 <= i < |s.inbox| ensures s.inbox[i].status == Received <==> n <= i {
      assert Placed(s.inbox, firsts, n, i);
    }
    PendingQueue(s.inbox, n);
  }

  /** A worker pass works off as many waiting deliveries as its clamped limit allows. */
  lemma PassQueue(s: State, firsts: seq<Arrival>, n: nat, limit: int)
    requires Queue(s, firsts, n)
    ensures Queue(Next(s, Pass(limit, Failing(firsts))), firsts, n + PassSize(|firsts|, n, limit))
  {
    SelectedQueue(s, firsts, n, limit);
    BatchQueue(s, firsts, n, Selected(s.inbox, limit), Failing(firsts));
  }

  // ---------------------------------------------------------------- the deferred path

  lemma {:induction false} FirstsCame(arrivals: seq<Arrival>, key: DeliveryKey)
    ensures Came(Firsts(arrivals), key) <==> Came(arrivals, key)
  {
    if arrivals != [] {
      var init, last := arrivals[..|arrivals| - 1], arrivals[|arrivals| - 1];
      FirstsCame(init, key);
      CameSnoc(init, last, key);
      CameSnoc(Firsts(init), last, key);
      assert arrivals == init + [last] && Firsts(init) + [] == Firsts(init);
    }
  }

  lemma CameSnoc(arrivals: seq<Arrival>, a: Arrival, key: DeliveryKey)
    ensures Came(arrivals + [a], key) <==> Came(arrivals, key) || KeyOf(a.event) == key
    ensures Passed(arrivals + [a], key) <==> Passed(arrivals, key) || (KeyOf(a.event) == key && !a.fails)
  {
    var all := arrivals + [a];
    assert forall i :: 0 <= i < |arrivals| ==> all[i] == arrivals[i];
    assert all[|arrivals|] == a;
  }

  /** How many rows the worker has worked off. */
  function WorkedOff(trace: seq<Turn>): nat {
    if trace == [] then 0
    else
      var init, turn := trace[..|trace| - 1], trace[|trace| - 1];
      match turn
      case Arrive(_) => WorkedOff(init)
      case WorkerPass(limit) => WorkedOff(init) + PassSize(|Firsts(Arrivals(init))|, WorkedOff(init), limit)
  }

  lemma FirstsSnoc(arrivals: seq<Arrival>, a: Arrival)
    ensures Firsts(arrivals + [a]) ==
      if Came(Firsts(arrivals), KeyOf(a.event)) then Firsts(arrivals) else Firsts(arrivals) + [a]
  {
    assert (arrivals + [a])[..|arrivals|] == arrivals;
    FirstsCame(arrivals, KeyOf(a.event));
    assert Firsts(arrivals) + [] == Firsts(arrivals);
  }

  lemma ArrivalQueue(s: State, arrivals: seq<Arrival>, n: nat, a: Arrival)
    requires Queue(s, Firsts(arrivals), n)
    ensures Queue(Next(s, Accept(a.event)), Firsts(arrivals + [a]), n)
  {
    FirstsSnoc(arrivals, a);
    AcceptQueue(s, Firsts(arrivals), n, a);
  }

  lemma EmptyQueue()
    ensures Queue(START, Firsts([]), 0)
  {
    assert Firsts([]) == [] && Passing([]) == [];
  }

  lemma {:induction false} DeferredQueue(trace: seq<Turn>)
    ensures Queue(Deferred(trace), Firsts(Arrivals(trace)), WorkedOff(trace))
  {
    if trace == [] {
      EmptyQueue();
    } else {
      var init, turn := trace[..|trace| - 1], trace[|trace| - 1];
      DeferredQueue(init);
      match turn
      case Arrive(a) => ArrivalQueue(Deferred(init), Arrivals(init), WorkedOff(init), a);
      case WorkerPass(limit) => PassQueue(Deferred(init), Firsts(Arrivals(init)), WorkedOff(init), limit);
    }
  }

  lemma {:induction false} PassingPrefix(arrivals: seq<Arrival>, n: nat)
    requires n <= |arrivals|
    ensures Passing(arrivals[..n]) <= Passing(arrivals)
  {
    if n == |arrivals| {
      assert arrivals[..n] == arrivals;
    } else {
      PassingPrefix(arrivals[..|arrivals| - 1], n);
      assert arrivals[..|arrivals| - 1][..n] == arrivals[..n];
    }
  }

  /** The worker is only ever behind: what it has applied is what comes first of what it is to apply. */
  lemma WorkerBehind(trace: seq<Turn>)
    ensures Events(Deferred(trace).log) <= Taken(trace)
  {
    DeferredQueue(trace);
    PassingPrefix(Firsts(Arrivals(trace)), WorkedOff(trace));
  }

  /** The queue is drained when no row is still waiting. */
  predicate Drained(s: State) {
    Pending(s.inbox) == []
  }

  lemma DrainedQueue(s: State, firsts: seq<Arrival>, n: nat)
    requires Queue(s, firsts, n) && Drained(s)
    ensures n == |firsts|
  {
    assert n < |firsts| ==> Placed(s.inbox, firsts, n, n) && n in Pending(s.inbox);
  }

  /** Drained, it has applied the first delivery of each key that does not raise, in order of arrival. */
  lemma DrainedAppliedTaken(trace: seq<Turn>)
    requires Drained(Deferred(trace))
    ensures Events(Deferred(trace).log) == Taken(trace)
  {
    var firsts := Firsts(Arrivals(trace));
    DeferredQueue(trace);
    DrainedQueue(Deferred(trace), firsts, WorkedOff(trace));
    assert firsts[..|firsts|] == firsts;
  }

  // ---------------------------------------------------------------- the synchronous path

  /** Everything in the inbox is settled, and is what has succeeded. */
  ghost predicate Prompt(s: State, arrivals: seq<Arrival>) {
    && Good(s) && (forall i :: 0 <= i < |s.inbox| ==> Settled(s.inbox[i]))
    && (forall key :: Known(s.inbox, key) <==> Passed(arrivals, key))
    && Events(s.log) == Succeeded(arrivals)
  }

  lemma KnownStays(inbox: seq<InboxRow>, e: Event, key: DeliveryKey)
    requires Known(inbox, KeyOf(e))
    ensures Known(AcceptedInbox(inbox, e), key) <==> Known(inbox, key)
  {
    var after := AcceptedInbox(inbox, e);
    assert forall i :: 0 <= i < |inbox| ==> after[i].key == inbox[i].key;
  }

  lemma KnownSnoc(inbox: seq<InboxRow>, row: InboxRow, key: DeliveryKey)
    ensures Known(inbox + [row], key) <==> Known(inbox, key) || row.key == key
  {
    var after := inbox + [row];
    assert forall i :: 0 <= i < |inbox| ==> after[i] == inbox[i];
    assert after[|inbox|] == row;
  }

  lemma SucceededSnoc(arrivals: seq<Arrival>, a: Arrival)
    ensures Succeeded(arrivals + [a]) ==
      Succeeded(arrivals) + if a.fails || Passed(arrivals, KeyOf(a.event)) then [] else [a.event]
  {
    assert (arrivals + [a])[..|arrivals|] == arrivals;
  }

  lemma AppliedInbox(s: State, e: Event)
    requires Good(s) && !Known(s.inbox, KeyOf(e))
    ensures var u := Next(s, Ingest(e, false));
      && Good(u) && u.inbox == s.inbox + [InboxRow(KeyOf(e), Processed, Some(e))]
      && Events(u.log) == Events(s.log) + [e]
  {
    var accepted, n := Next(s, Accept(e)), |s.inbox|;
    AcceptStep(s, e);
    OpenOutcome(accepted, n, false);
    ApplyingStep(accepted, n);
    var u := Applying(accepted, n);
    Snoc(s.log, u.log[|s.log|]);
  }

  lemma AppliedOnArrival(s: State, arrivals: seq<Arrival>, e: Event)
    requires Prompt(s, arrivals) && !Known(s.inbox, KeyOf(e))
    ensures Prompt(Next(s, Ingest(e, false)), arrivals + [Arrival(e, false)])
  {
    var a := Arrival(e, false);
    AppliedInbox(s, e);
    SucceededSnoc(arrivals, a);
    forall key ensures Known(Next(s, Ingest(e, false)).inbox, key) <==> Passed(arrivals + [a], key) {
      CameSnoc(arrivals, a, key);
      KnownSnoc(s.inbox, InboxRow(KeyOf(e), Processed, Some(e)), key);
    }
  }

  lemma IngestPrompt(s: State, arrivals: seq<Arrival>, a: Arrival)
    requires Prompt(s, arrivals)
    ensures Prompt(Next(s, Ingest(a.event, a.fails)), arrivals + [a])
  {
    if !Known(s.inbox, KeyOf(a.event)) && !a.fails {
      AppliedOnArrival(s, arrivals, a.event);
    } else {
      SucceededSnoc(arrivals, a);
      assert Succeeded(arrivals) + [] == Succeeded(arrivals);
      if Known(s.inbox, KeyOf(a.event)) {
        AcceptStep(s, a.event);
      } else {
        FailedIngestIsForgotten(s, a.event);
      }
      forall key ensures Known(Next(s, Ingest(a.event, a.fails)).inbox, key) <==> Passed(arrivals + [a], key) {
        CameSnoc(arrivals, a, key);
        if Known(s.inbox, KeyOf(a.event)) {
          KnownStays(s.inbox, a.event, key);
        }
      }
    }
  }

  lemma {:induction false} SynchronousPrompt(trace: seq<Turn>)
    ensures Prompt(Synchronous(trace), Arrivals(trace))
  {
    if trace != [] {
      var init, turn := trace[..|trace| - 1], trace[|trace| - 1];
      SynchronousPrompt(init);
      if turn.Arrive? {
        IngestPrompt(Synchronous(init), Arrivals(init), turn.arrival);
      }
    }
  }

  // ---------------------------------------------------------------- the two paths side by side

  /** This delivery is the first of its key. */
  ghost predicate CameFirst(arrivals: seq<Arrival>, a: Arrival) {
    exists i :: 0 <= i < |arrivals| && arrivals[i] == a && IsFirst(arrivals, i)
  }

  lemma {:induction false} InFirsts(arrivals: seq<Arrival>, a: Arrival)
    ensures a in Firsts(arrivals) <==> CameFirst(arrivals, a)
  {
    if arrivals != [] {
      var n := |arrivals| - 1;
      var init := arrivals[..n];
      InFirsts(init, a);
      assert forall i :: 0 <= i < n ==> init[..i] == arrivals[..i] && init[i] == arrivals[i];
      assert forall i :: 0 <= i < n ==> (IsFirst(init, i) <==> IsFirst(arrivals, i));
      assert IsFirst(arrivals, n) <==> !Came(init, KeyOf(arrivals[n].event));
    }
  }

  lemma {:induction false} InPassing(arrivals: seq<Arrival>, e: Event)
    ensures e in Passing(arrivals) <==> Arrival(e, false) in arrivals
  {
    if arrivals != [] {
      var init, last := arrivals[..|arrivals| - 1], arrivals[|arrivals| - 1];
      InPassing(init, e);
      assert arrivals == init + [last];
    }
  }

  lemma {:induction false} PassedSucceeded(arrivals: seq<Arrival>, key: DeliveryKey)
    ensures Passed(arrivals, key) ==> exists e :: e in Succeeded(arrivals) && KeyOf(e) == key
  {
    if arrivals != [] {
      var init, last := arrivals[..|arrivals| - 1], arrivals[|arrivals| - 1];
      assert arrivals == init + [last];
      PassedSucceeded(init, key);
      CameSnoc(init, last, key);
      assert forall e :: e in Succeeded(init) ==> e in Succeeded(arrivals);
      if !last.fails && !Passed(init, KeyOf(last.event)) {
        assert last.event in Succeeded(arrivals);
      }
    }
  }

  lemma {:induction false} FirstOf(arrivals: seq<Arrival>, key: DeliveryKey) returns (i: nat)
    requires Came(arrivals, key)
    ensures i < |arrivals| && KeyOf(arrivals[i].event) == key && IsFirst(arrivals, i)
  {
    var n := |arrivals| - 1;
    var init := arrivals[..n];
    if Came(init, key) {
      i := FirstOf(init, key);
      assert init[..i] == arrivals[..i];
    } else {
      i := n;
      CameSnoc(init, arrivals[n], key);
      assert arrivals == init + [arrivals[n]];
    }
  }

  lemma CameBefore(arrivals: seq<Arrival>, k: nat, i: nat)
    requires k < i <= |arrivals|
    ensures Came(arrivals[..i], KeyOf(arrivals[k].event))
  {
    assert arrivals[..i][k] == arrivals[k];
  }

  lemma OneFirst(arrivals: seq<Arrival>, i: nat, k: nat)
    requires i < |arrivals| && k < |arrivals| && KeyOf(arrivals[i].event) == KeyOf(arrivals[k].event)
    requires IsFirst(arrivals, i) && IsFirst(arrivals, k)
    ensures i == k
  {
    if k < i {
      CameBefore(arrivals, k, i);
    } else if i < k {
      CameBefore(arrivals, i, k);
    }
  }

  /** A key that fails first and passes later has succeeded on arrival, and is not taken. */
  lemma UnsteadyDiffers(arrivals: seq<Arrival>, i: nat, j: nat)
    requires i < j < |arrivals| && KeyOf(arrivals[i].event) == KeyOf(arrivals[j].event)
    requires arrivals[i].fails && IsFirst(arrivals, i) && !arrivals[j].fails
    ensures Passing(Firsts(arrivals)) != Succeeded(arrivals)
  {
    var key := KeyOf(arrivals[i].event);
    PassedSucceeded(arrivals, key);
    var e :| e in Succeeded(arrivals) && KeyOf(e) == key;
    InPassing(Firsts(arrivals), e);
    InFirsts(arrivals, Arrival(e, false));
    if k :| 0 <= k < |arrivals| && arrivals[k] == Arrival(e, false) && IsFirst(arrivals, k) {
      OneFirst(arrivals, i, k);
    }
  }

  lemma SteadyInit(init: seq<Arrival>, last: Arrival)
    requires Steady(init + [last])
    ensures Steady(init)
    ensures Came(init, KeyOf(last.event)) && !last.fails ==> Passed(init, KeyOf(last.event))
  {
    var all := init + [last];
    forall i | 0 <= i < |init| ensures IsFirst(init, i) <==> IsFirst(all, i) {
      assert init[..i] == all[..i];
    }
    assert forall i :: 0 <= i < |init| ==> init[i] == all[i];
    if Came(init, KeyOf(last.event)) && !last.fails {
      var i := FirstOf(init, KeyOf(last.event));
      assert all[|init|] == last && IsFirst(all, i);
    }
  }

  lemma {:induction false} SteadyAgrees(arrivals: seq<Arrival>)
    requires Steady(arrivals)
    ensures Passing(Firsts(arrivals)) == Succeeded(arrivals)
  {
    if arrivals != [] {
      var init, last := arrivals[..|arrivals| - 1], arrivals[|arrivals| - 1];
      assert arrivals == init + [last];
      SteadyInit(init, last);
      SteadyAgrees(init);
      assert (Firsts(init) + [last])[..|Firsts(init)|] == Firsts(init) && Firsts(init) + [] == Firsts(init);
    }
  }

  lemma TakenExactly(arrivals: seq<Arrival>)
    ensures Passing(Firsts(arrivals)) == Succeeded(arrivals) <==> Steady(arrivals)
  {
    if Steady(arrivals) {
      SteadyAgrees(arrivals);
    } else {
      var i, j :| 0 <= i < j < |arrivals| && KeyOf(arrivals[i].event) == KeyOf(arrivals[j].event)
        && arrivals[i].fails && IsFirst(arrivals, i) && !arrivals[j].fails;
      UnsteadyDiffers(arrivals, i, j);
    }
  }

  lemma {:induction false} BothReflect(trace: seq<Turn>)
    ensures Reflects(Deferred(trace), Events(Deferred(trace).log))
    ensures Reflects(Synchronous(trace), Events(Synchronous(trace).log))
  {
    if trace != [] {
      var init, turn := trace[..|trace| - 1], trace[|trace| - 1];
      BothReflect(init);
      match turn
      case Arrive(a) =>
        ReflectsStep(Deferred(init), Accept(a.event));
        ReflectsStep(Synchronous(init), Ingest(a.event, a.fails));
      case WorkerPass(limit) => ReflectsStep(Deferred(init), Pass(limit, Failing(Firsts(Arrivals(init)))));
    }
  }

  /** Same log with its late flags, same ledger, same outbox. */
  ghost predicate SameResult(s: State, t: State) {
    s.log == t.log && s.ledger == t.ledger && s.outbox == t.outbox
  }

  /**
    Once drained, the deferred path has the result of the synchronous one if and only if no
    delivery that raises at first would pass when it is delivered again.
   */
  lemma DeferredExactly(trace: seq<Turn>)
    requires Drained(Deferred(trace))
    ensures SameResult(Deferred(trace), Synchronous(trace)) <==> Steady(Arrivals(trace))
  {
    DrainedAppliedTaken(trace);
    SynchronousPrompt(trace);
    TakenExactly(Arrivals(trace));
    BothReflect(trace);
  }

  // ---------------------------------------------------------------- a run that parts them

  lemma TraceSnoc(trace: seq<Turn>, turn: Turn)
    ensures Arrivals(trace + [turn]) == Arrivals(trace) + (if turn.Arrive? then [turn.arrival] else [])
    ensures WorkedOff(trace + [turn]) ==
      WorkedOff(trace) + if turn.Arrive? then 0 else PassSize(|Firsts(Arrivals(trace))|, WorkedOff(trace), turn.limit)
  {
    assert (trace + [turn])[..|trace|] == trace;
  }

  lemma FailedThenPassed(a: Arrival, b: Arrival)
    requires a.event == b.event && a.fails && !b.fails
    ensures Firsts([a] + [b]) == [a] && Passing([a]) == [] && Succeeded([a] + [b]) == [b.event]
  {
    assert ([a] + [b])[..1] == [a] && [a][..0] == [];
    assert Firsts([a]) == [a] && Succeeded([a]) == [];
    assert [a][0] == a && Came([a], KeyOf(b.event));
  }

  /** A delivery that raises and comes again: on arrival it is applied then, deferred it is lost. */
  lemma TransientFailureLost(e: Event)
    ensures var trace := [Arrive(Arrival(e, true))] + [Arrive(Arrival(e, false))] + [WorkerPass(1)];
      && Drained(Deferred(trace)) && Events(Deferred(trace).log) == []
      && Events(Synchronous(trace).log) == [e]
  {
    var a, b := Arrival(e, true), Arrival(e, false);
    var trace := [Arrive(a)] + [Arrive(b)] + [WorkerPass(1)];
    TraceSnoc([], Arrive(a));
    TraceSnoc([Arrive(a)], Arrive(b));
    TraceSnoc([Arrive(a)] + [Arrive(b)], WorkerPass(1));
    FailedThenPassed(a, b);
    assert [] + [Arrive(a)] == [Arrive(a)];
    assert Arrivals(trace) == [a] + [b] && WorkedOff(trace) == 1;
    DeferredQueue(trace);
    SynchronousPrompt(trace);
    assert [a][..1] == [a] && Placed(Deferred(trace).inbox, [a], 1, 0);
  }
}
