/**
  What each operation of the executor must do to a campaign, by what its row, its links and
  the provider's reply say: when it is stopped, completed, retried, dispatched or left alone.
 */
module ExecutorRules {
  import opened Common
  import opened PaymentLinks
  import opened Executor
  import R = ExecutorRuns

  // ---------------------------------------------------------------- stopping

  predicate Outstanding(l: Link, i: nat) {
    l.execution == Some(i) && l.status in {Issued, PartiallyPaid}
  }

  /** Row `i` becomes `row`; no other row and no dispatch is touched. */
  ghost predicate RowBecomes(s: System, u: System, i: nat, row: Execution) {
    && i < |s.executions| == |u.executions| && u.calls == s.calls && u.executions[i] == row
    && forall j :: 0 <= j < |s.executions| && j != i ==> u.executions[j] == s.executions[j]
  }

  /** The execution's outstanding links are cancelled; no other link and no order is touched. */
  ghost predicate LinksCancelled(d: Desk, e: Desk, i: nat) {
    && e.orders == d.orders && |e.links| == |d.links|
    && forall j :: 0 <= j < |d.links| ==>
         e.links[j] == if Outstanding(d.links[j], i) then d.links[j].(status := Cancelled) else d.links[j]
  }

  /** Row `i` stops in a state for a reason, and a razorpay campaign's links with it. */
  ghost predicate Stops(s: System, u: System, i: nat, st: ExecState, reason: string) {
    && i < |s.executions|
    && var ex := s.executions[i];
      && RowBecomes(s, u, i, ex.(state := st, outcome := ex.outcome.(stopReason := Some(reason))))
      && (if ex.connector == "razorpay" then LinksCancelled(s.desk, u.desk, i) else u.desk == s.desk)
  }

  lemma NoneOutstanding(s: System, u: System, i: nat, st: ExecState, reason: string)
    requires Stops(s, u, i, st, reason) && s.executions[i].connector == "razorpay"
    ensures forall l :: l in u.desk.links && l.execution == Some(i) ==> l.status in {Paid, Cancelled, Expired}
  {
    forall j | 0 <= j < |u.desk.links| && u.desk.links[j].execution == Some(i)
      ensures u.desk.links[j].status in {Paid, Cancelled, Expired}
    {
      var l := s.desk.links[j];
      assert u.desk.links[j] == if Outstanding(l, i) then l.(status := Cancelled) else l;
      match l.status
      case Issued => case PartiallyPaid => case Paid => case Cancelled => case Expired =>
    }
  }

  lemma HaltExactly(cfg: Config, s: System, i: nat, reason: string, rollback: bool)
    ensures var u := R.Next(cfg, s, R.Halt(i, reason, rollback));
      if i < |s.executions| &&
        s.executions[i].state !in {Succeeded, FailedFinal, RejectedByPolicy, RolledBack, Halted}
      then Stops(s, u, i, if rollback then RolledBack else Halted, reason)
      else u == s
  {}

  /** A campaign past its maximum duration is halted by the next monitoring, whatever else holds of it. */
  lemma OverdueIsHalted(cfg: Config, s: System, i: nat, reply: Reply, now: int)
    requires i < |s.executions| && s.executions[i].state in {Monitoring, Executing, Scheduled, FailedRetryable}
    requires now - s.executions[i].createdAt > 60 * s.executions[i].params.maxDuration
    ensures Stops(s, R.Next(cfg, s, R.Monitor(i, reply, now)), i, Halted, "max_duration_exceeded")
  {}

  lemma OnlyActiveAreMonitored(cfg: Config, s: System, i: nat, reply: Reply, now: int)
    requires i < |s.executions| ==>
      s.executions[i].state !in {Monitoring, Executing, Scheduled, FailedRetryable}
    ensures R.Next(cfg, s, R.Monitor(i, reply, now)) == s
  {}

  // ---------------------------------------------------------------- completion

  /** What each link brought the execution in: its payment once paid, otherwise nothing. */
  function Collected(links: seq<Link>, i: nat): (amounts: seq<int>)
    ensures |amounts| == |links|
  {
    seq(|links|, j requires 0 <= j < |links| =>
      if links[j].execution == Some(i) && links[j].status == Paid then links[j].paid else 0)
  }

  function Total(amounts: seq<int>): int {
    if amounts == [] then 0 else amounts[0] + Total(amounts[1..])
  }

  function PaidOf(links: seq<Link>, i: nat): set<nat> {
    set j: nat | j < |links| && links[j].execution == Some(i) && links[j].status == Paid
  }

  lemma {:induction false} TotalSnoc(amounts: seq<int>, last: int)
    ensures Total(amounts + [last]) == Total(amounts) + last
  {
    if amounts == [] {
      assert amounts + [last] == [last];
    } else {
      TotalSnoc(amounts[1..], last);
      assert (amounts + [last])[1..] == amounts[1..] + [last];
    }
  }

  lemma {:induction false} PaidCountExactly(links: seq<Link>, i: nat)
    ensures PaidLinks(links, i) == |PaidOf(links, i)|
  {
    if links != [] {
      var n := |links| - 1;
      PaidCountExactly(links[..n], i);
      var paid := links[n].execution == Some(i) && links[n].status == Paid;
      var before, after := PaidOf(links[..n], i), PaidOf(links, i);
      forall j ensures j in after <==> j in before || (paid && j == n) {}
      assert after == before + if paid then {n} else {};
    }
  }

  lemma {:induction false} PaidValueExactly(links: seq<Link>, i: nat)
    ensures PaidValue(links, i) == Total(Collected(links, i))
  {
    if links != [] {
      var n := |links| - 1;
      PaidValueExactly(links[..n], i);
      var paid := links[n].execution == Some(i) && links[n].status == Paid;
      TotalSnoc(Collected(links[..n], i), if paid then links[n].paid else 0);
      assert Collected(links, i) == Collected(links[..n], i) + [if paid then links[n].paid else 0];
    }
  }

  /** What a completed campaign records: how many links were paid and what they brought in. */
  function Completion(ex: Execution, links: seq<Link>, i: nat): Execution {
    ex.(state := Succeeded,
        outcome := ex.outcome.(recovered := |PaidOf(links, i)|, recoveredPaise := Total(Collected(links, i))))
  }

  predicate AllClosed(links: seq<Link>, i: nat) {
    && (exists l :: l in links && l.execution == Some(i))
    && forall l :: l in links && l.execution == Some(i) ==> l.status in {Paid, Cancelled, Expired}
  }

  lemma ClosedExactly(links: seq<Link>, i: nat)
    ensures AllClosed(links, i) <==> HasLinks(links, i) && !HasOpenLinks(links, i)
  {
    forall j | 0 <= j < |links| ensures Mine(links[j], i) <==> links[j].execution == Some(i) {}
    assert forall l: Link :: IsOpen(l) <==> l.status !in {Paid, Cancelled, Expired};
  }

  /**
    Within its duration and not waiting to retry, a campaign is rolled back exactly after a
    partial success that is to be rolled back, completed exactly when all its links have
    closed, and otherwise left as it is.
   */
  lemma MonitoredExactly(cfg: Config, s: System, i: nat, reply: Reply, now: int)
    requires i < |s.executions| && s.executions[i].state in {Monitoring, Executing, Scheduled}
    requires now - s.executions[i].createdAt <= 60 * s.executions[i].params.maxDuration
    ensures var ex, links := s.executions[i], s.desk.links;
      var u := R.Next(cfg, s, R.Monitor(i, reply, now));
      if ex.outcome.partial && ex.params.rollbackOnPartial then Stops(s, u, i, RolledBack, "partial_provider_success")
      else if ex.connector == "razorpay" && AllClosed(links, i) then
        RowBecomes(s, u, i, Completion(ex, links, i)) && u.desk == s.desk
      else u == s
  {
    hide HaltedBy, Terminal, PaidLinks, PaidValue, Total, PaidOf, Collected;
    HaltExactly(cfg, s, i, "partial_provider_success", true);
    PaidCountExactly(s.desk.links, i);
    PaidValueExactly(s.desk.links, i);
    ClosedExactly(s.desk.links, i);
  }
}
