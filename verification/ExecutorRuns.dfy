/**
  Control over every run of the executor: one execution a key, nothing dispatched without
  leave, a bounded number of dispatches whatever the provider answers, and terminal states
  that are left by nothing.
 */
module ExecutorRuns {
  import opened Common
  import opened PaymentLinks
  import opened Executor

  datatype Step =
    | Ask(request: Request, reply: Reply, now: int)
    | Approve(execution: nat, actor: string, reply: Reply, now: int)
    | Monitor(execution: nat, reply: Reply, now: int)
    | Halt(execution: nat, reason: string, rollback: bool)
    | IssueLink(link: LinkRequest, now: int)
    | Settle(position: nat, outcome: LinkOutcome, now: int)
    | OpenOrder(amount: int, receipt: string)
    | PayOrder(receipt: string)

  /** A link made by hand may name any execution there is; the foreign key refuses any other. */
  predicate NamesUnknown(r: LinkRequest, n: nat) {
    r.execution.Some? && r.execution.value >= n
  }

  /** The desk after a step of its own, with `n` executions known. */
  function DeskAfter(d: Desk, n: nat, step: Step): Desk {
    match step
    case IssueLink(r, now) =>
      if NamesUnknown(r, n) then d
      else
        (match CreateLink(d, r, now)
         case Success(e) => e
         case Failure(_) => d)
    case Settle(j, o, now) =>
      (match Simulate(d, j, o, now)
       case Success(e) => e
       case Failure(_) => d)
    case OpenOrder(amount, receipt) =>
      if OrderRefusal(d.orders, amount, receipt) == None then d.(orders := OrdersWith(d.orders, amount, receipt)) else d
    case PayOrder(receipt) => d.(orders := OrderPaid(d.orders, receipt))
    case _ => d
  }

  function Next(cfg: Config, s: System, step: Step): System {
    match step
    case Ask(r, reply, now) => Requested(cfg, s, r, reply, now)
    case Approve(i, actor, reply, now) => ApprovedBy(cfg, s, i, actor, reply, now)
    case Monitor(i, reply, now) => Monitored(cfg, s, i, reply, now)
    case Halt(i, reason, rollback) => HaltedBy(s, i, reason, rollback)
    case _ => s.(desk := DeskAfter(s.desk, |s.executions|, step))
  }

  function Run(cfg: Config, s: System, steps: seq<Step>): System {
    if steps == [] then s else Next(cfg, Run(cfg, s, steps[..|steps| - 1]), steps[|steps| - 1])
  }

  // ---------------------------------------------------------------- what a step dispatches

  /** The row a step dispatches, as it is just before, if it dispatches one. */
  function Dispatched(s: System, step: Step): Option<(nat, Execution)> {
    match step
    case Ask(r, _, now) =>
      if HasKey(s.executions, r.key) || r.decision == Block
         || (r.decision == RequireApproval && r.approver == None) then None
      else Some((|s.executions|, NewExecution(r, now).(approvedBy := Some(Approver(r)))))
    case Approve(i, actor, _, _) =>
      if AwaitsApproval(s, i) then Some((i, s.executions[i].(approvedBy := Some(actor)))) else None
    case Monitor(i, _, now) => if Retries(s, i, now) then Some((i, Cleared(s.executions[i]))) else None
    case _ => None
  }

  /** Monitoring dispatches only a due retry, within its duration and budget. */
  predicate Retries(s: System, i: nat, now: int) {
    && i < |s.executions| && s.executions[i].state == FailedRetryable
    && now - s.executions[i].createdAt <= 60 * s.executions[i].params.maxDuration
    && RetryDue(s.executions[i], now) && s.executions[i].outcome.retryCount < s.executions[i].params.maxRetries
  }

  function Cleared(ex: Execution): Execution {
    ex.(params := ex.params.(failureMode := ""))
  }

  function TimeOf(step: Step): int {
    if step.Ask? || step.Approve? || step.Monitor? then step.now else 0
  }

  // ---------------------------------------------------------------- dispatches left

  function Count(calls: seq<nat>, i: nat): nat {
    if calls == [] then 0 else Count(calls[..|calls| - 1], i) + if calls[|calls| - 1] == i then 1 else 0
  }

  lemma CountSnoc(calls: seq<nat>, c: nat, i: nat)
    ensures Count(calls + [c], i) == Count(calls, i) + if c == i then 1 else 0
  {
    assert (calls + [c])[..|calls|] == calls;
  }

  function Budget(p: Params): nat { if p.maxRetries < 1 then 1 else p.maxRetries }

  /** How many dispatches an execution can still see: the measure every dispatch decreases. */
  function Left(ex: Execution): nat {
    match ex.state
    case Validated => Budget(ex.params)
    case FailedRetryable =>
      if ex.outcome.retryCount < ex.params.maxRetries then ex.params.maxRetries - ex.outcome.retryCount else 0
    case _ => 0
  }

  /** The states an execution can be found in between operations. */
  predicate Settled(st: ExecState) {
    st == Validated || st == Monitoring || st == FailedRetryable || Terminal(st)
  }

  /** What holds of a row and of the number of times it was dispatched. */
  predicate RowSound(ex: Execution, calls: nat) {
    && Settled(ex.state)
    && calls + Left(ex) <= Budget(ex.params)
    && (ex.state == FailedRetryable ==> calls == ex.outcome.retryCount >= 1)
    && (ex.state == RejectedByPolicy || ex.state == Validated ==> calls == 0)
    && (ex.state == Validated ==> ex.decision == RequireApproval && ex.approvedBy == None && ex.outcome == NO_OUTCOME)
    && (ex.decision == Block <==> ex.state == RejectedByPolicy)
    && (calls > 0 ==> ex.approvedBy.Some?)
  }

  ghost predicate UniqueKeys(executions: seq<Execution>) {
    forall i, j :: 0 <= i < j < |executions| ==> executions[i].key != executions[j].key
  }

  ghost predicate Good(s: System) {
    && UniqueKeys(s.executions)
    && (forall i :: 0 <= i < |s.executions| ==> RowSound(s.executions[i], Count(s.calls, i)))
    && (forall c :: c in s.calls ==> c < |s.executions|)
  }

  // ---------------------------------------------------------------- one dispatch

  lemma RowDispatch(cfg: Config, ex: Execution, i: nat, d: Desk, reply: Reply, now: int, calls: nat)
    requires ex.decision != Block && ex.approvedBy.Some?
    requires
      || (calls == 0 && ex.outcome.retryCount == 0)
      || (calls == ex.outcome.retryCount && calls < ex.params.maxRetries)
    ensures DispatchRow(cfg, ex, i, d, reply, now).Some? ==>
              var after := DispatchRow(cfg, ex, i, d, reply, now).value.0;
              && RowSound(after, calls + 1)
              && after.state != Validated && after.key == ex.key
              && after.params == ex.params && after.decision == ex.decision && after.createdAt == ex.createdAt
  {}

  lemma {:induction false} CountAbsent(calls: seq<nat>, i: nat)
    requires i !in calls
    ensures Count(calls, i) == 0
  {
    if calls != [] {
      CountAbsent(calls[..|calls| - 1], i);
    }
  }

  lemma ReplacedKeys(executions: seq<Execution>, i: nat, row: Execution)
    requires UniqueKeys(executions) && i < |executions| && row.key == executions[i].key
    ensures UniqueKeys(executions[i := row])
  {}

  /** Replacing one row by a sound one keeps the whole sound; a dispatch adds one call. */
  lemma Replace(s: System, u: System, i: nat, called: bool)
    requires Good(s) && i < |s.executions| == |u.executions|
    requires u.executions == s.executions[i := u.executions[i]] && u.executions[i].key == s.executions[i].key
    requires u.calls == if called then s.calls + [i] else s.calls
    requires RowSound(u.executions[i], Count(s.calls, i) + if called then 1 else 0)
    ensures Good(u)
  {
    hide RowSound, Count;
    ReplacedKeys(s.executions, i, u.executions[i]);
    forall j | 0 <= j < |u.executions| ensures RowSound(u.executions[j], Count(u.calls, j)) {
      CountSnoc(s.calls, i, j);
      assert RowSound(s.executions[j], Count(s.calls, j));
    }
  }

  lemma Append(s: System, u: System, called: bool)
    requires Good(s) && |u.executions| == |s.executions| + 1 && u.executions[..|s.executions|] == s.executions
    requires u.calls == if called then s.calls + [|s.executions|] else s.calls
    requires RowSound(u.executions[|s.executions|], if called then 1 else 0)
    requires !HasKey(s.executions, u.executions[|s.executions|].key)
    ensures Good(u)
  {
    var n := |s.executions|;
    CountAbsent(s.calls, n);
    forall j | 0 <= j < |u.executions| ensures RowSound(u.executions[j], Count(u.calls, j)) {
      CountSnoc(s.calls, n, j);
      assert j < n ==> u.executions[j] == s.executions[j] && RowSound(s.executions[j], Count(s.calls, j));
    }
    assert forall j :: 0 <= j < n ==> u.executions[j] == s.executions[j];
  }

  // ---------------------------------------------------------------- what no step undoes

  /** A row only moves on: a terminal one not at all, and its dispatches left never grow. */
  predicate RowForward(ex: Execution, after: Execution, calls: nat, callsAfter: nat) {
    && after.key == ex.key && after.decision == ex.decision && after.createdAt == ex.createdAt
    && (Terminal(ex.state) ==> after == ex && callsAfter == calls)
    && calls <= callsAfter && callsAfter + Left(after) <= calls + Left(ex)
  }

  ghost predicate Forward(s: System, u: System) {
    && |s.executions| <= |u.executions|
    && forall i :: 0 <= i < |s.executions| ==>
         RowForward(s.executions[i], u.executions[i], Count(s.calls, i), Count(u.calls, i))
  }

  lemma ForwardThrough(s: System, u: System, v: System)
    requires Forward(s, u) && Forward(u, v)
    ensures Forward(s, v)
  {
    forall i | 0 <= i < |s.executions|
      ensures RowForward(s.executions[i], v.executions[i], Count(s.calls, i), Count(v.calls, i))
    {
      assert RowForward(s.executions[i], u.executions[i], Count(s.calls, i), Count(u.calls, i));
      assert RowForward(u.executions[i], v.executions[i], Count(u.calls, i), Count(v.calls, i));
    }
  }

  lemma ForwardStays(ex: Execution, calls: nat)
    ensures RowForward(ex, ex, calls, calls)
  {}

  lemma ReplaceForward(s: System, u: System, i: nat, called: bool)
    requires i < |s.executions| == |u.executions|
    requires u.executions == s.executions[i := u.executions[i]]
    requires u.calls == if called then s.calls + [i] else s.calls
    requires RowForward(s.executions[i], u.executions[i], Count(s.calls, i),
                        Count(s.calls, i) + if called then 1 else 0)
    ensures Forward(s, u)
  {
    hide RowForward, Count;
    forall j | 0 <= j < |s.executions|
      ensures RowForward(s.executions[j], u.executions[j], Count(s.calls, j), Count(u.calls, j))
    {
      CountSnoc(s.calls, i, j);
      ForwardStays(s.executions[j], Count(s.calls, j));
    }
  }

  // ---------------------------------------------------------------- steps

  lemma AskStep(cfg: Config, s: System, r: Request, reply: Reply, now: int)
    requires Good(s)
    ensures Good(Requested(cfg, s, r, reply, now)) && Forward(s, Requested(cfg, s, r, reply, now))
  {
    var u := Requested(cfg, s, r, reply, now);
    if u != s {
      var ex := NewExecution(r, now);
      var called := r.decision != Block && !(r.decision == RequireApproval && r.approver == None);
      if called {
        RowDispatch(cfg, ex.(approvedBy := Some(Approver(r))), |s.executions|, s.desk, reply, now, 0);
      }
      Append(s, u, called);
      forall j | 0 <= j < |s.executions|
        ensures Count(u.calls, j) == Count(s.calls, j) && u.executions[j] == s.executions[j]
      {
        CountSnoc(s.calls, |s.executions|, j);
      }
    }
  }

  lemma ApproveStep(cfg: Config, s: System, i: nat, actor: string, reply: Reply, now: int)
    requires Good(s)
    ensures Good(ApprovedBy(cfg, s, i, actor, reply, now)) && Forward(s, ApprovedBy(cfg, s, i, actor, reply, now))
  {
    if AwaitsApproval(s, i) {
      var ex := s.executions[i].(approvedBy := Some(actor));
      assert RowSound(s.executions[i], Count(s.calls, i));
      RowDispatch(cfg, ex, i, s.desk, reply, now, 0);
      var u := ApprovedBy(cfg, s, i, actor, reply, now);
      if DispatchRow(cfg, ex, i, s.desk, reply, now).Some? {
        Replace(s, u, i, true);
        ReplaceForward(s, u, i, true);
      }
    }
  }

  lemma HaltStep(s: System, i: nat, reason: string, rollback: bool)
    requires Good(s)
    ensures Good(HaltedBy(s, i, reason, rollback)) && Forward(s, HaltedBy(s, i, reason, rollback))
  {
    var u := HaltedBy(s, i, reason, rollback);
    if i < |s.executions| && !Terminal(s.executions[i].state) {
      assert RowSound(s.executions[i], Count(s.calls, i));
      Replace(s, u, i, false);
      ReplaceForward(s, u, i, false);
    }
  }

  lemma RetryDispatch(cfg: Config, s: System, i: nat, reply: Reply, now: int)
    requires Good(s) && i < |s.executions| && s.executions[i].state == FailedRetryable
    requires s.executions[i].outcome.retryCount < s.executions[i].params.maxRetries
    ensures var ex := s.executions[i];
      var u := Dispatch(cfg, s, i, ex.(params := ex.params.(failureMode := "")), reply, now);
      Good(u) && Forward(s, u)
  {
    hide LocalDispatch, ProviderDispatch, Count;
    var ex := s.executions[i];
    var again := ex.(params := ex.params.(failureMode := ""));
    assert RowSound(ex, Count(s.calls, i));
    RowDispatch(cfg, again, i, s.desk, reply, now, Count(s.calls, i));
    if DispatchRow(cfg, again, i, s.desk, reply, now).Some? {
      var u := Dispatch(cfg, s, i, again, reply, now);
      Replace(s, u, i, true);
      ReplaceForward(s, u, i, true);
    }
  }

  lemma RetryStep(cfg: Config, s: System, i: nat, reply: Reply, now: int)
    requires Good(s) && i < |s.executions| && s.executions[i].state == FailedRetryable
    ensures Good(Retried(cfg, s, i, reply, now)) && Forward(s, Retried(cfg, s, i, reply, now))
  {
    var ex, u := s.executions[i], Retried(cfg, s, i, reply, now);
    if RetryDue(ex, now) {
      if ex.outcome.retryCount >= ex.params.maxRetries {
        assert RowSound(ex, Count(s.calls, i));
        Replace(s, u, i, false);
        ReplaceForward(s, u, i, false);
      } else {
        RetryDispatch(cfg, s, i, reply, now);
      }
    }
  }

  lemma MonitorStep(cfg: Config, s: System, i: nat, reply: Reply, now: int)
    requires Good(s)
    ensures Good(Monitored(cfg, s, i, reply, now)) && Forward(s, Monitored(cfg, s, i, reply, now))
  {
    if i < |s.executions| && Active(s.executions[i].state) {
      var ex, u := s.executions[i], Monitored(cfg, s, i, reply, now);
      assert RowSound(ex, Count(s.calls, i));
      if now - ex.createdAt > 60 * ex.params.maxDuration {
        HaltStep(s, i, "max_duration_exceeded", false);
      } else if ex.state == FailedRetryable {
        RetryStep(cfg, s, i, reply, now);
      } else if ex.outcome.partial && ex.params.rollbackOnPartial {
        HaltStep(s, i, "partial_provider_success", true);
      } else if BatchClosed(s, i) {
        Replace(s, u, i, false);
        ReplaceForward(s, u, i, false);
      }
    }
  }

  lemma GoodStep(cfg: Config, s: System, step: Step)
    requires Good(s)
    ensures Good(Next(cfg, s, step)) && Forward(s, Next(cfg, s, step))
  {
    match step
    case Ask(r, reply, now) => AskStep(cfg, s, r, reply, now);
    case Approve(i, actor, reply, now) => ApproveStep(cfg, s, i, actor, reply, now);
    case Monitor(i, reply, now) => MonitorStep(cfg, s, i, reply, now);
    case Halt(i, reason, rollback) => HaltStep(s, i, reason, rollback);
    case _ =>
  }

  // ---------------------------------------------------------------- whole runs

  /**
    In every reachable state keys are unique, a rejected execution was never dispatched, none
    was dispatched without an approver, and none more often than max(1, max_provider_retries);
    terminal rows never change and the dispatches left never grow.
   */
  lemma {:induction false} ControlledRun(cfg: Config, s: System, steps: seq<Step>)
    requires Good(s)
    ensures Good(Run(cfg, s, steps)) && Forward(s, Run(cfg, s, steps))
  {
    if steps != [] {
      var u := Run(cfg, s, steps[..|steps| - 1]);
      ControlledRun(cfg, s, steps[..|steps| - 1]);
      GoodStep(cfg, u, steps[|steps| - 1]);
      ForwardThrough(s, u, Run(cfg, s, steps));
    }
  }

  /** The same, counted: no run dispatches an execution more than its budget. */
  lemma DispatchBound(cfg: Config, steps: seq<Step>, i: nat)
    ensures var u := Run(cfg, START, steps);
      if i < |u.executions| then Count(u.calls, i) <= Budget(u.executions[i].params) else Count(u.calls, i) == 0
  {
    ControlledRun(cfg, START, steps);
    var u := Run(cfg, START, steps);
    if i < |u.executions| {
      assert RowSound(u.executions[i], Count(u.calls, i));
    } else {
      CountAbsent(u.calls, i);
    }
  }

  /** A repeated request does nothing at all, whatever happened to the first one. */
  lemma RepeatedRequest(cfg: Config, s: System, steps: seq<Step>, i: nat, r: Request, reply: Reply, now: int)
    requires Good(s) && i < |s.executions| && r.key == s.executions[i].key
    ensures Requested(cfg, Run(cfg, s, steps), r, reply, now) == Run(cfg, s, steps)
  {
    ControlledRun(cfg, s, steps);
    var u := Run(cfg, s, steps);
    assert RowForward(s.executions[i], u.executions[i], Count(s.calls, i), Count(u.calls, i));
    assert u.executions[i].key == r.key;
  }

  ghost predicate NotApproved(steps: seq<Step>, i: nat) {
    forall step :: step in steps && step.Approve? ==> step.execution != i
  }

  /** Never dispatched, and either still waiting for approval or stopped while waiting. */
  predicate Undispatched(s: System, i: nat) {
    i < |s.executions| && Count(s.calls, i) == 0 && s.executions[i].state in {Validated, Halted, RolledBack}
  }

  lemma UndispatchedStep(cfg: Config, s: System, step: Step, i: nat)
    requires Good(s) && Undispatched(s, i) && (step.Approve? ==> step.execution != i)
    ensures Undispatched(Next(cfg, s, step), i)
  {
    CallsOf(cfg, s, step, i);
    GoodStep(cfg, s, step);
  }

  lemma {:induction false} StaysUndispatched(cfg: Config, s: System, steps: seq<Step>, i: nat)
    requires Good(s) && Undispatched(s, i) && NotApproved(steps, i)
    ensures Undispatched(Run(cfg, s, steps), i)
  {
    if steps != [] {
      var init, last := steps[..|steps| - 1], steps[|steps| - 1];
      assert last in steps;
      StaysUndispatched(cfg, s, init, i);
      ControlledRun(cfg, s, init);
      UndispatchedStep(cfg, Run(cfg, s, init), last, i);
    }
  }

  /** An execution waiting for approval is dispatched by nothing but its approval. */
  lemma PendingWaits(cfg: Config, s: System, steps: seq<Step>, i: nat)
    requires Good(s) && i < |s.executions| && s.executions[i].state == Validated && NotApproved(steps, i)
    ensures Undispatched(Run(cfg, s, steps), i)
  {
    assert RowSound(s.executions[i], Count(s.calls, i));
    StaysUndispatched(cfg, s, steps, i);
  }

  /** Which execution a step may dispatch. */
  lemma CallsGrow(cfg: Config, s: System, step: Step)
    ensures var calls := Next(cfg, s, step).calls;
      || calls == s.calls
      || (step.Ask? && calls == s.calls + [|s.executions|])
      || ((step.Approve? || step.Monitor?) && calls == s.calls + [step.execution])
  {}

  lemma CallsOf(cfg: Config, s: System, step: Step, i: nat)
    requires i < |s.executions|
    ensures Count(Next(cfg, s, step).calls, i) > Count(s.calls, i) ==>
      (step.Approve? || step.Monitor?) && step.execution == i
  {
    CallsGrow(cfg, s, step);
    var calls := Next(cfg, s, step).calls;
    if calls != s.calls {
      CountSnoc(s.calls, calls[|s.calls|], i);
    }
  }
}
