/**
  Policy-gated execution of recovery actions for one merchant: request, approve, dispatch
  to a provider or to the local payment links, monitor, halt.

  The policy verdict and the provider's answer are inputs. Every operation is taken as
  one transaction: an exception other than the two provider errors (`Crash`, or a local error
  while issuing links) rolls it back. Times are seconds.
 */
module Executor {
  import opened Common
  import opened Decimal
  import opened Names
  import opened PaymentLinks

  const RAZORPAY := "razorpay"
  const SIMULATOR := "simulator"

  datatype Config = Config(production: bool, allowReal: bool)

  datatype Decision = Allow | RequireApproval | Block

  datatype ExecState =
    | Created | Validated | Approved | Scheduled | Executing | Monitoring
    | Succeeded | FailedRetryable | FailedFinal | RejectedByPolicy | Halted | RolledBack

  datatype Params = Params(
    kind: string, failureMode: string, groups: seq<string>, count: int, amount: int, cap: Option<int>,
    channel: string, maxDuration: int, maxRetries: int, rollbackOnPartial: bool, retryAfter: int)

  datatype Outcome = Outcome(
    partial: bool, retryCount: nat, nextRetryAt: Option<int>,
    recovered: nat, recoveredPaise: int, stopReason: Option<string>)

  datatype Execution = Execution(
    key: string, params: Params, connector: string, decision: Decision,
    state: ExecState, approvedBy: Option<string>, createdAt: int, outcome: Outcome)

  /** What the provider does with a dispatched action. */
  datatype Reply = Done(partial: bool) | Transient | Refused | Crash

  /** `calls` lists the executions dispatched, in order; a rolled-back dispatch is not listed. */
  datatype System = System(executions: seq<Execution>, desk: Desk, calls: seq<nat>)

  datatype Request = Request(
    key: string, params: Params, connector: string, decision: Decision, approver: Option<string>, actor: string)

  const NO_OUTCOME := Outcome(false, 0, None, 0, 0, None)
  const START := System([], NO_LINKS, [])

  predicate Terminal(st: ExecState) {
    st in {Succeeded, FailedFinal, RejectedByPolicy, RolledBack, Halted}
  }

  predicate Active(st: ExecState) {
    st in {Monitoring, Executing, Scheduled, FailedRetryable}
  }

  // ---------------------------------------------------------------- outcomes of a dispatch

  function Failed(ex: Execution): Execution {
    ex.(state := FailedFinal, outcome := NO_OUTCOME)
  }

  function ToRetry(ex: Execution, now: int): Execution {
    var wait := if ex.params.retryAfter < 0 then 0 else ex.params.retryAfter;
    ex.(state := FailedRetryable, outcome := Outcome(false, ex.outcome.retryCount + 1, Some(now + wait), 0, 0, None))
  }

  function Finished(ex: Execution, partial: bool): Execution {
    ex.(state := if partial then Monitoring else Succeeded, outcome := NO_OUTCOME.(partial := partial))
  }

  function Started(ex: Execution): Execution {
    ex.(state := Monitoring, outcome := NO_OUTCOME.(partial := ex.params.failureMode == "partial_success"))
  }

  // ---------------------------------------------------------------- local payment links

  function HumanId(i: nat): string { "ACT-" + Digits(5000 + i + 1) }

  function Distinct(groups: seq<string>): seq<string> {
    if groups == [] then []
    else
      var d, g := Distinct(groups[..|groups| - 1]), groups[|groups| - 1];
      if g in d then d else d + [g]
  }

  function Numbered(human: string, n: nat): (groups: seq<string>)
    ensures |groups| == n
  {
    if n == 0 then [] else Numbered(human, n - 1) + [human + "-group-" + Digits(n)]
  }

  function GroupCount(p: Params): nat {
    if p.count < 1 then 1 else if p.count > 100 then 100 else p.count
  }

  /** The treatment groups of an execution: the distinct ones asked for, or numbered ones. */
  function Groups(p: Params, i: nat): seq<string> {
    if Distinct(p.groups) != [] then Distinct(p.groups) else Numbered(HumanId(i), GroupCount(p))
  }

  function Reference(i: nat, index: nat): string { HumanId(i) + "-" + Digits(index) }

  /** The executor's references need no generating and no stripping. */
  lemma ReferenceIsNamed(i: nat, index: nat)
    ensures NameOr(Reference(i, index), "recovery-", "") == Reference(i, index)
  {
    var s := Reference(i, index);
    assert s[0] == 'A' && s[|s| - 1] == Digits(index)[|Digits(index)| - 1] && IsDigit(s[|s| - 1]);
    NameKept(s, "recovery-", "");
  }

  function RequestFor(p: Params, i: nat, index: nat, group: string): LinkRequest {
    LinkRequest(p.amount, Reference(i, index), group, Some(i), p.channel, p.maxDuration)
  }

  /** One link a group, numbered from 1; the first error stops the batch. */
  function IssueAll(d: Desk, p: Params, i: nat, groups: seq<string>, now: int): Result<Desk, LocalError> {
    if groups == [] then Success(d)
    else
      var n := |groups| - 1;
      match IssueAll(d, p, i, groups[..n], now)
      case Failure(e) => Failure(e)
      case Success(issued) => CreateLink(issued, RequestFor(p, i, n + 1, groups[n]), now)
  }

  predicate Transitory(failureMode: string) {
    failureMode in {"timeout", "rate_limit", "provider_5xx"}
  }

  /** The campaign is refused below the minimum amount or above its value cap. */
  predicate Affordable(p: Params, groups: seq<string>) {
    p.amount >= MIN_AMOUNT && (p.cap == None || p.amount * |groups| <= p.cap.value)
  }

  /** The row after a local dispatch that does not reach the links, if that is how it ends. */
  function LocalRefusal(ex: Execution, i: nat, now: int): Option<Execution> {
    if ex.params.kind != "payment_link" then Some(Failed(ex))
    else if Transitory(ex.params.failureMode) then Some(ToRetry(ex, now))
    else if !Affordable(ex.params, Groups(ex.params, i)) then Some(Failed(ex))
    else None
  }

  function LocalDispatch(ex: Execution, i: nat, d: Desk, now: int): Option<(Execution, Desk)> {
    if LocalRefusal(ex, i, now).Some? then Some((LocalRefusal(ex, i, now).value, d))
    else
      match IssueAll(d, ex.params, i, Groups(ex.params, i), now)
      case Failure(_) => None
      case Success(issued) => Some((Started(ex), issued))
  }

  // ---------------------------------------------------------------- dispatch

  predicate UsesLocalLinks(cfg: Config, ex: Execution) {
    ex.connector == RAZORPAY && !cfg.production && !cfg.allowReal
  }

  function ProviderDispatch(ex: Execution, reply: Reply, now: int): Option<Execution> {
    match reply
    case Done(partial) => Some(Finished(ex, partial))
    case Transient => Some(ToRetry(ex, now))
    case Refused => Some(Failed(ex))
    case Crash => None
  }

  /** Row and links after a dispatch; nothing when it is rolled back. */
  function DispatchRow(cfg: Config, ex: Execution, i: nat, d: Desk, reply: Reply, now: int): Option<(Execution, Desk)> {
    if UsesLocalLinks(cfg, ex) then LocalDispatch(ex, i, d, now)
    else if ex.connector != SIMULATOR && !cfg.allowReal then Some((Failed(ex), d))
    else
      match ProviderDispatch(ex, reply, now)
      case None => None
      case Some(after) => Some((after, d))
  }

  /** Dispatches row `i`, which was `ex` just before. */
  function Dispatch(cfg: Config, s: System, i: nat, ex: Execution, reply: Reply, now: int): System
    requires i < |s.executions|
  {
    match DispatchRow(cfg, ex, i, s.desk, reply, now)
    case None => s
    case Some((after, desk)) => System(s.executions[i := after], desk, s.calls + [i])
  }

  // ---------------------------------------------------------------- operations

  predicate HasKey(executions: seq<Execution>, key: string) {
    exists i :: 0 <= i < |executions| && executions[i].key == key
  }

  function NewExecution(r: Request, now: int): Execution {
    Execution(r.key, r.params, r.connector, r.decision, Created, None, now, NO_OUTCOME)
  }

  function Approver(r: Request): string {
    if r.approver.Some? then r.approver.value else r.actor
  }

  /** A known key changes nothing; a new one is rejected, left waiting, or dispatched. */
  function Requested(cfg: Config, s: System, r: Request, reply: Reply, now: int): System {
    var ex := NewExecution(r, now);
    if HasKey(s.executions, r.key) then s
    else if r.decision == Block then s.(executions := s.executions + [ex.(state := RejectedByPolicy)])
    else if r.decision == RequireApproval && r.approver == None then
      s.(executions := s.executions + [ex.(state := Validated)])
    else
      match DispatchRow(cfg, ex.(approvedBy := Some(Approver(r))), |s.executions|, s.desk, reply, now)
      case None => s
      case Some((after, desk)) => System(s.executions + [after], desk, s.calls + [|s.executions|])
  }

  predicate AwaitsApproval(s: System, i: nat) {
    i < |s.executions| && s.executions[i].state in {Validated, Approved}
  }

  function ApprovedBy(cfg: Config, s: System, i: nat, actor: string, reply: Reply, now: int): System {
    if AwaitsApproval(s, i) then Dispatch(cfg, s, i, s.executions[i].(approvedBy := Some(actor)), reply, now) else s
  }

  function Stopped(ex: Execution, reason: string, st: ExecState): Execution {
    ex.(state := st, outcome := ex.outcome.(stopReason := Some(reason)))
  }

  function HaltedBy(s: System, i: nat, reason: string, rollback: bool): System {
    if i >= |s.executions| || Terminal(s.executions[i].state) then s
    else
      s.(executions := s.executions[i := Stopped(s.executions[i], reason, if rollback then RolledBack else Halted)],
         desk := if s.executions[i].connector == RAZORPAY then s.desk.(links := CancelOpen(s.desk.links, i))
                 else s.desk)
  }

  predicate Mine(l: Link, i: nat) { l.execution == Some(i) }

  /** The links of an execution that are paid, and what they brought in. */
  function PaidLinks(links: seq<Link>, i: nat): nat {
    if links == [] then 0
    else
      var l := links[|links| - 1];
      PaidLinks(links[..|links| - 1], i) + if Mine(l, i) && l.status == Paid then 1 else 0
  }

  function PaidValue(links: seq<Link>, i: nat): int {
    if links == [] then 0
    else
      var l := links[|links| - 1];
      PaidValue(links[..|links| - 1], i) + if Mine(l, i) && l.status == Paid then l.paid else 0
  }

  predicate HasLinks(links: seq<Link>, i: nat) {
    exists j :: 0 <= j < |links| && Mine(links[j], i)
  }

  predicate HasOpenLinks(links: seq<Link>, i: nat) {
    exists j :: 0 <= j < |links| && Mine(links[j], i) && IsOpen(links[j])
  }

  /** Every link of the batch has closed: the execution is complete. */
  predicate BatchClosed(s: System, i: nat)
    requires i < |s.executions|
  {
    s.executions[i].connector == RAZORPAY && HasLinks(s.desk.links, i) && !HasOpenLinks(s.desk.links, i)
  }

  function Completed(ex: Execution, links: seq<Link>, i: nat): Execution {
    ex.(state := Succeeded,
        outcome := ex.outcome.(recovered := PaidLinks(links, i), recoveredPaise := PaidValue(links, i)))
  }

  predicate RetryDue(ex: Execution, now: int) {
    ex.outcome.nextRetryAt.Some? && ex.outcome.nextRetryAt.value <= now
  }

  function Retried(cfg: Config, s: System, i: nat, reply: Reply, now: int): System
    requires i < |s.executions|
  {
    var ex := s.executions[i];
    if !RetryDue(ex, now) then s
    else if ex.outcome.retryCount >= ex.params.maxRetries then
      s.(executions := s.executions[i := Stopped(ex, "provider_retry_budget_exhausted", FailedFinal)])
    else Dispatch(cfg, s, i, ex.(params := ex.params.(failureMode := "")), reply, now)
  }

  function Monitored(cfg: Config, s: System, i: nat, reply: Reply, now: int): System {
    if i >= |s.executions| || !Active(s.executions[i].state) then s
    else
      var ex := s.executions[i];
      if now - ex.createdAt > 60 * ex.params.maxDuration then HaltedBy(s, i, "max_duration_exceeded", false)
      else if ex.state == FailedRetryable then Retried(cfg, s, i, reply, now)
      else if ex.outcome.partial && ex.params.rollbackOnPartial then HaltedBy(s, i, "partial_provider_success", true)
      else if BatchClosed(s, i) then s.(executions := s.executions[i := Completed(ex, s.desk.links, i)])
      else s
  }

  // ---------------------------------------------------------------- the tables

  class ExecutorTables {
    const cfg: Config
    const desk: LinkDesk
    var executions: seq<Execution>
    ghost var calls: seq<nat>

    ghost function Model(): System
      reads this, desk
    {
      System(executions, desk.Model(), calls)
    }

    constructor (cfg: Config, desk: LinkDesk)
      ensures this.cfg == cfg && this.desk == desk && executions == [] && calls == []
    {
      this.cfg, this.desk := cfg, desk;
      executions, calls := [], [];
    }

    method DistinctGroups(groups: seq<string>) returns (d: seq<string>)
      ensures d == Distinct(groups)
    {
      d := [];
      for k := 0 to |groups|
        invariant d == Distinct(groups[..k])
      {
        assert groups[..k + 1][..k] == groups[..k];
        if groups[k] !in d {
          d := d + [groups[k]];
        }
      }
      assert groups[..|groups|] == groups;
    }

    method GroupsFor(p: Params, i: nat) returns (groups: seq<string>)
      ensures groups == Groups(p, i)
    {
      groups := DistinctGroups(p.groups);
      if groups == [] {
        var n := GroupCount(p);
        for k := 0 to n
          invariant groups == Numbered(HumanId(i), k)
        {
          groups := groups + [HumanId(i) + "-group-" + Digits(k + 1)];
        }
      }
    }

    /** Issues the batch; on the first local error the desk is rolled back. */
    method IssueBatch(p: Params, i: nat, groups: seq<string>, now: int) returns (ok: bool)
      modifies desk
      ensures match IssueAll(old(desk.Model()), p, i, groups, now)
        case Failure(_) => !ok && desk.Model() == old(desk.Model())
        case Success(issued) => ok && desk.Model() == issued
    {
      var links, orders := desk.links, desk.orders;
      for k := 0 to |groups|
        invariant IssueAll(old(desk.Model()), p, i, groups[..k], now) == Success(desk.Model())
      {
        assert groups[..k + 1][..k] == groups[..k];
        ReferenceIsNamed(i, k + 1);
        var r := desk.CreatePaymentLink(RequestFor(p, i, k + 1, groups[k]), "", now);
        if r.Failure? {
          IssueStops(old(desk.Model()), p, i, groups, k + 1, now);
          desk.links, desk.orders := links, orders;
          return false;
        }
      }
      assert groups[..|groups|] == groups;
      return true;
    }

    /** The row after a dispatch, or nothing when the transaction is rolled back. */
    method DispatchLocalPaymentLinks(ex: Execution, i: nat, now: int) returns (after: Option<Execution>)
      modifies desk
      ensures match LocalDispatch(ex, i, old(desk.Model()), now)
        case None => after == None && desk.Model() == old(desk.Model())
        case Some((row, d)) => after == Some(row) && desk.Model() == d
    {
      if ex.params.kind != "payment_link" {
        return Some(Failed(ex));
      }
      if Transitory(ex.params.failureMode) {
        return Some(ToRetry(ex, now));
      }
      var groups := GroupsFor(ex.params, i);
      if ex.params.amount < MIN_AMOUNT {
        return Some(Failed(ex));
      }
      if ex.params.cap.Some? && ex.params.amount * |groups| > ex.params.cap.value {
        return Some(Failed(ex));
      }
      var ok := IssueBatch(ex.params, i, groups, now);
      return if ok then Some(Started(ex)) else None;
    }

    method DispatchAction(ex: Execution, i: nat, reply: Reply, now: int) returns (after: Option<Execution>)
      modifies desk
      ensures match DispatchRow(cfg, ex, i, old(desk.Model()), reply, now)
        case None => after == None && desk.Model() == old(desk.Model())
        case Some((row, d)) => after == Some(row) && desk.Model() == d
    {
      if ex.connector == RAZORPAY && !cfg.production && !cfg.allowReal {
        after := DispatchLocalPaymentLinks(ex, i, now);
        return;
      }
      if ex.connector != SIMULATOR && !cfg.allowReal {
        return Some(Failed(ex));
      }
      match reply
      case Done(partial) => return Some(Finished(ex, partial));
      case Transient => return Some(ToRetry(ex, now));
      case Refused => return Some(Failed(ex));
      case Crash => return None;
    }

    method FindKey(key: string) returns (i: Option<nat>)
      ensures i.Some? <==> HasKey(executions, key)
      ensures i.Some? ==> i.value < |executions| && executions[i.value].key == key
    {
      for k := 0 to |executions|
        invariant forall j :: 0 <= j < k ==> executions[j].key != key
      {
        if executions[k].key == key {
          return Some(k);
        }
      }
      return None;
    }

    /** The execution of the request's key, or none when the transaction is rolled back. */
    method RequestExecution(r: Request, reply: Reply, now: int) returns (i: Option<nat>)
      modifies this, desk
      ensures Model() == Requested(cfg, old(Model()), r, reply, now)
      ensures i.Some? ==> i.value < |executions| && executions[i.value].key == r.key
      ensures i == None ==> Model() == old(Model())
    {
      i := FindKey(r.key);
      if i.Some? {
        return;
      }
      var ex := Execution(r.key, r.params, r.connector, r.decision, Created, None, now, NO_OUTCOME);
      if r.decision == Block {
        executions := executions + [ex.(state := RejectedByPolicy)];
        return Some(|executions| - 1);
      }
      if r.decision == RequireApproval && r.approver == None {
        executions := executions + [ex.(state := Validated)];
        return Some(|executions| - 1);
      }
      ex := ex.(approvedBy := Some(if r.approver.Some? then r.approver.value else r.actor));
      var after := DispatchAction(ex, |executions|, reply, now);
      if after == None {
        return None;
      }
      calls := calls + [|executions|];
      executions := executions + [after.value];
      return Some(|executions| - 1);
    }

    /** Dispatches an existing row, keeping the tables as they were if it is rolled back. */
    method DispatchExisting(i: nat, ex: Execution, reply: Reply, now: int)
      requires i < |executions|
      modifies this, desk
      ensures Model() == Dispatch(cfg, old(Model()), i, ex, reply, now)
    {
      var after := DispatchAction(ex, i, reply, now);
      if after.Some? {
        executions := executions[i := after.value];
        calls := calls + [i];
      }
    }

    /** Fails, changing nothing, unless the execution awaits approval. */
    method ApproveAndExecute(i: nat, actor: string, reply: Reply, now: int) returns (ok: bool)
      modifies this, desk
      ensures ok == AwaitsApproval(old(Model()), i)
      ensures Model() == ApprovedBy(cfg, old(Model()), i, actor, reply, now)
    {
      if i >= |executions| || (executions[i].state != Validated && executions[i].state != Approved) {
        return false;
      }
      DispatchExisting(i, executions[i].(approvedBy := Some(actor)), reply, now);
      return true;
    }

    method HaltExecution(i: nat, reason: string, rollback: bool)
      modifies this, desk
      ensures Model() == HaltedBy(old(Model()), i, reason, rollback)
    {
      if i >= |executions| || Terminal(executions[i].state) {
        return;
      }
      if executions[i].connector == RAZORPAY {
        var cancelled := desk.CancelOpenLinks(i);
      }
      executions := executions[i := Stopped(executions[i], reason, if rollback then RolledBack else Halted)];
    }

    /** Whether the execution has links, whether any is open, and the sums over the paid ones. */
    method SettleLinks(i: nat) returns (some: bool, open: bool, count: nat, value: int)
      ensures some == HasLinks(desk.links, i) && open == HasOpenLinks(desk.links, i)
      ensures count == PaidLinks(desk.links, i) && value == PaidValue(desk.links, i)
    {
      some, open, count, value := false, false, 0, 0;
      var links := desk.links;
      for k := 0 to |links|
        invariant some <==> exists j :: 0 <= j < k && Mine(links[j], i)
        invariant open <==> exists j :: 0 <= j < k && Mine(links[j], i) && IsOpen(links[j])
        invariant count == PaidLinks(links[..k], i) && value == PaidValue(links[..k], i)
      {
        assert links[..k + 1][..k] == links[..k];
        if links[k].execution == Some(i) {
          some := true;
          if links[k].status == Issued || links[k].status == PartiallyPaid {
            open := true;
          }
          if links[k].status == Paid {
            count, value := count + 1, value + links[k].paid;
          }
        }
      }
      assert links[..|links|] == links;
    }

    method RetryExecution(i: nat, reply: Reply, now: int)
      requires i < |executions|
      modifies this, desk
      ensures Model() == Retried(cfg, old(Model()), i, reply, now)
    {
      var ex := executions[i];
      if ex.outcome.nextRetryAt.None? || ex.outcome.nextRetryAt.value > now {
        return;
      }
      if ex.outcome.retryCount >= ex.params.maxRetries {
        executions := executions[i := Stopped(ex, "provider_retry_budget_exhausted", FailedFinal)];
        return;
      }
      DispatchExisting(i, ex.(params := ex.params.(failureMode := "")), reply, now);
    }

    method MonitorExecution(i: nat, reply: Reply, now: int)
      modifies this, desk
      ensures Model() == Monitored(cfg, old(Model()), i, reply, now)
    {
      if i >= |executions| || !Active(executions[i].state) {
        return;
      }
      var ex := executions[i];
      if now - ex.createdAt > 60 * ex.params.maxDuration {
        HaltExecution(i, "max_duration_exceeded", false);
        return;
      }
      if ex.state == FailedRetryable {
        RetryExecution(i, reply, now);
        return;
      }
      if ex.outcome.partial && ex.params.rollbackOnPartial {
        HaltExecution(i, "partial_provider_success", true);
        return;
      }
      if ex.connector == RAZORPAY {
        var some, open, count, value := SettleLinks(i);
        if some && !open {
          var outcome := ex.outcome.(recovered := count, recoveredPaise := value);
          executions := executions[i := ex.(state := Succeeded, outcome := outcome)];
        }
      }
    }
  }

  lemma {:induction false} IssueStops(d: Desk, p: Params, i: nat, groups: seq<string>, k: nat, now: int)
    requires k <= |groups| && IssueAll(d, p, i, groups[..k], now).Failure?
    ensures IssueAll(d, p, i, groups, now).Failure?
    decreases |groups|
  {
    if k == |groups| {
      assert groups[..k] == groups;
    } else {
      assert groups[..|groups| - 1][..k] == groups[..k];
      IssueStops(d, p, i, groups[..|groups| - 1], k, now);
    }
  }
}
