/**
  What a dispatch leaves, by the campaign's parameters, the configuration and the
  provider's reply: which row, when nothing at all, and which operations dispatch.
 */
module DispatchRules {
  import opened Common
  import opened PaymentLinks
  import opened Executor
  import opened ExecutorRules
  import R = ExecutorRuns
  import X = Exposure

  // ---------------------------------------------------------------- the size of a campaign

  /** The distinct groups asked for, or else the count asked for, from 1 to 100. */
  function CampaignSize(p: Params): nat {
    var asked := set g | g in p.groups;
    if asked != {} then |asked| else if p.count <= 1 then 1 else if p.count <= 100 then p.count else 100
  }

  lemma {:induction false} DistinctSize(groups: seq<string>)
    ensures |Distinct(groups)| == |set g | g in groups|
    ensures forall g :: g in Distinct(groups) <==> g in groups
  {
    if groups != [] {
      var init, last := groups[..|groups| - 1], groups[|groups| - 1];
      DistinctSize(init);
      assert groups == init + [last];
      var before, all := set g | g in init, set g | g in groups;
      assert all == before + {last};
      assert last in Distinct(init) <==> last in before;
    }
  }

  lemma SizeExactly(p: Params, i: nat)
    ensures |Groups(p, i)| == CampaignSize(p) >= 1
  {
    DistinctSize(p.groups);
    var asked := set g | g in p.groups;
    if p.groups != [] {
      assert p.groups[0] in asked;
    }
  }

  // ---------------------------------------------------------------- when a batch can be issued

  /** The reference is short enough, and what already bears it or its receipt has this amount. */
  predicate Usable(d: Desk, reference: string, amount: int) {
    && |reference| <= 80
    && if exists j :: 0 <= j < |d.links| && d.links[j].reference == reference then
         d.links[Find(d.links, reference)].amount == amount
       else Receipt(reference) in d.orders ==> d.orders[Receipt(reference)].amount == amount
  }

  predicate Offered(p: Params) {
    p.channel in {"whatsapp", "sms", "email"} && 5 <= p.maxDuration <= 1440
  }

  ghost predicate AllUsable(d: Desk, p: Params, i: nat, n: nat) {
    forall k: nat :: 1 <= k <= n ==> Usable(d, Reference(i, k), p.amount)
  }

  /** What is added to links and orders is of one amount. */
  ghost predicate GrowsBy(d: Desk, e: Desk, amount: int) {
    && d.links <= e.links
    && (forall r :: r in d.orders ==> r in e.orders && e.orders[r].amount == d.orders[r].amount)
    && (forall r :: r in e.orders && r !in d.orders ==> e.orders[r].amount == amount)
  }

  lemma CreateExactly(d: Desk, p: Params, i: nat, k: nat, group: string, now: int)
    requires p.amount >= 100
    ensures var r := CreateLink(d, RequestFor(p, i, k, group), now);
      && (r.Success? <==> Offered(p) && Usable(d, Reference(i, k), p.amount))
      && (r.Success? ==> GrowsBy(d, r.value, p.amount))
  {}

  lemma {:induction false} FindIn(a: seq<Link>, b: seq<Link>, reference: string)
    requires a <= b && HasReference(a, reference)
    ensures HasReference(b, reference) && Find(b, reference) == Find(a, reference)
  {
    assert forall j :: 0 <= j < |a| ==> b[j] == a[j];
  }

  lemma UsableLater(d: Desk, e: Desk, amount: int, reference: string)
    requires GrowsBy(d, e, amount)
    requires HasReference(e.links, reference) ==> HasReference(d.links, reference)
    ensures Usable(e, reference, amount) <==> Usable(d, reference, amount)
  {
    hide Receipt;
    if HasReference(d.links, reference) {
      FindIn(d.links, e.links, reference);
    }
  }

  lemma {:induction false} IssueSucceedsExactly(d: Desk, p: Params, i: nat, groups: seq<string>, now: int)
    requires p.amount >= 100
    ensures var r := IssueAll(d, p, i, groups, now);
      && (r.Success? <==> groups == [] || (Offered(p) && AllUsable(d, p, i, |groups|)))
      && (r.Success? ==> GrowsBy(d, r.value, p.amount))
  {
    hide CreateLink, Usable, Reference;
    if groups != [] {
      var n := |groups| - 1;
      IssueSucceedsExactly(d, p, i, groups[..n], now);
      assert AllUsable(d, p, i, n + 1) <==> AllUsable(d, p, i, n) && Usable(d, Reference(i, n + 1), p.amount);
      if IssueAll(d, p, i, groups[..n], now).Success? {
        var e := IssueAll(d, p, i, groups[..n], now).value;
        X.IssueAllAppends(d, p, i, groups[..n], now);
        X.NextTaken(d.links, e.links, i, n);
        UsableLater(d, e, p.amount, Reference(i, n + 1));
        CreateExactly(e, p, i, n + 1, groups[n], now);
      }
    }
  }

  /** Link `k` of a fresh batch: open for the campaign's duration, for its amount and one of its groups. */
  predicate IssuedFor(l: Link, p: Params, i: nat, k: nat, group: string, now: int) {
    && l.reference == Reference(i, k + 1) && l.execution == Some(i) && l.group == group
    && l.amount == p.amount && l.paid == 0 && l.status == Issued && l.expiresAt == now + 60 * p.maxDuration
  }

  /** A batch none of whose references was taken appends one such link a group. */
  lemma BatchIssues(d: Desk, p: Params, i: nat, now: int)
    requires IssueAll(d, p, i, Groups(p, i), now).Success? && X.Untaken(d.links, i, |Groups(p, i)|)
    ensures var groups, links := Groups(p, i), IssueAll(d, p, i, Groups(p, i), now).value.links;
      && |links| == |d.links| + |groups| && links[..|d.links|] == d.links
      && forall k :: 0 <= k < |groups| ==> IssuedFor(links[|d.links| + k], p, i, k, groups[k], now)
  {
    hide IssueAll, Groups, X.NewLinks, X.Untaken;
    var groups := Groups(p, i);
    X.IssueAllExactly(d, p, i, groups, now);
    forall k | 0 <= k < |groups| ensures IssuedFor(X.NewLinks(p, i, groups, now)[k], p, i, k, groups[k], now) {
      X.NewLinksAt(p, i, groups, now, k);
    }
  }

  // ---------------------------------------------------------------- one dispatch

  /** Without leave for real providers, local links stand in for razorpay. */
  predicate Local(cfg: Config, ex: Execution) {
    ex.connector == "razorpay" && !cfg.production && !cfg.allowReal
  }

  predicate Barred(cfg: Config, ex: Execution) {
    ex.connector != "simulator" && !cfg.allowReal && !Local(cfg, ex)
  }

  predicate TooSmallOrDear(p: Params) {
    p.amount < 100 || (p.cap.Some? && p.amount * CampaignSize(p) > p.cap.value)
  }

  predicate Passing(p: Params) {
    p.failureMode in {"timeout", "rate_limit", "provider_5xx"}
  }

  predicate Fails(cfg: Config, ex: Execution, reply: Reply) {
    if Local(cfg, ex) then
      ex.params.kind != "payment_link" || (!Passing(ex.params) && TooSmallOrDear(ex.params))
    else Barred(cfg, ex) || reply == Refused
  }

  predicate Waits(cfg: Config, ex: Execution, reply: Reply) {
    if Local(cfg, ex) then ex.params.kind == "payment_link" && Passing(ex.params)
    else !Barred(cfg, ex) && reply == Transient
  }

  predicate Launches(cfg: Config, ex: Execution, reply: Reply) {
    Local(cfg, ex) && !Fails(cfg, ex, reply) && !Waits(cfg, ex, reply)
  }

  /** The dispatch raises: a batch that cannot be issued, or a provider call that crashes. */
  ghost predicate Raises(cfg: Config, ex: Execution, i: nat, d: Desk, reply: Reply) {
    && !Fails(cfg, ex, reply) && !Waits(cfg, ex, reply)
    && if Local(cfg, ex) then !(Offered(ex.params) && AllUsable(d, ex.params, i, CampaignSize(ex.params)))
       else reply == Crash
  }

  /** The row of a dispatch that does not raise. */
  function RowLeft(cfg: Config, ex: Execution, reply: Reply, now: int): Execution {
    if Fails(cfg, ex, reply) then ex.(state := FailedFinal, outcome := Outcome(false, 0, None, 0, 0, None))
    else if Waits(cfg, ex, reply) then
      var due := now + if ex.params.retryAfter > 0 then ex.params.retryAfter else 0;
      ex.(state := FailedRetryable, outcome := Outcome(false, ex.outcome.retryCount + 1, Some(due), 0, 0, None))
    else
      var partial := if Local(cfg, ex) then ex.params.failureMode == "partial_success" else reply == Done(true);
      ex.(state := if Local(cfg, ex) || partial then Monitoring else Succeeded,
          outcome := Outcome(partial, 0, None, 0, 0, None))
  }

  lemma LocalExactly(cfg: Config, ex: Execution, i: nat, d: Desk, reply: Reply, now: int)
    requires Local(cfg, ex)
    ensures var r := LocalDispatch(ex, i, d, now);
      && (r == None <==> Raises(cfg, ex, i, d, reply))
      && (r.Some? ==>
            && r.value.0 == RowLeft(cfg, ex, reply, now)
            && (!Launches(cfg, ex, reply) ==> r.value.1 == d)
            && (Launches(cfg, ex, reply) ==>
                  IssueAll(d, ex.params, i, Groups(ex.params, i), now) == Success(r.value.1)))
  {
    hide IssueAll, Groups, CampaignSize, AllUsable, Offered;
    SizeExactly(ex.params, i);
    if ex.params.amount >= 100 {
      IssueSucceedsExactly(d, ex.params, i, Groups(ex.params, i), now);
    }
  }

  lemma DispatchExactly(cfg: Config, ex: Execution, i: nat, d: Desk, reply: Reply, now: int)
    ensures var r := DispatchRow(cfg, ex, i, d, reply, now);
      && (r == None <==> Raises(cfg, ex, i, d, reply))
      && (r.Some? ==>
            && r.value.0 == RowLeft(cfg, ex, reply, now)
            && (!Launches(cfg, ex, reply) ==> r.value.1 == d)
            && (Launches(cfg, ex, reply) ==>
                  IssueAll(d, ex.params, i, Groups(ex.params, i), now) == Success(r.value.1)))
  {
    if Local(cfg, ex) {
      hide LocalDispatch, Raises, RowLeft, Launches;
      LocalExactly(cfg, ex, i, d, reply, now);
    }
  }

  // ---------------------------------------------------------------- what dispatches

  /** Row `i`, which is `ex` just before, is dispatched; a dispatch that raises leaves everything as it was. */
  ghost predicate Dispatches(cfg: Config, s: System, u: System, i: nat, ex: Execution, reply: Reply, now: int) {
    if Raises(cfg, ex, i, s.desk, reply) then u == s
    else
      && i < |u.executions| && u.executions[i] == RowLeft(cfg, ex, reply, now)
      && |u.executions| == (if i < |s.executions| then |s.executions| else |s.executions| + 1)
      && (forall j :: 0 <= j < |s.executions| && j != i ==> u.executions[j] == s.executions[j])
      && u.calls == s.calls + [i]
      && (!Launches(cfg, ex, reply) ==> u.desk == s.desk)
      && (Launches(cfg, ex, reply) ==>
            IssueAll(s.desk, ex.params, i, Groups(ex.params, i), now) == Success(u.desk))
  }

  /** A retry is left until it is due, ends the campaign once its budget is spent, and is dispatched otherwise. */
  lemma RetryExactly(cfg: Config, s: System, i: nat, reply: Reply, now: int)
    requires i < |s.executions| && s.executions[i].state == FailedRetryable
    requires now - s.executions[i].createdAt <= 60 * s.executions[i].params.maxDuration
    ensures var ex := s.executions[i];
      var u := R.Next(cfg, s, R.Monitor(i, reply, now));
      if ex.outcome.nextRetryAt == None || ex.outcome.nextRetryAt.value > now then u == s
      else if ex.outcome.retryCount >= ex.params.maxRetries then
        var outcome := ex.outcome.(stopReason := Some("provider_retry_budget_exhausted"));
        RowBecomes(s, u, i, ex.(state := FailedFinal, outcome := outcome)) && u.desk == s.desk
      else Dispatches(cfg, s, u, i, ex.(params := ex.params.(failureMode := "")), reply, now)
  {
    hide DispatchRow, Raises, RowLeft, Launches;
    var ex := s.executions[i];
    DispatchExactly(cfg, ex.(params := ex.params.(failureMode := "")), i, s.desk, reply, now);
  }

  /** Approval dispatches exactly what waits for it. */
  lemma ApprovalExactly(cfg: Config, s: System, i: nat, actor: string, reply: Reply, now: int)
    ensures var u := R.Next(cfg, s, R.Approve(i, actor, reply, now));
      if i < |s.executions| && s.executions[i].state in {Validated, Approved} then
        Dispatches(cfg, s, u, i, s.executions[i].(approvedBy := Some(actor)), reply, now)
      else u == s
  {
    hide DispatchRow, Raises, RowLeft, Launches;
    if i < |s.executions| {
      DispatchExactly(cfg, s.executions[i].(approvedBy := Some(actor)), i, s.desk, reply, now);
    }
  }

  /** A request of a known key changes nothing; a new one is rejected, left waiting or dispatched as decided. */
  lemma RequestExactly(cfg: Config, s: System, r: Request, reply: Reply, now: int)
    ensures var u := R.Next(cfg, s, R.Ask(r, reply, now));
      var ex := Execution(
        r.key, r.params, r.connector, r.decision, ExecState.Created, None, now, Outcome(false, 0, None, 0, 0, None));
      if exists j :: 0 <= j < |s.executions| && s.executions[j].key == r.key then u == s
      else if r.decision == Block then u == s.(executions := s.executions + [ex.(state := RejectedByPolicy)])
      else if r.decision == RequireApproval && r.approver == None then
        u == s.(executions := s.executions + [ex.(state := Validated)])
      else
        var leave := Some(if r.approver == None then r.actor else r.approver.value);
        Dispatches(cfg, s, u, |s.executions|, ex.(approvedBy := leave), reply, now)
  {
    hide DispatchRow, Raises, RowLeft, Launches;
    DispatchExactly(cfg, NewExecution(r, now).(approvedBy := Some(Approver(r))), |s.executions|, s.desk, reply, now);
  }
}
