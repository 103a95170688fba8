/**
  Bounded exposure over runs of the executor and its payment links. It rests on each
  execution having only the links of its own launch, which a step keeps exactly when it
  issues no link by hand that names an execution, and launches no campaign under a reference
  already taken. The interface allows both; the bound itself survives a link made by hand
  exactly when that link could pass for the batch of an execution that has none.
 */
module ExposureRuns {
  import opened Common
  import opened Decimal
  import opened PaymentLinks
  import opened Executor
  import opened Exposure
  import R = ExecutorRuns

  // ---------------------------------------------------------------- what a step asks for

  /** A dispatch of this row issues its batch of links. */
  predicate IssuesBatch(cfg: Config, ex: Execution, i: nat, d: Desk, now: int) {
    && UsesLocalLinks(cfg, ex) && LocalRefusal(ex, i, now) == None
    && IssueAll(d, ex.params, i, Groups(ex.params, i), now).Success?
  }

  /** A request made by hand issues a new link. */
  predicate IssuesLink(s: System, r: LinkRequest, now: int) {
    !R.NamesUnknown(r, |s.executions|) && CreateLink(s.desk, r, now).Success?
    && !HasReference(s.desk.links, r.reference)
  }

  /** No new link by hand names an execution; no batch is issued under a taken reference. */
  ghost predicate Keeps(cfg: Config, s: System, step: R.Step) {
    if step.IssueLink? then IssuesLink(s, step.link, step.now) ==> step.link.execution == None
    else
      var row := R.Dispatched(s, step);
      row.Some? && IssuesBatch(cfg, row.value.1, row.value.0, s.desk, R.TimeOf(step)) ==>
        Untaken(s.desk.links, row.value.0, |Groups(row.value.1.params, row.value.0)|)
  }

  // ---------------------------------------------------------------- dispatch

  lemma DispatchExactly(cfg: Config, ex: Execution, i: nat, d: Desk, reply: Reply, now: int)
    requires Sound(d) && !HasLinks(d.links, i) && DispatchRow(cfg, ex, i, d, reply, now).Some?
    ensures var (after, e) := DispatchRow(cfg, ex, i, d, reply, now).value;
      && Sound(e) && Forward(d, e) && (forall j :: |d.links| <= j < |e.links| ==> Mine(e.links[j], i))
      && (Exposed(cfg, after, e.links, i) <==>
            (IssuesBatch(cfg, ex, i, d, now) ==> Untaken(d.links, i, |Groups(ex.params, i)|)))
  {
    var (after, e) := DispatchRow(cfg, ex, i, d, reply, now).value;
    if IssuesBatch(cfg, ex, i, d, now) {
      var groups := Groups(ex.params, i);
      LaunchExactly(cfg, ex, i, d, now);
      IssueAllSound(d, ex.params, i, groups, now);
      IssueAllAppends(d, ex.params, i, groups, now);
      forall j | |d.links| <= j < |e.links| ensures Mine(e.links[j], i) {
        assert IssuedBy(e.links[j], i, |groups|);
      }
    } else {
      NoneMineSums(d.links, i);
      assert e == d;
    }
  }

  lemma DispatchStep(cfg: Config, s: System, i: nat, ex: Execution, reply: Reply, now: int)
    requires Good(cfg, s) && i < |s.executions| && s.executions[i].state in {Validated, Approved, FailedRetryable}
    ensures Good(cfg, Dispatch(cfg, s, i, ex, reply, now)) <==>
      (IssuesBatch(cfg, ex, i, s.desk, now) ==> Untaken(s.desk.links, i, |Groups(ex.params, i)|))
  {
    assert Exposed(cfg, s.executions[i], s.desk.links, i);
    if DispatchRow(cfg, ex, i, s.desk, reply, now).Some? {
      DispatchExactly(cfg, ex, i, s.desk, reply, now);
      RowStep(cfg, s, Dispatch(cfg, s, i, ex, reply, now), i);
    }
  }

  lemma NobodysLinks(cfg: Config, s: System)
    requires Good(cfg, s)
    ensures !HasLinks(s.desk.links, |s.executions|)
  {
    forall j | 0 <= j < |s.desk.links| ensures !Mine(s.desk.links[j], |s.executions|) {
      assert Owned(s.desk.links[j], |s.executions|);
    }
  }

  lemma AskStep(cfg: Config, s: System, step: R.Step)
    requires Good(cfg, s) && step.Ask?
    ensures Good(cfg, R.Next(cfg, s, step)) <==> Keeps(cfg, s, step)
  {
    var u, n := R.Next(cfg, s, step), |s.executions|;
    NobodysLinks(cfg, s);
    if R.Dispatched(s, step).Some? {
      var ex := R.Dispatched(s, step).value.1;
      if DispatchRow(cfg, ex, n, s.desk, step.reply, step.now).Some? {
        DispatchExactly(cfg, ex, n, s.desk, step.reply, step.now);
        RowStep(cfg, s, u, n);
      }
    } else if u != s {
      NoneMineSums(s.desk.links, n);
      RowStep(cfg, s, u, n);
    }
  }

  // ---------------------------------------------------------------- halting and monitoring

  lemma CancelCloses(links: seq<Link>, i: nat)
    ensures !HasOpenLinks(CancelOpen(links, i), i)
  {
    var after := CancelOpen(links, i);
    forall j | 0 <= j < |after| && Mine(after[j], i) ensures !IsOpen(after[j]) {
      assert after[j] == CancelledIf(links[j], i);
    }
  }

  /** A halted execution has none of its links open, and keeps the batch it had. */
  lemma HaltedRow(cfg: Config, ex: Execution, d: Desk, i: nat, reason: string, st: ExecState)
    requires Sound(d) && Exposed(cfg, ex, d.links, i) && (st == Halted || st == RolledBack)
    ensures Exposed(cfg, Stopped(ex, reason, st),
                    if ex.connector == RAZORPAY then CancelOpen(d.links, i) else d.links, i)
  {
    if HasLinks(d.links, i) {
      var at :| BatchAt(d.links, ex.params, i, at);
      CancelSound(d, i);
      CancelCloses(d.links, i);
      FrameBatch(d.links, CancelOpen(d.links, i), ex.params, i, at);
    } else if ex.connector == RAZORPAY {
      CancelSound(d, i);
      FrameLinks(d.links, CancelOpen(d.links, i), i);
    }
  }

  lemma HaltStep(cfg: Config, s: System, i: nat, reason: string, rollback: bool)
    requires Good(cfg, s)
    ensures Good(cfg, HaltedBy(s, i, reason, rollback))
  {
    if i < |s.executions| && !Terminal(s.executions[i].state) {
      assert Exposed(cfg, s.executions[i], s.desk.links, i);
      CancelSound(s.desk, i);
      HaltedRow(cfg, s.executions[i], s.desk, i, reason, if rollback then RolledBack else Halted);
      RowStep(cfg, s, HaltedBy(s, i, reason, rollback), i);
    }
  }

  lemma RetryStep(cfg: Config, s: System, step: R.Step)
    requires Good(cfg, s) && step.Monitor? && step.execution < |s.executions|
    requires s.executions[step.execution].state == FailedRetryable
    ensures Good(cfg, R.Next(cfg, s, step)) <==> Keeps(cfg, s, step)
  {
    var i, u := step.execution, R.Next(cfg, s, step);
    var ex := s.executions[i];
    assert Exposed(cfg, ex, s.desk.links, i);
    if step.now - ex.createdAt > 60 * ex.params.maxDuration {
      assert u == HaltedBy(s, i, "max_duration_exceeded", false);
      HaltStep(cfg, s, i, "max_duration_exceeded", false);
    } else if R.Retries(s, i, step.now) {
      assert u == Dispatch(cfg, s, i, R.Cleared(ex), step.reply, step.now);
      DispatchStep(cfg, s, i, R.Cleared(ex), step.reply, step.now);
    } else {
      RowStep(cfg, s, u, i);
    }
  }

  lemma MonitorStep(cfg: Config, s: System, step: R.Step)
    requires Good(cfg, s) && step.Monitor?
    ensures Good(cfg, R.Next(cfg, s, step)) <==> Keeps(cfg, s, step)
  {
    var i := step.execution;
    if i < |s.executions| && Active(s.executions[i].state) {
      var ex, u := s.executions[i], R.Next(cfg, s, step);
      assert Exposed(cfg, ex, s.desk.links, i);
      if ex.state == FailedRetryable {
        RetryStep(cfg, s, step);
      } else if step.now - ex.createdAt > 60 * ex.params.maxDuration {
        HaltStep(cfg, s, i, "max_duration_exceeded", false);
      } else if ex.outcome.partial && ex.params.rollbackOnPartial {
        HaltStep(cfg, s, i, "partial_provider_success", true);
      } else {
        RowStep(cfg, s, u, i);
      }
    }
  }

  // ---------------------------------------------------------------- the desk's own steps

  lemma OrdersSound(d: Desk, orders: map<string, LocalOrder>)
    requires Sound(d)
    requires forall r :: r in d.orders ==>
               r in orders && orders[r].amount == d.orders[r].amount && (d.orders[r].paid ==> orders[r].paid)
    ensures Sound(d.(orders := orders)) && Forward(d, d.(orders := orders))
  {
    forall i | 0 <= i < |d.links| ensures LinkSound(d.links[i], orders) {
      assert LinkSound(d.links[i], d.orders);
    }
  }

  predicate DeskOnly(step: R.Step) {
    step.IssueLink? || step.Settle? || step.OpenOrder? || step.PayOrder?
  }

  /** Only a link issued by hand is new; it is what was asked for. */
  lemma DeskSound(s: System, step: R.Step)
    requires Sound(s.desk) && DeskOnly(step)
    ensures var e := R.DeskAfter(s.desk, |s.executions|, step);
      && Sound(e) && Forward(s.desk, e)
      && (if step.IssueLink? && IssuesLink(s, step.link, step.now) then
            e.links == s.desk.links + [NewLink(step.link, step.now)]
          else |e.links| == |s.desk.links|)
  {
    match step
    case IssueLink(r, now) =>
      if CreateLink(s.desk, r, now).Success? {
        CreateSound(s.desk, r, now);
      }
    case Settle(j, o, now) =>
      if Simulate(s.desk, j, o, now).Success? {
        SimulateSound(s.desk, j, o, now);
      }
    case OpenOrder(amount, receipt) => OrdersSound(s.desk, OrdersWith(s.desk.orders, amount, receipt));
    case PayOrder(receipt) => OrdersSound(s.desk, OrderPaid(s.desk.orders, receipt));
    case _ =>
  }

  /** A new link that names an execution is not of a batch it was launched with, whatever its state. */
  lemma NamedLinkBreaks(cfg: Config, ex: Execution, links: seq<Link>, l: Link, i: nat)
    requires Exposed(cfg, ex, links, i) && Mine(l, i) && IsOpen(l)
    ensures !Exposed(cfg, ex, links + [l], i)
  {
    var after := links + [l];
    assert Mine(after[|links|], i) && IsOpen(after[|links|]);
    assert HasLinks(after, i) && HasOpenLinks(after, i);
    if Launched(cfg, ex, after, i) {
      var n := |Groups(ex.params, i)|;
      var b :| BatchAt(links, ex.params, i, b);
      StretchCount(links, i, b, n);
      var c :| BatchAt(after, ex.params, i, c);
      StretchCount(after, i, c, n);
      SumsSnoc(links, l, i);
    }
  }

  /** A step of the desk gives an execution a link not of its launch exactly when it issues a new one naming it. */
  lemma DeskExactly(cfg: Config, s: System, step: R.Step, i: nat)
    requires Good(cfg, s) && DeskOnly(step) && i < |s.executions|
    ensures Exposed(cfg, s.executions[i], R.DeskAfter(s.desk, |s.executions|, step).links, i) <==>
      !(step.IssueLink? && IssuesLink(s, step.link, step.now) && step.link.execution == Some(i))
  {
    var a, b := s.desk.links, R.DeskAfter(s.desk, |s.executions|, step).links;
    assert Exposed(cfg, s.executions[i], a, i);
    DeskSound(s, step);
    if step.IssueLink? && IssuesLink(s, step.link, step.now) && step.link.execution == Some(i) {
      NamedLinkBreaks(cfg, s.executions[i], a, NewLink(step.link, step.now), i);
    } else {
      FrameExposed(cfg, s.executions[i], a, b, i);
    }
  }

  lemma DeskStep(cfg: Config, s: System, step: R.Step)
    requires Good(cfg, s) && DeskOnly(step)
    ensures Good(cfg, R.Next(cfg, s, step)) <==> Keeps(cfg, s, step)
  {
    var u := R.Next(cfg, s, step);
    DeskSound(s, step);
    forall j | 0 <= j < |u.desk.links| ensures Owned(u.desk.links[j], |u.executions|) {
      if j < |s.desk.links| {
        assert Owned(s.desk.links[j], |s.executions|) && LinkForward(s.desk.links[j], u.desk.links[j]);
      }
    }
    forall i | 0 <= i < |s.executions|
      ensures Exposed(cfg, u.executions[i], u.desk.links, i) <==>
        !(step.IssueLink? && IssuesLink(s, step.link, step.now) && step.link.execution == Some(i))
    {
      DeskExactly(cfg, s, step, i);
    }
    if !Keeps(cfg, s, step) {
      assert step.link.execution.value < |s.executions|;
    }
  }

  /** The step issues a new link that names this execution. */
  predicate IssuesFor(s: System, step: R.Step, i: nat) {
    step.IssueLink? && IssuesLink(s, step.link, step.now) && step.link.execution == Some(i)
  }

  /** Every execution that has links is within its bounds. */
  ghost predicate AllWithin(s: System) {
    forall i :: 0 <= i < |s.executions| && HasLinks(s.desk.links, i) ==>
      WithinBounds(s.executions[i], s.desk.links, i)
  }

  /** The step issues no new link that names an execution, or one that fits it. */
  predicate FitsWhatItNames(s: System, step: R.Step)
    requires step.IssueLink?
  {
    IssuesLink(s, step.link, step.now) && step.link.execution.Some? ==>
      var i := step.link.execution.value;
      Fits(s.executions[i], s.desk.links, NewLink(step.link, step.now), i)
  }

  /** A link made by hand leaves every execution within its bounds if and only if it fits the one it names. */
  lemma HandMadeExactly(cfg: Config, s: System, step: R.Step)
    requires Good(cfg, s) && step.IssueLink?
    ensures AllWithin(R.Next(cfg, s, step)) <==> FitsWhatItNames(s, step)
  {
    var u, r := R.Next(cfg, s, step), step.link;
    DeskSound(s, step);
    forall i | 0 <= i < |s.executions| && !IssuesFor(s, step, i) && HasLinks(u.desk.links, i)
      ensures WithinBounds(s.executions[i], u.desk.links, i)
    {
      DeskExactly(cfg, s, step, i);
      ExposedIsWithinBounds(cfg, s.executions[i], u.desk, i);
    }
    if IssuesLink(s, r, step.now) && r.execution.Some? {
      var i, l := r.execution.value, NewLink(r, step.now);
      assert u.desk.links[|s.desk.links|] == l && Mine(l, i) && HasLinks(u.desk.links, i);
      assert LinkSound(l, u.desk.orders);
      NewLinkExactly(cfg, s.executions[i], s.desk.links, l, i);
    }
  }

  // ---------------------------------------------------------------- steps and runs

  /** Where links are those of their executions' launches, a step keeps them so exactly if it meets its guard. */
  lemma ExposureStep(cfg: Config, s: System, step: R.Step)
    requires Good(cfg, s)
    ensures Good(cfg, R.Next(cfg, s, step)) <==> Keeps(cfg, s, step)
  {
    match step
    case Ask(_, _, _) => AskStep(cfg, s, step);
    case Approve(i, actor, reply, now) =>
      if AwaitsApproval(s, i) {
        DispatchStep(cfg, s, i, s.executions[i].(approvedBy := Some(actor)), reply, now);
      }
    case Monitor(_, _, _) => MonitorStep(cfg, s, step);
    case Halt(i, reason, rollback) => HaltStep(cfg, s, i, reason, rollback);
    case _ => DeskStep(cfg, s, step);
  }

  /** After every step of the run, links are those of their executions' launches. */
  ghost predicate AlwaysGood(cfg: Config, s: System, steps: seq<R.Step>) {
    Good(cfg, R.Run(cfg, s, steps)) && (steps != [] ==> AlwaysGood(cfg, s, steps[..|steps| - 1]))
  }

  /** Every step of the run meets its guard. */
  ghost predicate AlwaysKeeps(cfg: Config, s: System, steps: seq<R.Step>) {
    steps != [] ==>
      var init, last := steps[..|steps| - 1], steps[|steps| - 1];
      Keeps(cfg, R.Run(cfg, s, init), last) && AlwaysKeeps(cfg, s, init)
  }

  /** All along a run links stay those of their executions' launches if and only if every step meets its guard. */
  lemma {:induction false} ExposureExact(cfg: Config, s: System, steps: seq<R.Step>)
    requires Good(cfg, s)
    ensures AlwaysGood(cfg, s, steps) <==> AlwaysKeeps(cfg, s, steps)
  {
    if steps != [] {
      var init, last := steps[..|steps| - 1], steps[|steps| - 1];
      ExposureExact(cfg, s, init);
      if AlwaysGood(cfg, s, init) {
        ExposureStep(cfg, R.Run(cfg, s, init), last);
      }
    }
  }

  /**
    In every state such a run reaches, an execution has no links or one for each distinct
    treatment group; together they are worth amount times groups, within the cap; what was
    paid through them is the amount times the paid ones; a terminal execution has none open.
   */
  lemma ExposureBound(cfg: Config, steps: seq<R.Step>, i: nat)
    requires AlwaysKeeps(cfg, START, steps)
    ensures var u := R.Run(cfg, START, steps);
      i < |u.executions| && HasLinks(u.desk.links, i) ==> WithinBounds(u.executions[i], u.desk.links, i)
  {
    ExposureExact(cfg, START, steps);
    var u := R.Run(cfg, START, steps);
    if i < |u.executions| && HasLinks(u.desk.links, i) {
      assert Exposed(cfg, u.executions[i], u.desk.links, i);
      ExposedIsWithinBounds(cfg, u.executions[i], u.desk, i);
    }
  }

  // ---------------------------------------------------------------- terminal executions

  /** What a dispatch does to the links, if anything: it moves them on and adds some of its own. */
  lemma DispatchLinks(cfg: Config, ex: Execution, i: nat, d: Desk, reply: Reply, now: int)
    requires Sound(d) && DispatchRow(cfg, ex, i, d, reply, now).Some?
    ensures var e := DispatchRow(cfg, ex, i, d, reply, now).value.1;
      Sound(e) && Forward(d, e) && forall j :: |d.links| <= j < |e.links| ==> Mine(e.links[j], i)
  {
    var e := DispatchRow(cfg, ex, i, d, reply, now).value.1;
    if IssuesBatch(cfg, ex, i, d, now) {
      var groups := Groups(ex.params, i);
      IssueAllSound(d, ex.params, i, groups, now);
      IssueAllAppends(d, ex.params, i, groups, now);
      forall j | |d.links| <= j < |e.links| ensures Mine(e.links[j], i) {
        assert IssuedBy(e.links[j], i, |groups|);
      }
    }
  }

  /** The desk after a step that is not the desk's own: a dispatch, a halt, or untouched. */
  lemma OtherDesk(cfg: Config, s: System, step: R.Step)
    requires !DeskOnly(step)
    ensures var d, e := s.desk, R.Next(cfg, s, step).desk;
      || e == d
      || ((step.Halt? || step.Monitor?) && e == d.(links := CancelOpen(d.links, step.execution)))
      || (var row := R.Dispatched(s, step);
          row.Some? &&
          var dispatched := DispatchRow(cfg, row.value.1, row.value.0, d, step.reply, step.now);
          dispatched.Some? && e == dispatched.value.1)
  {}

  /** Whatever a step does, references stay unique and links sound, and links only move on. */
  lemma SoundStep(cfg: Config, s: System, step: R.Step)
    requires Sound(s.desk)
    ensures Sound(R.Next(cfg, s, step).desk) && Forward(s.desk, R.Next(cfg, s, step).desk)
    ensures var a, b := s.desk.links, R.Next(cfg, s, step).desk.links;
      forall j :: |a| <= j < |b| ==>
        if step.IssueLink? then IssuesLink(s, step.link, step.now) && b == a + [NewLink(step.link, step.now)]
        else R.Dispatched(s, step).Some? && Mine(b[j], R.Dispatched(s, step).value.0)
  {
    if DeskOnly(step) {
      DeskSound(s, step);
    } else {
      OtherDesk(cfg, s, step);
      if step.Halt? || step.Monitor? {
        CancelSound(s.desk, step.execution);
      }
      if R.Dispatched(s, step).Some? {
        var (i, ex) := R.Dispatched(s, step).value;
        if DispatchRow(cfg, ex, i, s.desk, step.reply, step.now).Some? {
          DispatchLinks(cfg, ex, i, s.desk, step.reply, step.now);
        }
      }
    }
  }

  /** An execution that is done: terminal, with none of its links open. */
  predicate Closed(s: System, i: nat) {
    i < |s.executions| && Terminal(s.executions[i].state) && !HasOpenLinks(s.desk.links, i)
  }

  lemma TerminalRow(cfg: Config, s: System, step: R.Step, i: nat)
    requires i < |s.executions| && Terminal(s.executions[i].state)
    ensures var u := R.Next(cfg, s, step); i < |u.executions| && u.executions[i] == s.executions[i]
  {}

  lemma TerminalNotDispatched(s: System, step: R.Step, i: nat)
    requires i < |s.executions| && Terminal(s.executions[i].state) && R.Dispatched(s, step).Some?
    ensures R.Dispatched(s, step).value.0 != i
  {}

  /** A step opens a link of a closed execution exactly when it issues one naming it. */
  lemma ClosedStep(cfg: Config, s: System, step: R.Step, i: nat)
    requires Sound(s.desk) && Closed(s, i)
    ensures Closed(R.Next(cfg, s, step), i) <==> !IssuesFor(s, step, i)
  {
    var a, b := s.desk.links, R.Next(cfg, s, step).desk.links;
    TerminalRow(cfg, s, step, i);
    if R.Dispatched(s, step).Some? {
      TerminalNotDispatched(s, step, i);
    }
    SoundStep(cfg, s, step);
    if IssuesFor(s, step, i) {
      DeskSound(s, step);
      assert Mine(b[|a|], i) && IsOpen(b[|a|]);
    } else {
      assert forall j :: |a| <= j < |b| ==> !Mine(b[j], i);
      FrameLinks(a, b, i);
    }
  }

  ghost predicate StaysClosed(cfg: Config, s: System, steps: seq<R.Step>, i: nat) {
    Closed(R.Run(cfg, s, steps), i) && (steps != [] ==> StaysClosed(cfg, s, steps[..|steps| - 1], i))
  }

  predicate NeverNamed(cfg: Config, s: System, steps: seq<R.Step>, i: nat) {
    steps != [] ==>
      var init, last := steps[..|steps| - 1], steps[|steps| - 1];
      !IssuesFor(R.Run(cfg, s, init), last, i) && NeverNamed(cfg, s, init, i)
  }

  lemma {:induction false} SoundRun(cfg: Config, s: System, steps: seq<R.Step>)
    requires Sound(s.desk)
    ensures Sound(R.Run(cfg, s, steps).desk)
  {
    if steps != [] {
      SoundRun(cfg, s, steps[..|steps| - 1]);
      SoundStep(cfg, R.Run(cfg, s, steps[..|steps| - 1]), steps[|steps| - 1]);
    }
  }

  /** A closed execution stays closed all along a run if and only if no step issues a link naming it. */
  lemma {:induction false} ClosedExact(cfg: Config, s: System, steps: seq<R.Step>, i: nat)
    requires Sound(s.desk) && Closed(s, i)
    ensures StaysClosed(cfg, s, steps, i) <==> NeverNamed(cfg, s, steps, i)
  {
    if steps != [] {
      var init, last := steps[..|steps| - 1], steps[|steps| - 1];
      ClosedExact(cfg, s, init, i);
      if StaysClosed(cfg, s, init, i) {
        SoundRun(cfg, s, init);
        ClosedStep(cfg, R.Run(cfg, s, init), last, i);
      }
    }
  }

  // ---------------------------------------------------------------- two runs that break it

  const LOCAL := Config(false, false)

  /** A campaign of one link of 100, capped at 100. */
  const CAMPAIGN := Params("payment_link", "", ["group"], 1, 100, Some(100), "whatsapp", 30, 2, true, 30)
  const LAUNCH := R.Ask(Request("key", CAMPAIGN, RAZORPAY, Allow, None, "operator"), Crash, 0)
  const STOP := R.Halt(0, "stop", false)

  function ByHand(reference: string, execution: Option<nat>): R.Step {
    R.IssueLink(LinkRequest(100, reference, "other", execution, "whatsapp", 30), 0)
  }

  lemma CampaignReference()
    ensures |Reference(0, 1)| == 10 && Reference(0, 1) != "by hand" && Groups(CAMPAIGN, 0) == ["group"]
  {
    assert Digits(5001) == Digits(500) + [Digit(1)] && Digits(500) == Digits(50) + [Digit(0)];
    assert |Digits(5001)| == 4 && |Digits(1)| == 1;
    assert ["group"][..0] == [];
  }

  lemma RunSnoc(cfg: Config, s: System, steps: seq<R.Step>, step: R.Step)
    ensures R.Run(cfg, s, steps + [step]) == R.Next(cfg, R.Run(cfg, s, steps), step)
  {
    assert (steps + [step])[..|steps|] == steps;
  }

  function CampaignLink(status: LinkStatus): Link {
    Link(Reference(0, 1), Receipt(Reference(0, 1)), Some(0), "group", 100, 0, status, 1800)
  }

  function CampaignRow(state: ExecState, reason: Option<string>): Execution {
    Execution("key", CAMPAIGN, RAZORPAY, Allow, state, Some("operator"), 0, NO_OUTCOME.(stopReason := reason))
  }

  lemma OneGroup(d: Desk)
    ensures IssueAll(d, CAMPAIGN, 0, Groups(CAMPAIGN, 0), 0) == CreateLink(d, RequestFor(CAMPAIGN, 0, 1, "group"), 0)
  {
    CampaignReference();
    assert ["group"][..0] == [];
    assert IssueAll(d, CAMPAIGN, 0, [], 0) == Success(d);
  }

  function Orders(reference: string): map<string, LocalOrder> {
    map[Receipt(reference) := LocalOrder(100, false)]
  }

  /** The campaign launched, with its link in this status. */
  function AfterLaunch(state: ExecState, reason: Option<string>, status: LinkStatus): System {
    System([CampaignRow(state, reason)], Desk([CampaignLink(status)], Orders(Reference(0, 1))), [0])
  }

  lemma Launched0()
    ensures R.Next(LOCAL, START, LAUNCH) == AfterLaunch(Monitoring, None, Issued)
  {
    CampaignReference();
    OneGroup(NO_LINKS);
    var r := RequestFor(CAMPAIGN, 0, 1, "group");
    assert RequestRefusal(r) == None && OrderRefusal(map[], 100, Receipt(r.reference)) == None;
    assert NewLink(r, 0) == CampaignLink(Issued);
    assert NO_LINKS.links + [CampaignLink(Issued)] == [CampaignLink(Issued)];
    assert OrdersWith(map[], 100, Receipt(r.reference)) == Orders(Reference(0, 1));
    assert CreateLink(NO_LINKS, RequestFor(CAMPAIGN, 0, 1, "group"), 0)
        == Success(Desk([CampaignLink(Issued)], Orders(Reference(0, 1))));
  }

  lemma Stopped0()
    ensures R.Next(LOCAL, AfterLaunch(Monitoring, None, Issued), STOP) == AfterLaunch(Halted, Some("stop"), Cancelled)
  {
    assert CancelOpen([CampaignLink(Issued)], 0) == [CampaignLink(Cancelled)];
  }

  lemma ReceiptsDiffer()
    ensures Receipt("by hand") != Receipt(Reference(0, 1))
  {
    CampaignReference();
    var reference := Reference(0, 1);
    assert reference[9] == Digits(1)[0];
    ReceiptKept("by hand");
    ReceiptKept(reference);
    assert |"plink-" + "by hand"| == 13 && |"plink-" + reference| == 16;
  }

  /** A link by hand under a reference and receipt of its own, naming the campaign. */
  lemma NamedLink(state: ExecState, reason: Option<string>, status: LinkStatus)
    ensures var u := R.Next(LOCAL, AfterLaunch(state, reason, status), ByHand("by hand", Some(0)));
      && u.desk.links == [CampaignLink(status)] + [NewLink(ByHand("by hand", Some(0)).link, 0)]
      && u.executions == [CampaignRow(state, reason)]
  {
    CampaignReference();
    ReceiptsDiffer();
  }

  /** Halted, and a link naming the campaign is open again. */
  lemma HaltedThenNamed()
    ensures var u := R.Run(LOCAL, START, [] + [LAUNCH] + [STOP] + [ByHand("by hand", Some(0))]);
      |u.executions| == 1 && u.executions[0].state == Halted && HasOpenLinks(u.desk.links, 0)
  {
    Launched0();
    Stopped0();
    NamedLink(Halted, Some("stop"), Cancelled);
    RunSnoc(LOCAL, START, [], LAUNCH);
    RunSnoc(LOCAL, START, [] + [LAUNCH], STOP);
    RunSnoc(LOCAL, START, [] + [LAUNCH] + [STOP], ByHand("by hand", Some(0)));
    var u := R.Run(LOCAL, START, [] + [LAUNCH] + [STOP] + [ByHand("by hand", Some(0))]);
    assert u.executions == [CampaignRow(Halted, Some("stop"))] && Mine(u.desk.links[1], 0) && IsOpen(u.desk.links[1]);
  }

  /** Before it closes, such a link takes the campaign past one link a group and past its cap. */
  lemma NamedPastCap()
    ensures var u := R.Run(LOCAL, START, [] + [LAUNCH] + [ByHand("by hand", Some(0))]);
      MyCount(u.desk.links, 0) == 2 > |Groups(CAMPAIGN, 0)| && MyValue(u.desk.links, 0) == 200 > CAMPAIGN.cap.value
  {
    Launched0();
    NamedLink(Monitoring, None, Issued);
    RunSnoc(LOCAL, START, [], LAUNCH);
    RunSnoc(LOCAL, START, [] + [LAUNCH], ByHand("by hand", Some(0)));
    CampaignReference();
    SumsSnoc([], CampaignLink(Issued), 0);
    SumsSnoc([] + [CampaignLink(Issued)], NewLink(ByHand("by hand", Some(0)).link, 0), 0);
    assert [] + [CampaignLink(Issued)] == [CampaignLink(Issued)];
  }

  /** The desk with a link by hand under the campaign's first reference. */
  const TAKEN := Desk([NewLink(LinkRequest(100, Reference(0, 1), "other", None, "whatsapp", 30), 0)],
    Orders(Reference(0, 1)))

  /** Halted, with this one link on the desk, open, under the campaign's reference and not its own. */
  predicate HaltedOnTaken(s: System) {
    && |s.executions| == 1 && s.executions[0].state == Halted
    && |s.desk.links| == 1 && s.desk.links[0].reference == Reference(0, 1)
    && IsOpen(s.desk.links[0]) && !Mine(s.desk.links[0], 0)
  }

  lemma TakenIsOpen()
    ensures HaltedOnTaken(System([CampaignRow(Halted, Some("stop"))], TAKEN, [0]))
  {}

  lemma TakenFirst()
    ensures R.Next(LOCAL, START, ByHand(Reference(0, 1), None)) == System([], TAKEN, [])
  {
    CampaignReference();
  }

  lemma LaunchedOnTaken()
    ensures R.Next(LOCAL, System([], TAKEN, []), LAUNCH) == System([CampaignRow(Monitoring, None)], TAKEN, [0])
  {
    CampaignReference();
    OneGroup(TAKEN);
    assert TAKEN.links[0].reference == Reference(0, 1);
    assert CreateLink(TAKEN, RequestFor(CAMPAIGN, 0, 1, "group"), 0) == Success(TAKEN);
  }

  lemma StoppedOnTaken()
    ensures R.Next(LOCAL, System([CampaignRow(Monitoring, None)], TAKEN, [0]), STOP)
         == System([CampaignRow(Halted, Some("stop"))], TAKEN, [0])
  {
    assert CancelOpen(TAKEN.links, 0) == TAKEN.links;
  }

  /** A reference taken before the campaign: it launches without a link of its own, and halting leaves that one open. */
  lemma TakenThenHalted()
    ensures HaltedOnTaken(R.Run(LOCAL, START, [] + [ByHand(Reference(0, 1), None)] + [LAUNCH] + [STOP]))
  {
    var hand := ByHand(Reference(0, 1), None);
    TakenFirst();
    RunSnoc(LOCAL, START, [], hand);
    LaunchedOnTaken();
    RunSnoc(LOCAL, START, [] + [hand], LAUNCH);
    StoppedOnTaken();
    RunSnoc(LOCAL, START, [] + [hand] + [LAUNCH], STOP);
    TakenIsOpen();
  }
}
