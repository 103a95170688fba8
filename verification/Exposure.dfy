/**
  What bounded exposure means for one state of the executor and its payment links: an
  execution that issued links issued one a treatment group, all together within its value
  cap, and once it is terminal none of them is open. `ExposureRuns` says when runs keep it.
 */
module Exposure {
  import opened Decimal
  import opened PaymentLinks
  import opened Executor

  // ---------------------------------------------------------------- references

  lemma SplitAtDash(x: string, y: string, u: string, v: string)
    requires '-' !in x && '-' !in u && x + "-" + y == u + "-" + v
    ensures x == u && y == v
  {
    var s := x + "-" + y;
    assert s[|x|] == '-' && s[|u|] == '-';
    assert forall k :: 0 <= k < |x| ==> s[k] == x[k] && x[k] != '-';
    assert forall k :: 0 <= k < |u| ==> s[k] == u[k] && u[k] != '-';
    assert |x| == |u|;
    assert s[..|x|] == x && s[..|u|] == u;
    assert s[|x| + 1..] == y && s[|u| + 1..] == v;
  }

  /** A reference tells the execution and the position it was made for. */
  lemma ReferenceInjective(i: nat, k: nat, j: nat, m: nat)
    requires Reference(i, k) == Reference(j, m)
    ensures i == j && k == m
  {
    var a, b := Digits(5000 + i + 1), Digits(5000 + j + 1);
    assert Reference(i, k)[4..] == a + "-" + Digits(k) && Reference(j, m)[4..] == b + "-" + Digits(m);
    SplitAtDash(a, Digits(k), b, Digits(m));
    DigitsInjective(5000 + i + 1, 5000 + j + 1);
    DigitsInjective(k, m);
  }

  // ---------------------------------------------------------------- groups

  ghost predicate AllDistinct(s: seq<string>) {
    forall i, j :: 0 <= i < j < |s| ==> s[i] != s[j]
  }

  lemma {:induction false} DistinctIsDistinct(groups: seq<string>)
    ensures AllDistinct(Distinct(groups)) && forall g :: g in Distinct(groups) <==> g in groups
  {
    if groups != [] {
      DistinctIsDistinct(groups[..|groups| - 1]);
      assert groups == groups[..|groups| - 1] + [groups[|groups| - 1]];
    }
  }

  lemma {:induction false} NumberedAt(human: string, n: nat, k: nat)
    requires k < n
    ensures Numbered(human, n)[k] == human + "-group-" + Digits(k + 1)
  {
    if k < n - 1 {
      NumberedAt(human, n - 1, k);
    }
  }

  lemma NumberedIsDistinct(human: string, n: nat)
    ensures AllDistinct(Numbered(human, n))
  {
    forall i, j | 0 <= i < j < n ensures Numbered(human, n)[i] != Numbered(human, n)[j] {
      NumberedAt(human, n, i);
      NumberedAt(human, n, j);
      var prefix := human + "-group-";
      if prefix + Digits(i + 1) == prefix + Digits(j + 1) {
        assert (prefix + Digits(i + 1))[|prefix|..] == Digits(i + 1);
        assert (prefix + Digits(j + 1))[|prefix|..] == Digits(j + 1);
        DigitsInjective(i + 1, j + 1);
      }
    }
  }

  /** The groups served are distinct, and are those asked for whenever any are. */
  lemma GroupsDistinct(p: Params, i: nat)
    ensures AllDistinct(Groups(p, i)) && |Groups(p, i)| >= 1
    ensures p.groups != [] ==> forall g :: g in Groups(p, i) <==> g in p.groups
  {
    DistinctIsDistinct(p.groups);
    NumberedIsDistinct(HumanId(i), GroupCount(p));
    if p.groups != [] {
      assert p.groups[0] in Distinct(p.groups);
    }
  }

  // ---------------------------------------------------------------- issuing a batch

  /** The links a batch appends, in order. */
  function NewLinks(p: Params, i: nat, groups: seq<string>, now: int): (links: seq<Link>)
    ensures |links| == |groups|
  {
    if groups == [] then []
    else
      var n := |groups| - 1;
      NewLinks(p, i, groups[..n], now) + [NewLink(RequestFor(p, i, n + 1, groups[n]), now)]
  }

  lemma {:induction false} NewLinksAt(p: Params, i: nat, groups: seq<string>, now: int, k: nat)
    requires k < |groups|
    ensures NewLinks(p, i, groups, now)[k] == NewLink(RequestFor(p, i, k + 1, groups[k]), now)
  {
    if k < |groups| - 1 {
      NewLinksAt(p, i, groups[..|groups| - 1], now, k);
    }
  }

  /** No link bears one of the first `n` references of this execution. */
  ghost predicate Untaken(links: seq<Link>, i: nat, n: nat) {
    forall k: nat :: 1 <= k <= n ==> !HasReference(links, Reference(i, k))
  }

  /** A link of this execution, under one of its first `n` references. */
  ghost predicate IssuedBy(l: Link, i: nat, n: nat) {
    Mine(l, i) && exists k: nat :: 1 <= k <= n && l.reference == Reference(i, k)
  }

  /** What a batch that succeeds adds to the links: its own, and at most one a group. */
  ghost predicate Appends(a: seq<Link>, b: seq<Link>, i: nat, n: nat) {
    a <= b && |b| <= |a| + n && forall j :: |a| <= j < |b| ==> IssuedBy(b[j], i, n)
  }

  /** The next reference of a batch is taken exactly if it was before the batch. */
  lemma NextTaken(a: seq<Link>, b: seq<Link>, i: nat, n: nat)
    requires Appends(a, b, i, n)
    ensures HasReference(b, Reference(i, n + 1)) <==> HasReference(a, Reference(i, n + 1))
  {
    if j :| 0 <= j < |a| && a[j].reference == Reference(i, n + 1) {
      assert b[j] == a[j];
    }
    if j :| 0 <= j < |b| && b[j].reference == Reference(i, n + 1) {
      if j >= |a| {
        assert IssuedBy(b[j], i, n);
        var k: nat :| 1 <= k <= n && b[j].reference == Reference(i, k);
        ReferenceInjective(i, k, i, n + 1);
      }
      assert a[j] == b[j];
    }
  }

  lemma {:induction false} IssueAllAppends(d: Desk, p: Params, i: nat, groups: seq<string>, now: int)
    requires IssueAll(d, p, i, groups, now).Success?
    ensures Appends(d.links, IssueAll(d, p, i, groups, now).value.links, i, |groups|)
  {
    if groups != [] {
      var n := |groups| - 1;
      IssueAllAppends(d, p, i, groups[..n], now);
      var a, b, c := d.links, IssueAll(d, p, i, groups[..n], now).value.links,
        IssueAll(d, p, i, groups, now).value.links;
      forall j | |a| <= j < |c| ensures IssuedBy(c[j], i, n + 1) {
        if j < |b| {
          assert IssuedBy(b[j], i, n) && c[j] == b[j];
        } else {
          assert c[j].reference == Reference(i, n + 1);
        }
      }
    }
  }

  /** A batch that succeeds appends one link a group exactly when none of its references was taken. */
  lemma {:induction false} IssueAllExactly(d: Desk, p: Params, i: nat, groups: seq<string>, now: int)
    requires IssueAll(d, p, i, groups, now).Success?
    ensures var links := IssueAll(d, p, i, groups, now).value.links;
      && (|links| == |d.links| + |groups| <==> Untaken(d.links, i, |groups|))
      && (Untaken(d.links, i, |groups|) ==> links == d.links + NewLinks(p, i, groups, now))
  {
    if groups != [] {
      var n := |groups| - 1;
      IssueAllExactly(d, p, i, groups[..n], now);
      IssueAllAppends(d, p, i, groups[..n], now);
      NextTaken(d.links, IssueAll(d, p, i, groups[..n], now).value.links, i, n);
      UntakenSnoc(d.links, i, n);
    }
  }

  lemma UntakenSnoc(links: seq<Link>, i: nat, n: nat)
    ensures Untaken(links, i, n + 1) <==> Untaken(links, i, n) && !HasReference(links, Reference(i, n + 1))
  {}

  lemma {:induction false} IssueAllSound(d: Desk, p: Params, i: nat, groups: seq<string>, now: int)
    requires Sound(d) && IssueAll(d, p, i, groups, now).Success?
    ensures Sound(IssueAll(d, p, i, groups, now).value) && Forward(d, IssueAll(d, p, i, groups, now).value)
  {
    if groups != [] {
      var n := |groups| - 1;
      IssueAllSound(d, p, i, groups[..n], now);
      var issued := IssueAll(d, p, i, groups[..n], now).value;
      CreateSound(issued, RequestFor(p, i, n + 1, groups[n]), now);
      ForwardThrough(d, issued, IssueAll(d, p, i, groups, now).value);
    }
  }

  lemma ForwardThrough(a: Desk, b: Desk, c: Desk)
    requires Forward(a, b) && Forward(b, c)
    ensures Forward(a, c)
  {
    forall j | 0 <= j < |a.links| ensures LinkForward(a.links[j], c.links[j]) {
      assert LinkForward(a.links[j], b.links[j]) && LinkForward(b.links[j], c.links[j]);
    }
  }

  // ---------------------------------------------------------------- sums over the links

  function MyCount(links: seq<Link>, i: nat): nat {
    if links == [] then 0 else MyCount(links[..|links| - 1], i) + if Mine(links[|links| - 1], i) then 1 else 0
  }

  function MyValue(links: seq<Link>, i: nat): int {
    if links == [] then 0
    else MyValue(links[..|links| - 1], i) + if Mine(links[|links| - 1], i) then links[|links| - 1].amount else 0
  }

  /** The links of the execution stand together from `b` on, `n` of them. */
  ghost predicate Stretch(links: seq<Link>, i: nat, b: nat, n: nat) {
    b + n <= |links| && forall j :: 0 <= j < |links| ==> (Mine(links[j], i) <==> b <= j < b + n)
  }

  lemma {:induction false} StretchCount(links: seq<Link>, i: nat, b: nat, n: nat)
    requires Stretch(links, i, b, n)
    ensures MyCount(links, i) == n
  {
    if links != [] {
      var init := links[..|links| - 1];
      assert forall j :: 0 <= j < |init| ==> init[j] == links[j];
      if b + n == |links| && n > 0 {
        StretchCount(init, i, b, n - 1);
      } else {
        StretchCount(init, i, if n == 0 then 0 else b, n);
      }
    }
  }

  lemma {:induction false} ValueOfCount(links: seq<Link>, i: nat, amount: int)
    requires forall j :: 0 <= j < |links| && Mine(links[j], i) ==> links[j].amount == amount
    ensures MyValue(links, i) == amount * MyCount(links, i)
  {
    if links != [] {
      ValueOfCount(links[..|links| - 1], i, amount);
    }
  }

  /** Equal amounts add up to amount times count; so do the paid ones when paid in full. */
  lemma {:induction false} ValueIsProduct(links: seq<Link>, i: nat, amount: int)
    requires forall j :: 0 <= j < |links| && Mine(links[j], i) ==> links[j].amount == amount
    requires forall j :: 0 <= j < |links| && links[j].status == Paid ==> links[j].paid == links[j].amount
    ensures MyValue(links, i) == amount * MyCount(links, i)
    ensures PaidValue(links, i) == amount * PaidLinks(links, i) && PaidLinks(links, i) <= MyCount(links, i)
  {
    hide MyValue;
    ValueOfCount(links, i, amount);
    if links != [] {
      ValueIsProduct(links[..|links| - 1], i, amount);
    }
  }

  lemma {:induction false} NoneMineSums(links: seq<Link>, i: nat)
    requires !HasLinks(links, i)
    ensures MyCount(links, i) == 0 && PaidValue(links, i) == 0 && PaidLinks(links, i) == 0
  {
    if links != [] {
      var init := links[..|links| - 1];
      assert forall j :: 0 <= j < |init| ==> init[j] == links[j];
      assert !Mine(links[|links| - 1], i);
      NoneMineSums(init, i);
    }
  }

  /** Links that stay as they are, with others appended, bring in the same. */
  lemma {:induction false} PaidFrame(a: seq<Link>, b: seq<Link>, i: nat)
    requires |a| <= |b|
    requires forall j :: 0 <= j < |a| ==> (Mine(b[j], i) <==> Mine(a[j], i)) && (Mine(a[j], i) ==> b[j] == a[j])
    requires forall j :: |a| <= j < |b| ==> !Mine(b[j], i)
    ensures PaidValue(a, i) == PaidValue(b, i) && PaidLinks(a, i) == PaidLinks(b, i)
    decreases |b|
  {
    if b != [] {
      var init := b[..|b| - 1];
      if |a| == |b| {
        PaidFrame(a[..|a| - 1], init, i);
      } else {
        PaidFrame(a, init, i);
      }
    }
  }

  // ---------------------------------------------------------------- the invariant

  /** The links of the execution are one a group, as its own dispatch issued them. */
  ghost predicate BatchAt(links: seq<Link>, p: Params, i: nat, b: nat) {
    && Stretch(links, i, b, |Groups(p, i)|)
    && forall j :: b <= j < b + |Groups(p, i)| ==> links[j].amount == p.amount && links[j].group == Groups(p, i)[j - b]
  }

  /** An execution that has issued its links. */
  ghost predicate Launched(cfg: Config, ex: Execution, links: seq<Link>, i: nat) {
    && UsesLocalLinks(cfg, ex) && (ex.state == Monitoring || ex.state in {Succeeded, Halted, RolledBack})
    && Affordable(ex.params, Groups(ex.params, i))
    && (exists b :: BatchAt(links, ex.params, i, b))
    && (Terminal(ex.state) ==> !HasOpenLinks(links, i))
  }

  /** A finished execution has booked what its paid links brought in. */
  predicate Booked(ex: Execution, links: seq<Link>, i: nat) {
    ex.state == Succeeded ==>
      ex.outcome.recovered == PaidLinks(links, i) && ex.outcome.recoveredPaise == PaidValue(links, i)
  }

  /** A local campaign being monitored has links; any links there are were launched; a success is booked. */
  ghost predicate Exposed(cfg: Config, ex: Execution, links: seq<Link>, i: nat) {
    && (HasLinks(links, i) ==> Launched(cfg, ex, links, i))
    && (UsesLocalLinks(cfg, ex) && ex.state == Monitoring ==> HasLinks(links, i))
    && Booked(ex, links, i)
  }

  /** A link belongs to a known execution or to none. */
  predicate Owned(l: Link, n: nat) {
    l.execution.Some? ==> l.execution.value < n
  }

  ghost predicate Good(cfg: Config, s: System) {
    && Sound(s.desk)
    && (forall j :: 0 <= j < |s.desk.links| ==> Owned(s.desk.links[j], |s.executions|))
    && (forall i :: 0 <= i < |s.executions| ==> Exposed(cfg, s.executions[i], s.desk.links, i))
  }

  /** How a step may change the links from the point of view of one execution. */
  ghost predicate Frame(a: seq<Link>, b: seq<Link>, i: nat) {
    && |a| <= |b|
    && (forall j :: 0 <= j < |a| ==> LinkForward(a[j], b[j]))
    && (forall j :: |a| <= j < |b| ==> !Mine(b[j], i))
  }

  lemma FrameLinks(a: seq<Link>, b: seq<Link>, i: nat)
    requires Frame(a, b, i)
    ensures HasLinks(b, i) <==> HasLinks(a, i)
    ensures HasOpenLinks(b, i) ==> HasOpenLinks(a, i)
    ensures !HasOpenLinks(a, i) ==> PaidValue(a, i) == PaidValue(b, i) && PaidLinks(a, i) == PaidLinks(b, i)
  {
    forall j | 0 <= j < |a| ensures LinkForward(a[j], b[j]) && (Mine(b[j], i) <==> Mine(a[j], i)) {
      assert LinkForward(a[j], b[j]);
    }
    if !HasOpenLinks(a, i) {
      PaidFrame(a, b, i);
    }
  }

  lemma FrameBatch(a: seq<Link>, b: seq<Link>, p: Params, i: nat, at: nat)
    requires Frame(a, b, i) && BatchAt(a, p, i, at)
    ensures BatchAt(b, p, i, at)
  {
    forall j | 0 <= j < |b| ensures Mine(b[j], i) <==> at <= j < at + |Groups(p, i)| {
      if j < |a| {
        assert LinkForward(a[j], b[j]);
      }
    }
    forall j | at <= j < at + |Groups(p, i)| ensures b[j].amount == p.amount && b[j].group == Groups(p, i)[j - at] {
      assert LinkForward(a[j], b[j]);
    }
  }

  /** A step that leaves a row alone and only moves links on keeps its exposure. */
  lemma FrameExposed(cfg: Config, ex: Execution, a: seq<Link>, b: seq<Link>, i: nat)
    requires Exposed(cfg, ex, a, i) && Frame(a, b, i)
    ensures Exposed(cfg, ex, b, i)
  {
    FrameLinks(a, b, i);
    if HasLinks(a, i) {
      var at :| BatchAt(a, ex.params, i, at);
      FrameBatch(a, b, ex.params, i, at);
    } else {
      assert !HasOpenLinks(a, i);
    }
  }

  /** After a step on row `i`: the others are as they were, so the whole is good exactly if that row is. */
  lemma RowStep(cfg: Config, s: System, u: System, i: nat)
    requires Good(cfg, s) && i < |u.executions| && |s.executions| <= |u.executions| <= |s.executions| + 1
    requires |u.executions| > |s.executions| ==> i == |s.executions|
    requires forall j :: 0 <= j < |s.executions| && j != i ==> u.executions[j] == s.executions[j]
    requires Sound(u.desk) && Forward(s.desk, u.desk)
    requires forall j :: |s.desk.links| <= j < |u.desk.links| ==> Mine(u.desk.links[j], i)
    ensures Good(cfg, u) <==> Exposed(cfg, u.executions[i], u.desk.links, i)
  {
    var a, b := s.desk.links, u.desk.links;
    forall j | 0 <= j < |b| ensures Owned(b[j], |u.executions|) {
      if j < |a| {
        assert Owned(a[j], |s.executions|) && LinkForward(a[j], b[j]);
      }
    }
    forall j | 0 <= j < |u.executions| && j != i ensures Exposed(cfg, u.executions[j], b, j) {
      FrameExposed(cfg, s.executions[j], a, b, j);
    }
  }

  // ---------------------------------------------------------------- dispatch

  /** Links appended to others that are not the execution's stand together. */
  lemma AppendedStretch(a: seq<Link>, b: seq<Link>, i: nat)
    requires !HasLinks(a, i) && forall j :: 0 <= j < |b| ==> Mine(b[j], i)
    ensures Stretch(a + b, i, |a|, |b|)
  {
    forall j | 0 <= j < |a + b| ensures Mine((a + b)[j], i) <==> |a| <= j {
      assert if j < |a| then (a + b)[j] == a[j] else (a + b)[j] == b[j - |a|];
    }
  }

  /** One link a group, each of the execution's amount, appended to others that are not its own. */
  lemma AppendedBatch(a: seq<Link>, issued: seq<Link>, p: Params, i: nat)
    requires !HasLinks(a, i) && |issued| == |Groups(p, i)| >= 1
    requires forall j :: 0 <= j < |issued| ==>
               Mine(issued[j], i) && issued[j].amount == p.amount && issued[j].group == Groups(p, i)[j]
    ensures BatchAt(a + issued, p, i, |a|) && HasLinks(a + issued, i)
  {
    var all := a + issued;
    AppendedStretch(a, issued, i);
    forall j | |a| <= j < |all| ensures all[j].amount == p.amount && all[j].group == Groups(p, i)[j - |a|] {
      assert all[j] == issued[j - |a|];
    }
    assert all[|a|] == issued[0] && Mine(all[|a|], i);
  }

  lemma BatchIssued(d: Desk, p: Params, i: nat, now: int)
    requires !HasLinks(d.links, i)
    ensures BatchAt(d.links + NewLinks(p, i, Groups(p, i), now), p, i, |d.links|)
    ensures HasLinks(d.links + NewLinks(p, i, Groups(p, i), now), i)
  {
    var groups := Groups(p, i);
    var issued := NewLinks(p, i, groups, now);
    GroupsDistinct(p, i);
    forall j | 0 <= j < |groups|
      ensures Mine(issued[j], i) && issued[j].amount == p.amount && issued[j].group == groups[j]
    {
      NewLinksAt(p, i, groups, now, j);
    }
    AppendedBatch(d.links, issued, p, i);
  }

  lemma {:induction false} CountAppended(a: seq<Link>, b: seq<Link>, i: nat)
    requires a <= b && !HasLinks(a, i) && forall j :: |a| <= j < |b| ==> Mine(b[j], i)
    ensures MyCount(b, i) == |b| - |a|
  {
    if |b| == |a| {
      NoneMineSums(b, i);
    } else {
      CountAppended(a, b[..|b| - 1], i);
    }
  }

  /** A batch under untaken references is exposure within bounds. */
  lemma LaunchedFresh(cfg: Config, ex: Execution, i: nat, d: Desk, now: int)
    requires !HasLinks(d.links, i) && UsesLocalLinks(cfg, ex) && Affordable(ex.params, Groups(ex.params, i))
    ensures Exposed(cfg, Started(ex), d.links + NewLinks(ex.params, i, Groups(ex.params, i), now), i)
  {
    BatchIssued(d, ex.params, i, now);
  }

  /** Exposure within bounds has one appended link a group. */
  lemma BoundedCount(p: Params, i: nat, a: seq<Link>, b: seq<Link>)
    requires Appends(a, b, i, |Groups(p, i)|) && !HasLinks(a, i) && exists at :: BatchAt(b, p, i, at)
    ensures |b| == |a| + |Groups(p, i)|
  {
    forall j | |a| <= j < |b| ensures Mine(b[j], i) {
      assert IssuedBy(b[j], i, |Groups(p, i)|);
    }
    CountAppended(a, b, i);
    var at :| BatchAt(b, p, i, at);
    StretchCount(b, i, at, |Groups(p, i)|);
  }

  /** A local dispatch that issues its batch is within bounds exactly when none of its references was taken. */
  lemma LaunchExactly(cfg: Config, ex: Execution, i: nat, d: Desk, now: int)
    requires !HasLinks(d.links, i) && IssueAll(d, ex.params, i, Groups(ex.params, i), now).Success?
    requires UsesLocalLinks(cfg, ex) && Affordable(ex.params, Groups(ex.params, i))
    ensures var links := IssueAll(d, ex.params, i, Groups(ex.params, i), now).value.links;
      Exposed(cfg, Started(ex), links, i) <==> Untaken(d.links, i, |Groups(ex.params, i)|)
  {
    var p, groups := ex.params, Groups(ex.params, i);
    var links := IssueAll(d, p, i, groups, now).value.links;
    IssueAllAppends(d, p, i, groups, now);
    IssueAllExactly(d, p, i, groups, now);
    if Untaken(d.links, i, |groups|) {
      LaunchedFresh(cfg, ex, i, d, now);
    }
    if Exposed(cfg, Started(ex), links, i) {
      BoundedCount(p, i, d.links, links);
    }
  }

  // ---------------------------------------------------------------- totals

  lemma WithinCap(amount: int, few: nat, many: nat)
    requires amount >= 0 && few <= many
    ensures amount * few <= amount * many
  {}

  lemma Totals(p: Params, d: Desk, i: nat)
    requires Sound(d) && Affordable(p, Groups(p, i)) && exists b :: BatchAt(d.links, p, i, b)
    ensures MyCount(d.links, i) == |Groups(p, i)| && MyValue(d.links, i) == p.amount * |Groups(p, i)|
    ensures PaidValue(d.links, i) == p.amount * PaidLinks(d.links, i) <= MyValue(d.links, i)
  {
    var b :| BatchAt(d.links, p, i, b);
    StretchCount(d.links, i, b, |Groups(p, i)|);
    forall j | 0 <= j < |d.links| && d.links[j].status == Paid ensures d.links[j].paid == d.links[j].amount {
      assert LinkSound(d.links[j], d.orders);
    }
    ValueIsProduct(d.links, i, p.amount);
    WithinCap(p.amount, PaidLinks(d.links, i), MyCount(d.links, i));
  }

  /** What good exposure says of one execution's links, in sums. */
  ghost predicate WithinBounds(ex: Execution, links: seq<Link>, i: nat) {
    var groups := Groups(ex.params, i);
    && (exists b :: BatchAt(links, ex.params, i, b)) && AllDistinct(groups) && MyCount(links, i) == |groups|
    && MyValue(links, i) == ex.params.amount * |groups|
    && (ex.params.cap.Some? ==> MyValue(links, i) <= ex.params.cap.value)
    && PaidValue(links, i) == ex.params.amount * PaidLinks(links, i) <= MyValue(links, i)
    && (Terminal(ex.state) ==> !HasOpenLinks(links, i))
    && (ex.state == Succeeded ==>
          ex.outcome.recoveredPaise == PaidValue(links, i) && ex.outcome.recovered == PaidLinks(links, i))
  }

  lemma ExposedIsWithinBounds(cfg: Config, ex: Execution, d: Desk, i: nat)
    requires Sound(d) && Exposed(cfg, ex, d.links, i) && HasLinks(d.links, i)
    ensures WithinBounds(ex, d.links, i)
  {
    Totals(ex.params, d, i);
    GroupsDistinct(ex.params, i);
  }

  // ---------------------------------------------------------------- one more link, made by hand

  lemma SumsSnoc(links: seq<Link>, l: Link, i: nat)
    ensures MyCount(links + [l], i) == MyCount(links, i) + if Mine(l, i) then 1 else 0
    ensures MyValue(links + [l], i) == MyValue(links, i) + if Mine(l, i) then l.amount else 0
    ensures IsOpen(l) ==>
              PaidValue(links + [l], i) == PaidValue(links, i) && PaidLinks(links + [l], i) == PaidLinks(links, i)
  {
    assert (links + [l])[..|links|] == links;
  }

  /**
    The link could pass for the execution's batch: it has no other, is not over, has one
    group, and the link has that group and the row's amount, within the cap.
   */
  predicate Fits(ex: Execution, links: seq<Link>, l: Link, i: nat) {
    && !HasLinks(links, i) && !Terminal(ex.state) && Groups(ex.params, i) == [l.group]
    && l.amount == ex.params.amount && (ex.params.cap.Some? ==> l.amount <= ex.params.cap.value)
  }

  lemma NoneMineValue(links: seq<Link>, i: nat)
    requires MyCount(links, i) == 0
    ensures MyValue(links, i) == 0
  {
    if links != [] {
      NoneMineValue(links[..|links| - 1], i);
    }
  }

  lemma FittingLink(ex: Execution, links: seq<Link>, l: Link, i: nat)
    requires Mine(l, i) && IsOpen(l) && l.amount >= 0 && Fits(ex, links, l, i)
    ensures WithinBounds(ex, links + [l], i)
  {
    NoneMineSums(links, i);
    NoneMineValue(links, i);
    SumsSnoc(links, l, i);
    AppendedBatch(links, [l], ex.params, i);
    assert AllDistinct(Groups(ex.params, i));
  }

  lemma OnlyLinkFits(ex: Execution, links: seq<Link>, l: Link, i: nat)
    requires !HasLinks(links, i) && Mine(l, i) && IsOpen(l) && WithinBounds(ex, links + [l], i)
    ensures Fits(ex, links, l, i)
  {
    var after := links + [l];
    NoneMineSums(links, i);
    NoneMineValue(links, i);
    SumsSnoc(links, l, i);
    assert Mine(after[|links|], i) && IsOpen(after[|links|]);
    var b: nat :| BatchAt(after, ex.params, i, b);
    assert |Groups(ex.params, i)| == 1;
    assert Stretch(after, i, b, 1);
    assert b == |links| && after[b] == l && Groups(ex.params, i)[0] == l.group;
  }

  /** A new open link of an execution within bounds leaves it so if and only if it fits. */
  lemma NewLinkExactly(cfg: Config, ex: Execution, links: seq<Link>, l: Link, i: nat)
    requires Exposed(cfg, ex, links, i) && Mine(l, i) && IsOpen(l) && l.amount >= 0
    ensures WithinBounds(ex, links + [l], i) <==> Fits(ex, links, l, i)
  {
    if Fits(ex, links, l, i) {
      FittingLink(ex, links, l, i);
    }
    if WithinBounds(ex, links + [l], i) {
      if HasLinks(links, i) {
        var b :| BatchAt(links, ex.params, i, b);
        StretchCount(links, i, b, |Groups(ex.params, i)|);
        SumsSnoc(links, l, i);
      } else {
        OnlyLinkFits(ex, links, l, i);
      }
    }
  }
}
