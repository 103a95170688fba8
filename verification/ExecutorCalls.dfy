/**
  Every dispatch, crashed ones included. A dispatch that crashes is rolled back with its
  transaction and leaves no trace in the tables, so the same request may dispatch again;
  what the budget bounds is the dispatches that did not crash.
 */
module ExecutorCalls {
  import opened Executor
  import opened ExecutorRuns

  /** The step dispatches the action of this key. */
  predicate Reaches(s: System, step: Step, key: string) {
    Dispatched(s, step).Some? && Dispatched(s, step).value.1.key == key
  }

  /** It does, and the dispatch crashes. */
  predicate Crashes(cfg: Config, s: System, step: Step, key: string) {
    Reaches(s, step, key) &&
      var (i, row) := Dispatched(s, step).value;
      DispatchRow(cfg, row, i, s.desk, step.reply, step.now).None?
  }

  /** How many steps of a run dispatch the action. */
  function Made(cfg: Config, steps: seq<Step>, key: string): nat {
    if steps == [] then 0
    else
      var init, last := steps[..|steps| - 1], steps[|steps| - 1];
      Made(cfg, init, key) + if Reaches(Run(cfg, START, init), last, key) then 1 else 0
  }

  /** How many of them crash. */
  function Crashed(cfg: Config, steps: seq<Step>, key: string): nat {
    if steps == [] then 0
    else
      var init, last := steps[..|steps| - 1], steps[|steps| - 1];
      Crashed(cfg, init, key) + if Crashes(cfg, Run(cfg, START, init), last, key) then 1 else 0
  }

  /** The dispatches made are the crashed ones and those on record for the key's execution. */
  ghost predicate Balanced(s: System, key: string, made: nat, crashed: nat) {
    && (forall i :: 0 <= i < |s.executions| && s.executions[i].key == key ==> made == crashed + Count(s.calls, i))
    && (!HasKey(s.executions, key) ==> made == crashed)
  }

  /** What one step adds to the record of a key's execution. */
  function Added(cfg: Config, s: System, step: Step, key: string): nat {
    if Reaches(s, step, key) && !Crashes(cfg, s, step, key) then 1 else 0
  }

  /** The dispatch of the step leaves a record. */
  predicate Recorded(cfg: Config, s: System, step: Step) {
    Dispatched(s, step).Some? &&
      DispatchRow(cfg, Dispatched(s, step).value.1, Dispatched(s, step).value.0, s.desk, step.reply, step.now).Some?
  }

  lemma KnownStep(cfg: Config, s: System, step: Step, i: nat)
    requires Good(s) && i < |s.executions|
    ensures var u, key := Next(cfg, s, step), s.executions[i].key;
      i < |u.executions| && u.executions[i].key == key
      && Count(u.calls, i) == Count(s.calls, i) + Added(cfg, s, step, key)
  {
    hide Next, DispatchRow, Dispatched, Count, RowSound;
    var u := Next(cfg, s, step);
    GoodStep(cfg, s, step);
    CallsAre(cfg, s, step);
    assert RowForward(s.executions[i], u.executions[i], Count(s.calls, i), Count(u.calls, i));
    if Dispatched(s, step).Some? {
      var (j, row) := Dispatched(s, step).value;
      CountSnoc(s.calls, j, i);
      RowOf(s, step);
      assert j < |s.executions| ==> (row.key == s.executions[i].key <==> j == i);
    }
  }

  /** The row dispatched is the one at its position, or a new one under a new key. */
  lemma RowOf(s: System, step: Step)
    requires Dispatched(s, step).Some?
    ensures var (j, row) := Dispatched(s, step).value;
      if j < |s.executions| then row.key == s.executions[j].key
      else j == |s.executions| && !HasKey(s.executions, row.key)
  {}

  lemma CallsAre(cfg: Config, s: System, step: Step)
    ensures var u := Next(cfg, s, step);
      u.calls == if Recorded(cfg, s, step) then s.calls + [Dispatched(s, step).value.0] else s.calls
  {}

  /** Only a request under a new key adds a row, and a dispatch of it is recorded only with it. */
  lemma NewRow(cfg: Config, s: System, step: Step)
    ensures var u, n := Next(cfg, s, step), |s.executions|;
      if |u.executions| == n then (Recorded(cfg, s, step) ==> Dispatched(s, step).value.0 < n)
      else
        && |u.executions| == n + 1 && step.Ask? && u.executions[n].key == step.request.key
        && (Dispatched(s, step).Some? ==>
              Recorded(cfg, s, step) && Dispatched(s, step).value.0 == n
              && Dispatched(s, step).value.1.key == step.request.key)
  {}

  lemma UnknownStep(cfg: Config, s: System, step: Step, key: string)
    requires Good(s) && !HasKey(s.executions, key)
    ensures var u := Next(cfg, s, step);
      && (forall i :: 0 <= i < |u.executions| && u.executions[i].key == key ==>
            Count(u.calls, i) == Added(cfg, s, step, key))
      && (!HasKey(u.executions, key) ==> Added(cfg, s, step, key) == 0)
  {
    hide Next, DispatchRow, Dispatched, Count;
    var u, n := Next(cfg, s, step), |s.executions|;
    CallsAre(cfg, s, step);
    CountAbsent(s.calls, n);
    CountSnoc(s.calls, n, n);
    NewRow(cfg, s, step);
    forall i | 0 <= i < n ensures u.executions[i].key != key {
      KnownStep(cfg, s, step, i);
    }
    if Dispatched(s, step).Some? {
      RowOf(s, step);
      assert Dispatched(s, step).value.0 < n ==> Dispatched(s, step).value.1.key != key;
    }
    assert Crashes(cfg, s, step, key) <==> Reaches(s, step, key) && !Recorded(cfg, s, step);
    if |u.executions| == n + 1 {
      assert u.executions[n].key == step.request.key;
    }
  }

  /** The record of a known key is that of its one row. */
  lemma BalancedAt(s: System, i: nat, made: nat, crashed: nat)
    requires Good(s) && i < |s.executions| && made == crashed + Count(s.calls, i)
    ensures Balanced(s, s.executions[i].key, made, crashed)
  {
    hide Count, RowSound;
  }

  lemma BalancedStep(cfg: Config, s: System, step: Step, key: string, made: nat, crashed: nat)
    requires Good(s) && Balanced(s, key, made, crashed)
    ensures Balanced(Next(cfg, s, step), key, made + (if Reaches(s, step, key) then 1 else 0),
                     crashed + (if Crashes(cfg, s, step, key) then 1 else 0))
  {
    hide Next, Count, Dispatched, DispatchRow, RowSound;
    var u := Next(cfg, s, step);
    if HasKey(s.executions, key) {
      var i :| 0 <= i < |s.executions| && s.executions[i].key == key;
      KnownStep(cfg, s, step, i);
      GoodStep(cfg, s, step);
      BalancedAt(u, i, made + (if Reaches(s, step, key) then 1 else 0),
                 crashed + (if Crashes(cfg, s, step, key) then 1 else 0));
    } else {
      UnknownStep(cfg, s, step, key);
    }
  }

  /** Over every run the dispatches of an action are those that crashed and those on record. */
  lemma {:induction false} CallsBalanced(cfg: Config, steps: seq<Step>, key: string)
    ensures Balanced(Run(cfg, START, steps), key, Made(cfg, steps, key), Crashed(cfg, steps, key))
  {
    if steps != [] {
      var init, last := steps[..|steps| - 1], steps[|steps| - 1];
      CallsBalanced(cfg, init, key);
      ControlledRun(cfg, START, init);
      BalancedStep(cfg, Run(cfg, START, init), last, key, Made(cfg, init, key), Crashed(cfg, init, key));
    }
  }

  /** So the provider is reached at most once for each crash, and as often as the budget allows besides. */
  lemma AllCallsBounded(cfg: Config, steps: seq<Step>, i: nat)
    requires i < |Run(cfg, START, steps).executions|
    ensures var ex := Run(cfg, START, steps).executions[i];
      Made(cfg, steps, ex.key) <= Crashed(cfg, steps, ex.key) + Budget(ex.params)
  {
    CallsBalanced(cfg, steps, Run(cfg, START, steps).executions[i].key);
    DispatchBound(cfg, steps, i);
  }
}
