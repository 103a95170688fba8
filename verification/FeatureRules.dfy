/**
  The data set in plain counts: which rows it has, in which order, and what each rolling
  cell holds, said in the payments' own fields.
 */
module FeatureRules {
  import opened RollingFeatures
  import opened TrainingRows

  // ---------------------------------------------------------------- the rows

  /** The texts agree on their first `k` characters, where the first one ends or has the smaller character. */
  predicate PartsAt(a: string, b: string, k: nat) {
    && k <= |a| && k <= |b| && (forall j :: 0 <= j < k ==> a[j] == b[j])
    && (k == |a| || (k < |b| && a[k] < b[k]))
  }

  ghost predicate NotAfter(a: string, b: string) {
    exists k: nat :: PartsAt(a, b, k)
  }

  lemma PartsLater(a: string, b: string, k: nat)
    requires a != "" && b != "" && a[0] == b[0]
    ensures PartsAt(a[1..], b[1..], k) <==> PartsAt(a, b, k + 1)
  {
    if PartsAt(a[1..], b[1..], k) {
      forall j | 0 <= j < k + 1 ensures a[j] == b[j] {
        assert j > 0 ==> a[j] == a[1..][j - 1] && b[j] == b[1..][j - 1];
      }
    }
  }

  lemma {:induction false} TextExactly(a: string, b: string)
    ensures TextLeq(a, b) <==> NotAfter(a, b)
  {
    if a == "" {
      assert PartsAt(a, b, 0);
    } else if b != "" && a[0] == b[0] {
      TextExactly(a[1..], b[1..]);
      if k: nat :| PartsAt(a[1..], b[1..], k) {
        PartsLater(a, b, k);
      }
      if k: nat :| PartsAt(a, b, k) {
        assert k > 0;
        PartsLater(a, b, k - 1);
      }
    } else if b != "" {
      assert a[0] < b[0] ==> PartsAt(a, b, 0);
      assert forall k: nat :: PartsAt(a, b, k) ==> k == 0;
    }
  }

  lemma {:induction false} TerminalExactly(payments: seq<Payment>, p: Payment)
    ensures multiset(TerminalOnly(payments))[p] == if p.terminal then multiset(payments)[p] else 0
  {
    if payments != [] {
      var init, last := payments[..|payments| - 1], payments[|payments| - 1];
      assert payments == init + [last];
      TerminalExactly(init, p);
    }
  }

  /** The rows are those of the terminal payments, by epoch and then by reference. */
  lemma RowsExactly(payments: seq<Payment>)
    ensures var sorted := Sort(TerminalOnly(payments));
      && (forall p: Payment :: multiset(sorted)[p] == if p.terminal then multiset(payments)[p] else 0)
      && forall i, j :: 0 <= i < j < |sorted| ==>
           || sorted[i].row.epoch < sorted[j].row.epoch
           || (sorted[i].row.epoch == sorted[j].row.epoch && NotAfter(sorted[i].ref, sorted[j].ref))
  {
    var sorted := Sort(TerminalOnly(payments));
    SortOrders(TerminalOnly(payments));
    forall p: Payment ensures multiset(sorted)[p] == if p.terminal then multiset(payments)[p] else 0 {
      TerminalExactly(payments, p);
    }
    forall i, j | 0 <= i < j < |sorted| && sorted[i].row.epoch >= sorted[j].row.epoch
      ensures sorted[i].row.epoch == sorted[j].row.epoch && NotAfter(sorted[i].ref, sorted[j].ref)
    {
      assert Leq(sorted[i], sorted[j]);
      TextExactly(sorted[i].ref, sorted[j].ref);
    }
  }

  // ---------------------------------------------------------------- the cells

  /** The two rows agree on what the level groups by. */
  predicate SameCohort(level: nat, p: Row, q: Row) {
    match level
    case 0 => p.payMethod == q.payMethod && p.issuer == q.issuer && p.psp == q.psp && p.gateway == q.gateway
    case 1 => p.payMethod == q.payMethod && p.issuer == q.issuer
    case 2 => p.payMethod == q.payMethod
    case _ => p.issuer == q.issuer
  }

  lemma CohortExactly(level: nat, p: Row, q: Row)
    requires level < LEVELS
    ensures LevelKey(level, p) == LevelKey(level, q) <==> SameCohort(level, p, q)
  {
    var a, b := LevelKey(level, p), LevelKey(level, q);
    assert a == b ==> forall j :: 0 <= j < |a| ==> a[j] == b[j];
  }

  /** A row of the cohort, no more than so many minutes older. */
  predicate Attempted(p: Row, level: nat, row: Row, minutes: int) {
    SameCohort(level, p, row) && p.epoch >= row.epoch - 60 * minutes
  }

  /** Such rows among the first `n`. */
  function Attempts(rows: seq<Row>, level: nat, row: Row, minutes: int, n: nat): set<nat>
    requires n <= |rows|
  {
    set j: nat | j < n && Attempted(rows[j], level, row, minutes)
  }

  function Failures(rows: seq<Row>, level: nat, row: Row, minutes: int, n: nat): set<nat>
    requires n <= |rows|
  {
    set j | j in Attempts(rows, level, row, minutes, n) && rows[j].failed
  }

  lemma OneMore(rows: seq<Row>, level: nat, row: Row, minutes: int, n: nat)
    requires n < |rows|
    ensures var counts := Attempted(rows[n], level, row, minutes);
      && |Attempts(rows, level, row, minutes, n + 1)| ==
          |Attempts(rows, level, row, minutes, n)| + (if counts then 1 else 0)
      && |Failures(rows, level, row, minutes, n + 1)| ==
          |Failures(rows, level, row, minutes, n)| + if counts && rows[n].failed then 1 else 0
  {
    hide SameCohort;
    var counts := Attempted(rows[n], level, row, minutes);
    var a, f := Attempts(rows, level, row, minutes, n), Failures(rows, level, row, minutes, n);
    assert Attempts(rows, level, row, minutes, n + 1) == a + if counts then {n} else {};
    assert Failures(rows, level, row, minutes, n + 1) == f + if counts && rows[n].failed then {n} else {};
  }

  lemma {:induction false} CountExactly(rows: seq<Row>, level: nat, row: Row, minutes: int, n: nat)
    requires level < LEVELS && n <= |rows|
    ensures var key, cutoff := LevelKey(level, row), row.epoch - minutes * 60;
      && InWindow(rows, level, key, cutoff, false, n) == |Attempts(rows, level, row, minutes, n)|
      && InWindow(rows, level, key, cutoff, true, n) == |Failures(rows, level, row, minutes, n)|
  {
    if n > 0 {
      hide LevelKey, SameCohort, Attempts, Failures;
      CountExactly(rows, level, row, minutes, n - 1);
      CohortExactly(level, rows[n - 1], row);
      OneMore(rows, level, row, minutes, n - 1);
    }
  }

  /** The columns run through the levels, in each through attempts, failures and rates, in each through the windows. */
  lemma ColumnExactly(windows: nat, level: nat, block: nat, w: nat)
    requires level < LEVELS && block < 3 && w < windows
    ensures Column(windows, level, block, w) == (3 * level + block) * windows + w
  {
    BaseBound(windows, level);
    assert (3 * level + block) * windows == 3 * level * windows + block * windows;
  }

  /** The attempts, the failures, and their rate unless there are fewer than three attempts. */
  ghost predicate CellsHold(m: Matrix, rows: seq<Row>, windows: seq<int>, i: nat, level: nat, w: nat)
    requires Shaped(m, rows, windows) && i < |rows| && level < LEVELS && w < |windows|
  {
    var attempts := |Attempts(rows, level, rows[i], windows[w], i)|;
    var failures := |Failures(rows, level, rows[i], windows[w], i)|;
    var n, first := |windows|, 3 * level * |windows| + w;
    && first + 2 * n < 12 * n
    && m[i][first] == attempts as real && m[i][first + n] == failures as real
    && if attempts < 3 then m[i][first + 2 * n] == -1.0
       else m[i][first + 2 * n] * attempts as real == failures as real
  }

  lemma CellsExactly(m: Matrix, rows: seq<Row>, windows: seq<int>, i: nat, level: nat, w: nat)
    requires Shaped(m, rows, windows) && i < |rows| && level < LEVELS && w < |windows|
    requires CellsDone(m, rows, windows, i, level, w)
    ensures CellsHold(m, rows, windows, i, level, w)
  {
    hide InWindow, Attempts, Failures, LevelKey;
    CountExactly(rows, level, rows[i], windows[w], i);
    var n := |windows|;
    ColumnExactly(n, level, 0, w);
    ColumnExactly(n, level, 1, w);
    ColumnExactly(n, level, 2, w);
    assert (3 * level + 1) * n == 3 * level * n + n && (3 * level + 2) * n == 3 * level * n + 2 * n;
  }

  /** Every rolling cell of a data set holds the counts, or the rate, of earlier payments of its cohort. */
  lemma DatasetExactly(payments: seq<Payment>, windows: seq<int>, rows: seq<Row>, m: Matrix)
    requires Dataset(payments, windows, rows, m)
    ensures rows == RowsOf(Sort(TerminalOnly(payments)))
    ensures forall level: nat, i: nat, w: nat :: level < LEVELS && i < |rows| && w < |windows| ==>
              CellsHold(m, rows, windows, i, level, w)
  {
    forall level: nat, i: nat, w: nat | level < LEVELS && i < |rows| && w < |windows|
      ensures CellsHold(m, rows, windows, i, level, w)
    {
      assert RowDone(m, rows, windows, i, level);
      CellsExactly(m, rows, windows, i, level, w);
    }
  }
}
